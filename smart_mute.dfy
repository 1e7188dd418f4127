/**
 * The `smart_mute` pipeline (smart_mute.py:12-100) around the reassembly loop:
 * the `.wav` input guard, the detection job's single output, and the name of
 * the file written next to the input.
 */
module SmartMute {
  import opened Wrappers
  import opened PathNames
  import opened Reassembly
  import JobDriver

  /**
   * `path.suffix.lower() == ".wav"` (smart_mute.py:41): an accepted path has a
   * four-character suffix and a non-empty stem.
   */
  predicate IsWavInput(p: string): (accepted: bool)
    ensures accepted ==> |Suffix(p)| == 4 && Stem(p) != ""
  {
    SuffixSplitsName(Name(p));
    Lower(Suffix(p)) == ".wav"
  }

  /**
   * The guard accepts a path exactly when its final component is longer than
   * four characters and ends in ".wav" in any mix of cases.  (A bare ".wav" is
   * rejected: pathlib gives it no suffix.)
   */
  lemma WavGuardIff(p: string)
    ensures IsWavInput(p) <==>
            var n := Name(p); |n| > 4 && Lower(n[|n| - 4..]) == ".wav"
  {
    if IsWavInput(p) {
      WavGuardAcceptsLongName(p);
    }
    var n := Name(p);
    if |n| > 4 && Lower(n[|n| - 4..]) == ".wav" {
      WavTailAccepted(p);
    }
  }

  /** An accepted name is longer than four characters, and its last four are the suffix. */
  lemma WavGuardAcceptsLongName(p: string)
    requires IsWavInput(p)
    ensures var n := Name(p); |n| > 4 && n[|n| - 4..] == Suffix(p)
  {
    var n := Name(p);
    assert |Suffix(p)| == 4;
    assert HasSuffix(n);
  }

  /** A name longer than four characters whose last four lower-case to ".wav" is accepted. */
  lemma WavTailAccepted(p: string)
    requires var n := Name(p); |n| > 4 && Lower(n[|n| - 4..]) == ".wav"
    ensures IsWavInput(p)
  {
    var n := Name(p);
    var tail := n[|n| - 4..];
    assert LowerChar(tail[0]) == '.';
    assert n[|n| - 4] == '.';
    forall j | |n| - 4 < j < |n| ensures n[j] != '.' {
      assert LowerChar(tail[j - (|n| - 4)]) != '.';
      assert tail[j - (|n| - 4)] == n[j];
    }
    assert RFind(n, '.') == |n| - 4;
    assert Suffix(p) == tail;
  }

  /**
   * `path.with_stem(f"{path.stem}_smart_mute")` (smart_mute.py:93): it fails
   * only on a path with an empty name, and the new path is in the same directory.
   */
  function MutedOutputPath(p: string): (q: Option<string>)
    ensures q.Some? <==> Name(p) != ""
    ensures q.Some? ==> Dir(q.value) == Dir(p) && Name(q.value) == Stem(p) + "_smart_mute" + Suffix(p)
  {
    var stem := Stem(p) + "_smart_mute";
    NoSlashConcat(Stem(p), "_smart_mute");
    WithStem(p, stem)
  }

  /**
   * For an accepted input the output path exists, sits in the same directory,
   * has the stem `stem + "_smart_mute"`, and keeps the input's suffix exactly as
   * written (".WAV" stays ".WAV").
   */
  lemma MutedOutputPathShape(p: string)
    requires IsWavInput(p)
    ensures MutedOutputPath(p).Some?
    ensures var q := MutedOutputPath(p).value;
            Dir(q) == Dir(p) && Suffix(q) == Suffix(p) && Stem(q) == Stem(p) + "_smart_mute"
  {
    var n := Name(p);
    SuffixSplitsName(n);
    var suf := Suffix(p);
    assert |suf| == 4 && IsSuffixShaped(suf);
    var stem := Stem(p) + "_smart_mute";
    assert '/' !in stem;
    var newName := stem + suf;
    assert newName != "" && newName != "." && '/' !in newName;
    assert n != "";
    StemSuffixRoundTrip(stem, suf);
  }

  /**
   * An upper-case suffix is accepted and kept: `dir/base.WAV` becomes
   * `dir/base_smart_mute.WAV` (for instance "/music/Song.WAV").
   */
  lemma UpperCaseSuffixKept(dir: string, base: string)
    requires dir == "" || dir[|dir| - 1] == '/'
    requires base != "" && '/' !in base
    ensures IsWavInput(dir + base + ".WAV")
    ensures MutedOutputPath(dir + base + ".WAV") == Some(dir + (base + "_smart_mute" + ".WAV"))
  {
    var p := dir + base + ".WAV";
    UpperWavPath(dir, base);
    UpperWavShaped();
    var n := base + "_smart_mute" + ".WAV";
    assert Stem(p) + "_smart_mute" + Suffix(p) == n;
    assert MutedOutputPath(p) == WithName(p, n);
  }

  /** The parts pathlib sees in `dir/base.WAV`. */
  lemma UpperWavPath(dir: string, base: string)
    requires dir == "" || dir[|dir| - 1] == '/'
    requires base != "" && '/' !in base
    ensures var p := dir + base + ".WAV";
            Suffix(p) == ".WAV" && Stem(p) == base && Name(p) == base + ".WAV" && Dir(p) == dir
  {
    var p := dir + base + ".WAV";
    assert p == dir + (base + ".WAV");
    assert '/' !in base + ".WAV";
    NameOfDirPlus(dir, base + ".WAV");
    UpperWavShaped();
    StemSuffixRoundTrip(base, ".WAV");
  }

  /** ".WAV" is a well-formed suffix that lower-cases to ".wav". */
  lemma UpperWavShaped()
    ensures IsSuffixShaped(".WAV") && Lower(".WAV") == ".wav"
  {
    assert LowerChar('W') == 'w' && LowerChar('A') == 'a' && LowerChar('V') == 'v';
  }

  /** `result["output_path"]`: present only when the job completed with exactly one file. */
  function OutputPathOf(o: JobDriver.Outcome): (path: Option<string>) {
    if o.Completed? && o.output.OutputPath? then Some(o.output.path) else None
  }

  /**
   * The detection result has an `output_path` exactly when the job completed
   * and exactly one of its output assets has a truthy link; then it is that
   * asset's download path.
   */
  lemma DetectionOutputPathIff(cfg: JobDriver.PollConfig, o: JobDriver.Observation)
    requires o.job.status == "completed"
    ensures var assets := o.job.outputAssets.GetOr([]);
            OutputPathOf(JobDriver.Decide(cfg, o)).Some? <==>
            exists i :: 0 <= i < |assets| && JobDriver.HasLink(assets[i]) &&
                        forall j :: 0 <= j < |assets| && j != i ==> !JobDriver.HasLink(assets[j])
    ensures var assets := o.job.outputAssets.GetOr([]);
            OutputPathOf(JobDriver.Decide(cfg, o)).Some? ==>
            OutputPathOf(JobDriver.Decide(cfg, o)).value
              == JobDriver.OutputPathFor(cfg, JobDriver.Linked(assets)[0])
  {
    JobDriver.SingleLinkIff(o.job.outputAssets.GetOr([]));
  }

  /** Why `smart_mute` stops without writing its output. */
  datatype MuteError =
    | NotWav                               // ValueError at smart_mute.py:42
    | DetectionError(outcome: JobDriver.Outcome)  // the detection job failed or timed out
    | MissingOutputPath                    // KeyError: detection produced zero or several files

  /**
   * What `smart_mute` checks before and after detection, in the source's order:
   * the suffix guard, the detection job's outcome, its single output file; the
   * result is the path the processed audio is written to.
   */
  function Prepare(p: string, detection: JobDriver.Outcome): (r: Result<string, MuteError>)
    ensures r.Ok? <==> IsWavInput(p) && OutputPathOf(detection).Some?
    ensures !IsWavInput(p) ==> r == Err(NotWav)
    ensures IsWavInput(p) && !detection.Completed? ==> r == Err(DetectionError(detection))
    ensures IsWavInput(p) && detection.Completed? && OutputPathOf(detection).None? ==> r == Err(MissingOutputPath)
    ensures r.Ok? ==> Some(r.value) == MutedOutputPath(p)
  {
    if !IsWavInput(p) then Err(NotWav)
    else if !detection.Completed? then Err(DetectionError(detection))
    else if OutputPathOf(detection).None? then Err(MissingOutputPath)
    else
      MutedOutputPathShape(p);
      Ok(MutedOutputPath(p).value)
  }

  /**
   * `smart_mute` with the detection job's outcome, its parsed events, the
   * decoded input audio and the removal job supplied.  On success the output
   * path is derived from the input and the processed audio is the reassembly
   * of the original over the events' frame ranges.
   */
  method Run<T>(p: string, detection: JobDriver.Outcome, events: seq<Event>, original: array<T>,
                sr: nat, remove: seq<T> -> seq<T>, zero: T)
    returns (r: Result<string, MuteError>, processed: array<T>)
    requires IsWavInput(p) && OutputPathOf(detection).Some? ==> AllWithin(Regions(events, sr), original.Length)
    ensures r == Prepare(p, detection)
    ensures r.Ok? ==> fresh(processed) &&
                      processed[..] == Reassembled(original[..], Regions(events, sr), remove, zero)
  {
    processed := original;
    if !IsWavInput(p) {
      return Err(NotWav), processed;
    }
    if !detection.Completed? {
      return Err(DetectionError(detection)), processed;
    }
    if OutputPathOf(detection).None? {
      return Err(MissingOutputPath), processed;
    }
    processed := Reassemble(original, Regions(events, sr), remove, zero);
    MutedOutputPathShape(p);
    r := Ok(MutedOutputPath(p).value);
  }
}
