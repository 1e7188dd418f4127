/**
 * The job driver of the remote-processing client (api.py): the poll loop that
 * `process_job` and `_process_single_job_no_upload` both run, and the naming
 * of the files collected when a job completes.
 *
 * The network and the clock are replaced by a sequence of observations: the
 * i-th observation is the job object returned by the i-th status request,
 * together with the seconds elapsed since submission when the deadline is
 * checked in that iteration.
 */
module JobDriver {
  import opened Wrappers
  import PathNames

  /** One entry of a completed job's `outputAssets`; either key may be missing. */
  datatype Asset = Asset(name: Option<string>, link: Option<string>)

  /** The `job` object returned by a status request. */
  datatype JobInfo = JobInfo(status: string, outputAssets: Option<seq<Asset>>)

  /** One iteration's view of the world: the job as reported, and the elapsed time. */
  datatype Observation = Observation(job: JobInfo, elapsed: real)

  /**
   * What the loop needs from its caller: the job id, the timeout in seconds,
   * the output directory, the input's base name and `metadata.get("name")`.
   */
  datatype PollConfig = PollConfig(jobId: string, timeout: int, outputDir: string,
                                   inputBaseName: string, metadataName: Option<string>)

  /** The key added to the returned job object: `output_path` for one file, `output_paths` otherwise. */
  datatype OutputField = OutputPath(path: string) | OutputPaths(paths: seq<string>)

  /**
   * How the loop ends: the returned job object, the RuntimeError naming the job
   * and its status, the TimeoutError naming the job and the timeout, or (only
   * in the model) the observations ran out while the job was still running.
   */
  datatype Outcome =
    | Completed(job: JobInfo, output: OutputField)
    | Failed(jobId: string, status: string)
    | TimedOut(jobId: string, timeout: int)
    | NeedMore

  // ----- Output file names (api.py:82-92) -----

  /** `if a.get("link")`: the link is present and non-empty. */
  predicate HasLink(a: Asset) {
    a.link.Some? && a.link.value != ""
  }

  /** `metadata.get("name", "output")`. */
  function ModelName(cfg: PollConfig): (name: string) {
    cfg.metadataName.GetOr("output")
  }

  /**
   * `Path(a.get("name", "output.wav")).suffix[1:] or "wav"`: the asset name's
   * suffix without its dot; "wav" when the name is missing or has no suffix.
   */
  function FormatExt(name: Option<string>): (ext: string)
    ensures ext != "" && '.' !in ext && '/' !in ext
    ensures name.None? ==> ext == "wav"
    ensures name.Some? && PathNames.Suffix(name.value) == "" ==> ext == "wav"
    ensures name.Some? && PathNames.Suffix(name.value) != "" ==> PathNames.Suffix(name.value) == "." + ext
  {
    var suf := PathNames.Suffix(name.GetOr("output.wav"));
    SuffixTail(name.GetOr("output.wav"));
    DefaultNameSuffix();
    var tail := if |suf| >= 1 then suf[1..] else "";
    if tail != "" then tail else "wav"
  }

  /** A path's suffix is empty or a dot followed by a non-empty text without '.' or '/'. */
  lemma SuffixTail(n: string)
    ensures var suf := PathNames.Suffix(n);
            suf == "" || (|suf| >= 2 && suf == "." + suf[1..] && '.' !in suf[1..] && '/' !in suf[1..])
  {
    PathNames.SuffixSplitsName(PathNames.Name(n));
    var suf := PathNames.Suffix(n);
    if suf != "" {
      assert suf == [suf[0]] + suf[1..];
      forall j | 0 <= j < |suf[1..]| ensures suf[1..][j] != '.' && suf[1..][j] != '/' {
        assert suf[1..][j] == suf[j + 1];
      }
    }
  }

  /** The default asset name "output.wav" has the suffix ".wav". */
  lemma DefaultNameSuffix()
    ensures PathNames.Suffix("output.wav") == ".wav"
  {
    PathNames.NameOfDirPlus("", "output.wav");
    PathNames.StemSuffixRoundTrip("output", ".wav");
    assert "output" + ".wav" == "output.wav";
  }

  /**
   * `f"{input_base_name}_{model_name}.{format_ext}"`: pathlib reads it back as
   * stem `{base}_{model}` and suffix `.{ext}`; it has no '/' when neither name has.
   */
  function OutputFileName(cfg: PollConfig, a: Asset): (f: string)
    ensures PathNames.StemOfName(f) == cfg.inputBaseName + "_" + ModelName(cfg)
    ensures PathNames.SuffixOfName(f) == "." + FormatExt(a.name)
    ensures '/' !in cfg.inputBaseName && '/' !in ModelName(cfg) ==> '/' !in f
  {
    var stem := cfg.inputBaseName + "_" + ModelName(cfg);
    var suf := "." + FormatExt(a.name);
    ExtensionIsSuffixShaped(FormatExt(a.name));
    PathNames.StemSuffixRoundTrip(stem, suf);
    PathNames.NoSlashConcat(stem, suf);
    stem + suf
  }

  /**
   * `os.path.join(output_dir, output_filename)`: the path ends in the file
   * name, and a file name without '/' is the path's final component.
   */
  function OutputPathFor(cfg: PollConfig, a: Asset): (path: string)
    ensures var f := OutputFileName(cfg, a);
            |f| <= |path| && path[|path| - |f|..] == f
    ensures '/' !in OutputFileName(cfg, a) ==> PathNames.Name(path) == OutputFileName(cfg, a)
  {
    var f := OutputFileName(cfg, a);
    if '/' in f then
      PathNames.Join(cfg.outputDir, f)
    else
      PathNames.JoinName(cfg.outputDir, f);
      PathNames.Join(cfg.outputDir, f)
  }

  /**
   * Two linked assets whose names give the same extension are downloaded to
   * the same path: the second download overwrites the first, and
   * `output_paths` lists that path twice.
   */
  lemma SharedExtensionCollides(cfg: PollConfig, a: Asset, b: Asset)
    requires HasLink(a) && HasLink(b) && FormatExt(a.name) == FormatExt(b.name)
    ensures CollectedPaths(cfg, [a, b]) == [OutputPathFor(cfg, a), OutputPathFor(cfg, a)]
    ensures FieldFor(CollectedPaths(cfg, [a, b])) == OutputPaths([OutputPathFor(cfg, a), OutputPathFor(cfg, a)])
  {
    SameExtensionSamePath(cfg, a, b);
    CollectedPair(cfg, a, b);
  }

  /** Two linked assets give their two paths, in order. */
  lemma CollectedPair(cfg: PollConfig, a: Asset, b: Asset)
    requires HasLink(a) && HasLink(b)
    ensures CollectedPaths(cfg, [a, b]) == [OutputPathFor(cfg, a), OutputPathFor(cfg, b)]
  {
    LinkedPair(a, b);
    var ps := CollectedPaths(cfg, [a, b]);
    assert |ps| == 2 && ps[0] == OutputPathFor(cfg, a) && ps[1] == OutputPathFor(cfg, b);
  }

  /** The download path depends on the asset only through its extension. */
  lemma SameExtensionSamePath(cfg: PollConfig, a: Asset, b: Asset)
    requires FormatExt(a.name) == FormatExt(b.name)
    ensures OutputPathFor(cfg, a) == OutputPathFor(cfg, b)
  {
  }

  /** Two linked assets are both kept, in order. */
  lemma LinkedPair(a: Asset, b: Asset)
    requires HasLink(a) && HasLink(b)
    ensures Linked([a, b]) == [a, b]
  {
    assert [a, b][1..] == [b];
    assert [b][1..] == [];
  }

  /**
   * When neither the base name nor the model name contains '/', each collected
   * file lands in the output directory under the name built from them, and
   * pathlib reads that name back as stem `{base}_{model}` and the asset's own
   * suffix (".wav" when it had none).
   */
  lemma OutputFileNameParts(cfg: PollConfig, a: Asset)
    requires '/' !in cfg.inputBaseName && '/' !in ModelName(cfg)
    ensures PathNames.Name(OutputPathFor(cfg, a)) == OutputFileName(cfg, a)
    ensures var q := OutputPathFor(cfg, a); |cfg.outputDir| <= |q| && q[..|cfg.outputDir|] == cfg.outputDir
    ensures PathNames.Stem(OutputPathFor(cfg, a)) == cfg.inputBaseName + "_" + ModelName(cfg)
    ensures PathNames.Suffix(OutputPathFor(cfg, a)) == "." + FormatExt(a.name)
    ensures a.name.Some? && PathNames.Suffix(a.name.value) != "" ==>
              PathNames.Suffix(OutputPathFor(cfg, a)) == PathNames.Suffix(a.name.value)
  {
    var stem := cfg.inputBaseName + "_" + ModelName(cfg);
    var ext := FormatExt(a.name);
    var f := OutputFileName(cfg, a);
    assert f == stem + ("." + ext);
    assert '/' !in stem && '/' !in f;
    ExtensionIsSuffixShaped(ext);
    PathNames.JoinName(cfg.outputDir, f);
    PathNames.StemSuffixRoundTrip(stem, "." + ext);
  }

  /** A dot followed by an extension is a well-formed suffix. */
  lemma ExtensionIsSuffixShaped(ext: string)
    requires ext != "" && '.' !in ext && '/' !in ext
    ensures PathNames.IsSuffixShaped("." + ext)
  {
    forall j | 1 <= j < |"." + ext| ensures ("." + ext)[j] != '.' && ("." + ext)[j] != '/' {
      assert ("." + ext)[j] == ext[j - 1];
    }
  }

  /** The assets with a truthy link, in their original order. */
  function Linked(assets: seq<Asset>): (ls: seq<Asset>)
    ensures forall a :: a in ls ==> a in assets && HasLink(a)
    ensures |ls| <= |assets|
  {
    if assets == [] then []
    else (if HasLink(assets[0]) then [assets[0]] else []) + Linked(assets[1..])
  }

  /** The paths downloaded for a completed job, one per linked asset and in the same order. */
  function CollectedPaths(cfg: PollConfig, assets: seq<Asset>): (ps: seq<string>)
    ensures |ps| == |Linked(assets)|
    ensures forall j :: 0 <= j < |ps| ==> ps[j] == OutputPathFor(cfg, Linked(assets)[j])
  {
    var ls := Linked(assets);
    seq(|ls|, j requires 0 <= j < |ls| => OutputPathFor(cfg, ls[j]))
  }

  /** Collecting `a ++ b` collects `a`, then `b`. */
  lemma CollectedPathsAppend(cfg: PollConfig, a: seq<Asset>, b: seq<Asset>)
    ensures CollectedPaths(cfg, a + b) == CollectedPaths(cfg, a) + CollectedPaths(cfg, b)
  {
    LinkedAppend(a, b);
    var l, r := CollectedPaths(cfg, a), CollectedPaths(cfg, b);
    var both := CollectedPaths(cfg, a + b);
    assert |both| == |l| + |r|;
    forall j | 0 <= j < |both| ensures both[j] == (l + r)[j] {
      CollectedPathAt(cfg, a, b, j);
    }
  }

  /** One index of `CollectedPathsAppend`: the j-th path of `a ++ b` comes from `a`, or else from `b`. */
  lemma CollectedPathAt(cfg: PollConfig, a: seq<Asset>, b: seq<Asset>, j: int)
    requires Linked(a + b) == Linked(a) + Linked(b)
    requires 0 <= j < |Linked(a + b)|
    ensures CollectedPaths(cfg, a + b)[j] == (CollectedPaths(cfg, a) + CollectedPaths(cfg, b))[j]
  {
    var k := |Linked(a)|;
    if j < k {
      assert Linked(a + b)[j] == Linked(a)[j];
    } else {
      assert Linked(a + b)[j] == Linked(b)[j - k];
    }
  }

  /** Filtering distributes over concatenation: the collected order is the order of `outputAssets`. */
  lemma {:induction false} LinkedAppend(a: seq<Asset>, b: seq<Asset>)
    ensures Linked(a + b) == Linked(a) + Linked(b)
    decreases |a|
  {
    if a == [] {
      assert a + b == b;
    } else {
      assert (a + b)[0] == a[0];
      assert (a + b)[1..] == a[1..] + b;
      LinkedAppend(a[1..], b);
    }
  }

  /** An asset is collected if and only if it is one of `outputAssets` and its link is truthy. */
  lemma {:induction false} LinkedMembership(assets: seq<Asset>, a: Asset)
    ensures a in Linked(assets) <==> a in assets && HasLink(a)
    decreases |assets|
  {
    if assets != [] {
      LinkedMembership(assets[1..], a);
      assert assets == [assets[0]] + assets[1..];
    }
  }

  /** Exactly one path is collected if and only if exactly one asset has a truthy link. */
  lemma {:induction false} SingleLinkIff(assets: seq<Asset>)
    ensures |Linked(assets)| == 1 <==>
            exists i :: 0 <= i < |assets| && HasLink(assets[i]) &&
                        forall j :: 0 <= j < |assets| && j != i ==> !HasLink(assets[j])
    decreases |assets|
  {
    if assets == [] {
    } else {
      var rest := assets[1..];
      SingleLinkIff(rest);
      NoLinkIff(rest);
      if |Linked(assets)| == 1 {
        if HasLink(assets[0]) {
          assert forall j :: 1 <= j < |assets| ==> !HasLink(assets[j]) by {
            forall j | 1 <= j < |assets| ensures !HasLink(assets[j]) {
              assert assets[j] == rest[j - 1];
            }
          }
        } else {
          var i :| 0 <= i < |rest| && HasLink(rest[i]) &&
                   forall j :: 0 <= j < |rest| && j != i ==> !HasLink(rest[j]);
          assert assets[i + 1] == rest[i];
          forall j | 0 <= j < |assets| && j != i + 1 ensures !HasLink(assets[j]) {
            if j > 0 { assert assets[j] == rest[j - 1]; }
          }
        }
      }
    }
  }

  /** No path is collected if and only if no asset has a truthy link. */
  lemma {:induction false} NoLinkIff(assets: seq<Asset>)
    ensures |Linked(assets)| == 0 <==> forall j :: 0 <= j < |assets| ==> !HasLink(assets[j])
    decreases |assets|
  {
    if assets != [] {
      NoLinkIff(assets[1..]);
      forall j | 1 <= j < |assets| ensures assets[j] == assets[1..][j - 1] {}
    }
  }

  /** `output_path` for exactly one collected file, `output_paths` for none or several (api.py:94-97). */
  function FieldFor(paths: seq<string>): (f: OutputField)
    ensures f.OutputPath? <==> |paths| == 1
    ensures f.OutputPath? ==> f.path == paths[0]
    ensures f.OutputPaths? ==> f.paths == paths
  {
    if |paths| == 1 then OutputPath(paths[0]) else OutputPaths(paths)
  }

  // ----- The poll loop (api.py:77-106) -----

  /** The statuses that end the loop. */
  predicate IsTerminal(status: string) {
    status == "completed" || status == "failed" || status == "error"
  }

  /** An iteration that sleeps and polls again: not terminal, and not (strictly) past the timeout. */
  predicate KeepsPolling(cfg: PollConfig, o: Observation) {
    !IsTerminal(o.job.status) && o.elapsed <= cfg.timeout as real
  }

  /**
   * The decision of one iteration in the source's order: completion first,
   * then failure, then the deadline; NeedMore stands for "sleep and poll again".
   */
  function Decide(cfg: PollConfig, o: Observation): (d: Outcome)
    ensures d.NeedMore? <==> KeepsPolling(cfg, o)
    ensures d.Completed? <==> o.job.status == "completed"
    ensures d.Completed? ==> d.job == o.job
    ensures d.Failed? <==> o.job.status == "failed" || o.job.status == "error"
    ensures d.Failed? ==> d == Failed(cfg.jobId, o.job.status)
    ensures d.TimedOut? <==> !IsTerminal(o.job.status) && o.elapsed > cfg.timeout as real
    ensures d.TimedOut? ==> d == TimedOut(cfg.jobId, cfg.timeout)
  {
    var status := o.job.status;
    if status == "completed" then
      Completed(o.job, FieldFor(CollectedPaths(cfg, o.job.outputAssets.GetOr([]))))
    else if status == "failed" || status == "error" then
      Failed(cfg.jobId, status)
    else if o.elapsed > cfg.timeout as real then
      TimedOut(cfg.jobId, cfg.timeout)
    else
      NeedMore
  }

  /**
   * The loop over a finite sequence of observations.  A completed result is
   * the job object of an observed "completed" status; a failure names the job
   * and one of the failing statuses; a timeout names the job and the timeout.
   */
  function Poll(cfg: PollConfig, obs: seq<Observation>): (r: Outcome)
    ensures r.Completed? ==> exists i :: 0 <= i < |obs| && obs[i].job == r.job && r.job.status == "completed"
    ensures r.Failed? ==> r.jobId == cfg.jobId && (r.status == "failed" || r.status == "error")
    ensures r.TimedOut? ==> r == TimedOut(cfg.jobId, cfg.timeout)
    decreases |obs|
  {
    if obs == [] then NeedMore
    else
      var d := Decide(cfg, obs[0]);
      if !d.NeedMore? then d
      else
        var r := Poll(cfg, obs[1..]);
        assert r.Completed? ==> exists i :: 1 <= i < |obs| && obs[i].job == r.job by {
          if r.Completed? {
            var i :| 0 <= i < |obs[1..]| && obs[1..][i].job == r.job;
            assert obs[i + 1] == obs[1..][i];
          }
        }
        r
  }

  /** The loop ends with the decision of the first observation that does not keep polling. */
  lemma {:induction false} PollStopsAtFirstDecision(cfg: PollConfig, obs: seq<Observation>, k: nat)
    requires k < |obs|
    requires forall j :: 0 <= j < k ==> KeepsPolling(cfg, obs[j])
    requires !KeepsPolling(cfg, obs[k])
    ensures Poll(cfg, obs) == Decide(cfg, obs[k])
    ensures !Poll(cfg, obs).NeedMore?
    decreases k
  {
    if k > 0 {
      assert KeepsPolling(cfg, obs[0]);
      forall j | 0 <= j < k - 1 ensures KeepsPolling(cfg, obs[1..][j]) {
        assert obs[1..][j] == obs[j + 1];
      }
      PollStopsAtFirstDecision(cfg, obs[1..], k - 1);
    }
  }

  /** The loop is still running after all observations if and only if every one of them kept polling. */
  lemma {:induction false} PollNeedsMoreIff(cfg: PollConfig, obs: seq<Observation>)
    ensures Poll(cfg, obs).NeedMore? <==> forall j :: 0 <= j < |obs| ==> KeepsPolling(cfg, obs[j])
    decreases |obs|
  {
    if obs != [] {
      PollNeedsMoreIff(cfg, obs[1..]);
      forall j | 1 <= j < |obs| ensures obs[j] == obs[1..][j - 1] {}
    }
  }

  /**
   * The loop consumes observations one at a time: once it has ended, later
   * observations are never looked at; while it runs, it continues with them.
   */
  lemma {:induction false} PollConsumesInOrder(cfg: PollConfig, obs: seq<Observation>, more: seq<Observation>)
    ensures !Poll(cfg, obs).NeedMore? ==> Poll(cfg, obs + more) == Poll(cfg, obs)
    ensures Poll(cfg, obs).NeedMore? ==> Poll(cfg, obs + more) == Poll(cfg, more)
    decreases |obs|
  {
    if obs == [] {
      assert obs + more == more;
    } else {
      assert (obs + more)[0] == obs[0];
      assert (obs + more)[1..] == obs[1..] + more;
      PollConsumesInOrder(cfg, obs[1..], more);
    }
  }

  /** "failed" or "error" raises with the job id and status even when the deadline has passed. */
  lemma FailureReportedPastDeadline(cfg: PollConfig, obs: seq<Observation>, k: nat)
    requires k < |obs|
    requires forall j :: 0 <= j < k ==> KeepsPolling(cfg, obs[j])
    requires obs[k].job.status == "failed" || obs[k].job.status == "error"
    ensures Poll(cfg, obs) == Failed(cfg.jobId, obs[k].job.status)
  {
    PollStopsAtFirstDecision(cfg, obs, k);
  }

  /** "completed" returns the job object whatever the elapsed time. */
  lemma CompletionIgnoresDeadline(cfg: PollConfig, obs: seq<Observation>, k: nat)
    requires k < |obs|
    requires forall j :: 0 <= j < k ==> KeepsPolling(cfg, obs[j])
    requires obs[k].job.status == "completed"
    ensures Poll(cfg, obs).Completed? && Poll(cfg, obs).job == obs[k].job
    ensures Poll(cfg, obs).output
              == FieldFor(CollectedPaths(cfg, obs[k].job.outputAssets.GetOr([])))
  {
    PollStopsAtFirstDecision(cfg, obs, k);
  }

  /**
   * A timeout is raised only after a non-terminal status was seen with the
   * elapsed time strictly past the timeout, every earlier poll having kept polling.
   */
  lemma {:induction false} TimeoutOnlyWhenOverdue(cfg: PollConfig, obs: seq<Observation>)
    requires Poll(cfg, obs).TimedOut?
    ensures Poll(cfg, obs) == TimedOut(cfg.jobId, cfg.timeout)
    ensures exists k :: 0 <= k < |obs| && !IsTerminal(obs[k].job.status) &&
                        obs[k].elapsed > cfg.timeout as real &&
                        forall j :: 0 <= j < k ==> KeepsPolling(cfg, obs[j])
    decreases |obs|
  {
    if Decide(cfg, obs[0]).TimedOut? {
      assert 0 < |obs| && !IsTerminal(obs[0].job.status) && obs[0].elapsed > cfg.timeout as real;
    } else {
      TimeoutOnlyWhenOverdue(cfg, obs[1..]);
      var k :| 0 <= k < |obs[1..]| && !IsTerminal(obs[1..][k].job.status) &&
               obs[1..][k].elapsed > cfg.timeout as real &&
               forall j :: 0 <= j < k ==> KeepsPolling(cfg, obs[1..][j]);
      assert obs[k + 1] == obs[1..][k];
      forall j | 0 <= j < k + 1 ensures KeepsPolling(cfg, obs[j]) {
        if j > 0 { assert obs[j] == obs[1..][j - 1]; }
      }
    }
  }

  /** An elapsed time equal to the timeout does not time out: the loop polls again. */
  lemma AtDeadlineKeepsPolling(cfg: PollConfig, o: Observation, rest: seq<Observation>)
    requires !IsTerminal(o.job.status) && o.elapsed == cfg.timeout as real
    ensures Poll(cfg, [o] + rest) == Poll(cfg, rest)
  {
    assert ([o] + rest)[1..] == rest;
  }

  // ----- The imperative loops -----

  /** The `for a in outputAssets` loop: appends one path per linked asset. */
  method CollectOutputs(cfg: PollConfig, assets: seq<Asset>) returns (outputPaths: seq<string>)
    ensures outputPaths == CollectedPaths(cfg, assets)
  {
    outputPaths := [];
    for i := 0 to |assets|
      invariant outputPaths == CollectedPaths(cfg, assets[..i])
    {
      var a := assets[i];
      assert assets[..i + 1] == assets[..i] + [a];
      CollectedPathsAppend(cfg, assets[..i], [a]);
      assert [a][1..] == [];
      assert Linked([a]) == if HasLink(a) then [a] else [];
      if HasLink(a) {
        outputPaths := outputPaths + [OutputPathFor(cfg, a)];
      }
    }
    assert assets[..|assets|] == assets;
  }

  /** The `while True` poll loop, reading one observation per status request. */
  method PollLoop(cfg: PollConfig, obs: seq<Observation>) returns (r: Outcome)
    ensures r == Poll(cfg, obs)
  {
    var i := 0;
    while i < |obs|
      invariant 0 <= i <= |obs|
      invariant Poll(cfg, obs) == Poll(cfg, obs[i..])
    {
      var jobInfo := obs[i].job;
      var status := jobInfo.status;
      assert obs[i..][0] == obs[i] && obs[i..][1..] == obs[i + 1..];
      if status == "completed" {
        var outputPaths := CollectOutputs(cfg, jobInfo.outputAssets.GetOr([]));
        if |outputPaths| == 1 {
          return Completed(jobInfo, OutputPath(outputPaths[0]));
        } else {
          return Completed(jobInfo, OutputPaths(outputPaths));
        }
      }
      if status == "failed" || status == "error" {
        return Failed(cfg.jobId, status);
      }
      if obs[i].elapsed > cfg.timeout as real {
        return TimedOut(cfg.jobId, cfg.timeout);
      }
      i := i + 1;
    }
    return NeedMore;
  }

  /**
   * `process_job` after upload and submission: the loop for job `jobId`, with
   * the output files named after `Path(file_path).stem`.
   */
  method ProcessJob(filePath: string, jobId: string, metadataName: Option<string>, timeout: int,
                    outputDir: string, obs: seq<Observation>) returns (r: Outcome)
    ensures r == Poll(PollConfig(jobId, timeout, outputDir, PathNames.Stem(filePath), metadataName), obs)
  {
    var inputBaseName := PathNames.Stem(filePath);
    r := PollLoop(PollConfig(jobId, timeout, outputDir, inputBaseName, metadataName), obs);
  }

  /**
   * `_process_single_job_no_upload` after submission: the same loop, with the
   * base name supplied by the caller (`process_jobs` passes `Path(file_path).stem`).
   */
  method ProcessSingleJobNoUpload(jobId: string, metadataName: Option<string>, timeout: int,
                                  outputDir: string, inputBaseName: string, obs: seq<Observation>)
    returns (r: Outcome)
    ensures r == Poll(PollConfig(jobId, timeout, outputDir, inputBaseName, metadataName), obs)
  {
    r := PollLoop(PollConfig(jobId, timeout, outputDir, inputBaseName, metadataName), obs);
  }
}
