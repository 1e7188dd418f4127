/**
 * Segment reassembly (smart_mute.py:61-90).
 *
 * The processed buffer starts as a copy of the original.  The detected regions
 * are visited in the order given; for each one the current processed buffer is
 * sliced, the slice is handed to the music-removal job, and the frames the job
 * returns are written back over the region.  The write-back reconciles lengths:
 * an exact-length return is copied verbatim, an over-long return is truncated
 * to the region, and a short return is copied as a prefix with the rest of the
 * region set to silence.
 *
 * A frame is a generic value `T` (one sample, or one multi-channel row) and
 * `zero` is its silence (numpy's `= 0` zeroes every channel of a row).  The
 * removal job is a function from the slice sent to the frames returned.
 */
module Reassembly {

  /** A detected music event, in seconds (one object of the detection JSON). */
  datatype Event = Event(startTime: real, endTime: real)

  /** The half-open frame range `[start, end)` of one event. */
  datatype Region = Region(start: int, end: int)

  /** Python's `int(x)` for a real: truncation toward zero. */
  function Trunc(x: real): (n: int)
    ensures 0.0 <= x ==> 0 <= n && n as real <= x < n as real + 1.0
    ensures x < 0.0 ==> n <= 0 && x <= n as real < x + 1.0
  {
    if x >= 0.0 then x.Floor else -((-x).Floor)
  }

  /**
   * `int(t * sr)`: the frame index of time `t` at sample rate `sr`; for a
   * non-negative time it is the last frame that starts at or before `t`.
   */
  function SampleIndex(t: real, sr: nat): (i: int)
    ensures 0.0 <= t ==> 0 <= i && i as real <= t * sr as real < i as real + 1.0
  {
    ScaleMonotone(0.0, t, sr as real);
    Trunc(t * sr as real)
  }

  /** The frame range of an event (smart_mute.py:67-68); an ordered, non-negative event gives an ordered range. */
  function ToRegion(e: Event, sr: nat): (r: Region)
    ensures 0.0 <= e.startTime <= e.endTime ==> 0 <= r.start <= r.end
  {
    SampleIndexMonotone(e.startTime, e.endTime, sr);
    Region(SampleIndex(e.startTime, sr), SampleIndex(e.endTime, sr))
  }

  /** The frame ranges of all events, in the order the detection job listed them. */
  function Regions(events: seq<Event>, sr: nat): (rs: seq<Region>)
    ensures |rs| == |events|
    ensures forall i :: 0 <= i < |events| ==> rs[i] == ToRegion(events[i], sr)
  {
    seq(|events|, i requires 0 <= i < |events| => ToRegion(events[i], sr))
  }

  /** An event that starts at a non-negative time, does not end before it starts and ends within the buffer. */
  predicate EventWithin(e: Event, sr: nat, frames: nat) {
    0.0 <= e.startTime <= e.endTime && e.endTime * sr as real <= frames as real
  }

  /** Truncation keeps such an event's frame range ordered and inside the buffer. */
  lemma EventRegionWithin(e: Event, sr: nat, frames: nat)
    requires EventWithin(e, sr, frames)
    ensures 0 <= ToRegion(e, sr).start <= ToRegion(e, sr).end <= frames
  {
    ScaleMonotone(e.startTime, e.endTime, sr as real);
    assert ToRegion(e, sr).end as real <= e.endTime * sr as real;
  }

  /** When every event lies inside the audio, so does every frame range. */
  lemma RegionsWithin(events: seq<Event>, sr: nat, frames: nat)
    requires forall e :: e in events ==> EventWithin(e, sr, frames)
    ensures AllWithin(Regions(events, sr), frames)
  {
    forall r | r in Regions(events, sr) ensures RegionWithin(r, frames) {
      var i :| 0 <= i < |events| && Regions(events, sr)[i] == r;
      EventRegionWithin(events[i], sr, frames);
    }
  }

  /** Frame indices of non-negative times keep the order of the times. */
  lemma SampleIndexMonotone(s: real, t: real, sr: nat)
    ensures 0.0 <= s <= t ==> SampleIndex(s, sr) <= SampleIndex(t, sr)
  {
    if 0.0 <= s <= t {
      var c := sr as real;
      var x, y := s * c, t * c;
      ScaleMonotone(0.0, s, c);
      assert 0.0 * c == 0.0;
      ScaleMonotone(s, t, c);
      assert 0.0 <= x <= y;
      TruncMonotone(x, y);
      assert SampleIndex(s, sr) == Trunc(x) && SampleIndex(t, sr) == Trunc(y);
    }
  }

  /** Truncation of non-negative reals keeps their order. */
  lemma TruncMonotone(x: real, y: real)
    ensures 0.0 <= x <= y ==> Trunc(x) <= Trunc(y)
  {
    if 0.0 <= x <= y {
      assert Trunc(x) as real <= x <= y < Trunc(y) as real + 1.0;
    }
  }

  /** Scaling by a non-negative rate keeps the order of times. */
  lemma ScaleMonotone(a: real, b: real, c: real)
    ensures a <= b && 0.0 <= c ==> a * c <= b * c
  {
    if a <= b && 0.0 <= c {
      var d := b - a;
      assert b * c == a * c + d * c;
      assert d * c >= 0.0;
    }
  }

  /** A region lies inside a buffer of `n` frames. */
  predicate RegionWithin(r: Region, n: int) {
    0 <= r.start <= r.end <= n
  }

  /** Every region lies inside a buffer of `n` frames. */
  predicate AllWithin(regions: seq<Region>, n: int) {
    forall r :: r in regions ==> RegionWithin(r, n)
  }

  /** `target` frames of silence. */
  function Silence<T>(target: nat, zero: T): (z: seq<T>)
    ensures |z| == target && forall j :: 0 <= j < target ==> z[j] == zero
  {
    seq(target, _ => zero)
  }

  function Min(a: int, b: int): (m: int) {
    if a < b then a else b
  }

  /**
   * What is written over a region of `target` frames when the job returned
   * `ret` (smart_mute.py:83-90): frame j of the region is `ret[j]` when the job
   * returned that many frames, and silence otherwise.
   */
  function Reconcile<T>(ret: seq<T>, target: nat, zero: T): (w: seq<T>)
    ensures |w| == target
    ensures forall j :: 0 <= j < target ==> w[j] == if j < |ret| then ret[j] else zero
  {
    if |ret| != target then
      var m := Min(|ret|, target);
      ret[..m] + if m < target then Silence(target - m, zero) else []
    else
      ret
  }

  /**
   * The buffer after one region's write-back: the region holds the reconciled
   * return and every frame outside the region is the frame it was.
   */
  function ApplyRegion<T>(buf: seq<T>, r: Region, ret: seq<T>, zero: T): (out: seq<T>)
    requires RegionWithin(r, |buf|)
    ensures |out| == |buf|
    ensures forall k :: 0 <= k < |buf| && !(r.start <= k < r.end) ==> out[k] == buf[k]
    ensures forall k :: r.start <= k < r.end ==>
              out[k] == if k - r.start < |ret| then ret[k - r.start] else zero
  {
    buf[..r.start] + Reconcile(ret, r.end - r.start, zero) + buf[r.end..]
  }

  /** One iteration of the loop: the slice is read from the CURRENT buffer and its job result written back. */
  function Step<T>(buf: seq<T>, r: Region, remove: seq<T> -> seq<T>, zero: T): (out: seq<T>)
    requires RegionWithin(r, |buf|)
    ensures |out| == |buf|
    ensures forall k :: 0 <= k < |buf| && !(r.start <= k < r.end) ==> out[k] == buf[k]
    ensures var ret := remove(buf[r.start..r.end]);
            forall k :: r.start <= k < r.end ==>
              out[k] == if k - r.start < |ret| then ret[k - r.start] else zero
  {
    ApplyRegion(buf, r, remove(buf[r.start..r.end]), zero)
  }

  /** The processed buffer after all regions, applied in the given order without sorting or merging. */
  function Reassembled<T>(buf: seq<T>, regions: seq<Region>, remove: seq<T> -> seq<T>, zero: T): (out: seq<T>)
    requires AllWithin(regions, |buf|)
    ensures |out| == |buf|
    decreases |regions|
  {
    if regions == [] then buf
    else
      var next := Step(buf, regions[0], remove, zero);
      assert forall r :: r in regions[1..] ==> r in regions;
      Reassembled(next, regions[1..], remove, zero)
  }

  // ----- The length-reconciliation policy, case by case -----

  /** An exact-length return replaces the region verbatim and leaves the rest alone. */
  lemma ExactReturnIsVerbatim<T>(buf: seq<T>, r: Region, ret: seq<T>, zero: T)
    requires RegionWithin(r, |buf|)
    requires |ret| == r.end - r.start
    ensures ApplyRegion(buf, r, ret, zero) == buf[..r.start] + ret + buf[r.end..]
  {
    var out := ApplyRegion(buf, r, ret, zero);
    var want := buf[..r.start] + ret + buf[r.end..];
    forall k | 0 <= k < |buf| ensures out[k] == want[k] {
      if k < r.start {
      } else if k < r.end {
        assert want[k] == ret[k - r.start];
      } else {
        assert want[k] == buf[r.end..][k - r.end];
      }
    }
  }

  /** A return short by `short` frames fills the region's head and silences its last `short` frames. */
  lemma ShortReturnIsZeroFilled<T>(buf: seq<T>, r: Region, ret: seq<T>, zero: T, short: nat)
    requires RegionWithin(r, |buf|)
    requires 0 < short <= r.end - r.start && |ret| == r.end - r.start - short
    ensures ApplyRegion(buf, r, ret, zero)[r.start..r.end - short] == ret
    ensures forall k :: r.end - short <= k < r.end ==> ApplyRegion(buf, r, ret, zero)[k] == zero
    ensures ApplyRegion(buf, r, ret, zero)[..r.start] == buf[..r.start]
    ensures ApplyRegion(buf, r, ret, zero)[r.end..] == buf[r.end..]
  {
    var out := ApplyRegion(buf, r, ret, zero);
    assert |out[r.start..r.end - short]| == |ret|;
    forall j | 0 <= j < |ret| ensures out[r.start..r.end - short][j] == ret[j] {
      assert out[r.start..r.end - short][j] == out[r.start + j];
    }
  }

  /** An over-long return contributes only its first `end - start` frames; nothing past the region changes. */
  lemma LongReturnIsTruncated<T>(buf: seq<T>, r: Region, ret: seq<T>, zero: T)
    requires RegionWithin(r, |buf|)
    requires |ret| > r.end - r.start
    ensures ApplyRegion(buf, r, ret, zero)[r.start..r.end] == ret[..r.end - r.start]
    ensures ApplyRegion(buf, r, ret, zero)[..r.start] == buf[..r.start]
    ensures ApplyRegion(buf, r, ret, zero)[r.end..] == buf[r.end..]
  {
    var out := ApplyRegion(buf, r, ret, zero);
    forall j | 0 <= j < r.end - r.start ensures out[r.start..r.end][j] == ret[..r.end - r.start][j] {
      assert out[r.start..r.end][j] == out[r.start + j];
    }
  }

  // ----- The whole loop -----

  /** With no regions the processed buffer equals the original. */
  lemma NoRegionsNoChange<T>(buf: seq<T>, remove: seq<T> -> seq<T>, zero: T)
    ensures Reassembled(buf, [], remove, zero) == buf
  {
  }

  /** Applying `a ++ b` is applying `a`, then applying `b` to the result. */
  lemma {:induction false} ReassembledSplit<T>(buf: seq<T>, a: seq<Region>, b: seq<Region>,
                                               remove: seq<T> -> seq<T>, zero: T)
    requires AllWithin(a + b, |buf|)
    ensures AllWithin(a, |buf|) && AllWithin(b, |buf|)
    ensures Reassembled(buf, a + b, remove, zero) == Reassembled(Reassembled(buf, a, remove, zero), b, remove, zero)
    decreases |a|
  {
    assert forall r :: r in a ==> r in a + b;
    assert forall r :: r in b ==> r in a + b;
    if a != [] {
      assert (a + b)[0] == a[0];
      assert (a + b)[1..] == a[1..] + b;
      ReassembledSplit(Step(buf, a[0], remove, zero), a[1..], b, remove, zero);
    } else {
      assert a + b == b;
    }
  }

  /**
   * The slice sent for region i is read from the buffer as already modified by
   * regions 0..i-1, and the regions after i continue from what region i wrote.
   */
  lemma RegionSeesEarlierWrites<T>(buf: seq<T>, regions: seq<Region>, i: nat,
                                   remove: seq<T> -> seq<T>, zero: T)
    requires AllWithin(regions, |buf|)
    requires i < |regions|
    ensures AllWithin(regions[..i], |buf|) && AllWithin(regions[i + 1..], |buf|)
    ensures var before := Reassembled(buf, regions[..i], remove, zero);
            Reassembled(buf, regions, remove, zero)
              == Reassembled(Step(before, regions[i], remove, zero), regions[i + 1..], remove, zero)
  {
    assert regions == regions[..i] + regions[i..];
    ReassembledSplit(buf, regions[..i], regions[i..], remove, zero);
    var before := Reassembled(buf, regions[..i], remove, zero);
    assert regions[i..][0] == regions[i];
    assert regions[i..][1..] == regions[i + 1..];
  }

  /** A frame that no region covers keeps its original value. */
  lemma {:induction false} UncoveredFrameUnchanged<T>(buf: seq<T>, regions: seq<Region>,
                                                      remove: seq<T> -> seq<T>, zero: T, k: nat)
    requires AllWithin(regions, |buf|)
    requires k < |buf|
    requires forall r :: r in regions ==> !(r.start <= k < r.end)
    ensures Reassembled(buf, regions, remove, zero)[k] == buf[k]
    decreases |regions|
  {
    if regions != [] {
      assert regions[0] in regions;
      var next := Step(buf, regions[0], remove, zero);
      assert forall r :: r in regions[1..] ==> r in regions;
      UncoveredFrameUnchanged(next, regions[1..], remove, zero, k);
    }
  }

  /**
   * Last write wins: a frame inside the last region holds what that region's
   * job returned for it (or silence), whatever earlier overlapping regions wrote.
   */
  lemma LastRegionWins<T>(buf: seq<T>, regions: seq<Region>, remove: seq<T> -> seq<T>, zero: T, k: int)
    requires AllWithin(regions, |buf|)
    requires regions != []
    requires regions[|regions| - 1].start <= k < regions[|regions| - 1].end
    ensures AllWithin(regions[..|regions| - 1], |buf|) && RegionWithin(regions[|regions| - 1], |buf|)
    ensures var last := regions[|regions| - 1];
            var before := Reassembled(buf, regions[..|regions| - 1], remove, zero);
            var ret := remove(before[last.start..last.end]);
            Reassembled(buf, regions, remove, zero)[k]
              == if k - last.start < |ret| then ret[k - last.start] else zero
  {
    var n := |regions| - 1;
    assert regions[n] in regions;
    RegionSeesEarlierWrites(buf, regions, n, remove, zero);
    assert regions[n + 1..] == [];
  }

  // ----- The loop itself, over the processed array -----

  /** `a[at:at + len(s)] = s`: numpy slice assignment. */
  method AssignSlice<T>(a: array<T>, at: nat, s: seq<T>)
    requires at + |s| <= a.Length
    modifies a
    ensures forall k :: 0 <= k < a.Length ==>
              a[k] == if at <= k < at + |s| then s[k - at] else old(a[k])
  {
    for j := 0 to |s|
      invariant forall k :: 0 <= k < a.Length ==>
                  a[k] == if at <= k < at + j then s[k - at] else old(a[k])
    {
      a[at + j] := s[j];
    }
  }

  /** `a[lo:hi] = 0`: every frame of the range becomes silence. */
  method FillSlice<T>(a: array<T>, lo: nat, hi: nat, zero: T)
    requires lo <= hi <= a.Length
    modifies a
    ensures forall k :: 0 <= k < a.Length ==>
              a[k] == if lo <= k < hi then zero else old(a[k])
  {
    for k := lo to hi
      invariant forall i :: 0 <= i < a.Length ==>
                  a[i] == if lo <= i < k then zero else old(a[i])
    {
      a[k] := zero;
    }
  }

  /** The write-back of one region (smart_mute.py:83-90), with the source's branches. */
  method WriteBack<T>(a: array<T>, r: Region, ret: seq<T>, zero: T)
    requires RegionWithin(r, a.Length)
    modifies a
    ensures a[..] == ApplyRegion(old(a[..]), r, ret, zero)
  {
    var targetLen := r.end - r.start;
    if |ret| != targetLen {
      var minLen := Min(|ret|, targetLen);
      AssignSlice(a, r.start, ret[..minLen]);
      if minLen < targetLen {
        FillSlice(a, r.start + minLen, r.end, zero);
      }
    } else {
      AssignSlice(a, r.start, ret);
    }
    assert forall k :: 0 <= k < a.Length ==> a[..][k] == ApplyRegion(old(a[..]), r, ret, zero)[k];
  }

  /**
   * `smart_mute`'s steps 2-3: copy the original once, then for each region in
   * order send the current slice to the removal job and write its return back.
   */
  method Reassemble<T>(original: array<T>, regions: seq<Region>, remove: seq<T> -> seq<T>, zero: T)
    returns (processed: array<T>)
    requires AllWithin(regions, original.Length)
    ensures fresh(processed)
    ensures processed[..] == Reassembled(original[..], regions, remove, zero)
  {
    processed := new T[original.Length](i reads original requires 0 <= i < original.Length => original[i]);
    assert processed[..] == original[..];
    for i := 0 to |regions|
      invariant processed.Length == original.Length
      invariant AllWithin(regions[i..], processed.Length)
      invariant Reassembled(original[..], regions, remove, zero)
                  == Reassembled(processed[..], regions[i..], remove, zero)
    {
      var r := regions[i];
      assert r == regions[i..][0];
      assert regions[i..][1..] == regions[i + 1..];
      assert r in regions[i..];
      assert forall q :: q in regions[i + 1..] ==> q in regions[i..];
      var piece := processed[r.start..r.end];
      var stripped := remove(piece);
      WriteBack(processed, r, stripped, zero);
    }
  }

  // ----- The two end-to-end scenarios: 10 s at 16 kHz, one region [2.0 s, 4.0 s] -----

  /** The region [2.0 s, 4.0 s] at 16 kHz covers frames 32000 up to 64000. */
  lemma ScenarioRegion()
    ensures Regions([Event(2.0, 4.0)], 16000) == [Region(32000, 64000)]
  {
    assert Trunc(2.0 * 16000 as real) == 32000;
    assert Trunc(4.0 * 16000 as real) == 64000;
  }

  /** A removal that returns all 32000 frames replaces the region exactly and nothing else. */
  lemma ScenarioExactReturn<T>(buf: seq<T>, remove: seq<T> -> seq<T>, zero: T)
    requires |buf| == 160000
    requires |remove(buf[32000..64000])| == 32000
    ensures AllWithin(Regions([Event(2.0, 4.0)], 16000), |buf|)
    ensures Reassembled(buf, Regions([Event(2.0, 4.0)], 16000), remove, zero)
              == buf[..32000] + remove(buf[32000..64000]) + buf[64000..]
  {
    ScenarioRegion();
    var r := Region(32000, 64000);
    assert Reassembled(buf, [r], remove, zero) == Step(buf, r, remove, zero);
    ExactReturnIsVerbatim(buf, r, remove(buf[32000..64000]), zero);
  }

  /** A removal that returns only 1.5 s (24000 frames) silences the region's last 8000 frames. */
  lemma ScenarioShortReturn<T>(buf: seq<T>, remove: seq<T> -> seq<T>, zero: T)
    requires |buf| == 160000
    requires |remove(buf[32000..64000])| == 24000
    ensures AllWithin(Regions([Event(2.0, 4.0)], 16000), |buf|)
    ensures var out := Reassembled(buf, Regions([Event(2.0, 4.0)], 16000), remove, zero);
            out[32000..56000] == remove(buf[32000..64000]) &&
            (forall k :: 56000 <= k < 64000 ==> out[k] == zero) &&
            out[..32000] == buf[..32000] && out[64000..] == buf[64000..]
  {
    ScenarioRegion();
    var r := Region(32000, 64000);
    assert Reassembled(buf, [r], remove, zero) == Step(buf, r, remove, zero);
    ShortReturnIsZeroFilled(buf, r, remove(buf[32000..64000]), zero, 8000);
  }
}
