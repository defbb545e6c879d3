/** The tempo estimator of `AudioAnalyzer.estimateTempo`: on beat ticks it
    records the clock reading, keeps only the trailing ten seconds, and from
    six or more beats derives BPM and a regularity score. */
module TempoEstimator {
  import opened Stats

  /** Length of the trailing window, in milliseconds. */
  const WindowMs: real := 10000.0
  /** An estimate needs strictly more than this many beats in the window. */
  const MinBeats: nat := 5
  const MsPerMinute: real := 60000.0

  /** `previousLevels` (the beat timestamps, in ms) and `tempoData`. */
  datatype TempoState = TempoState(timestamps: seq<real>, bpm: int, confidence: real)

  /** The state the constructor sets up. */
  function Init(): TempoState
  {
    TempoState([], 0, 0.0)
  }

  /** Strictly increasing, as successive readings of a monotonic clock are. */
  ghost predicate Chronological(ts: seq<real>)
  {
    forall i, j :: 0 <= i < j < |ts| ==> ts[i] < ts[j]
  }

  /** Every stored timestamp precedes the clock reading `now`. */
  ghost predicate AllBefore(ts: seq<real>, now: real)
  {
    forall i :: 0 <= i < |ts| ==> ts[i] < now
  }

  /** Every stored timestamp is newer than `cutoff`. */
  ghost predicate AllAfter(ts: seq<real>, cutoff: real)
  {
    forall i :: 0 <= i < |ts| ==> cutoff < ts[i]
  }

  /** What every reachable state satisfies: timestamps in order, all within
      ten seconds of the newest, a non-negative BPM and confidence in [0,1]. */
  ghost predicate Valid(s: TempoState)
  {
    && Chronological(s.timestamps)
    && (|s.timestamps| > 0 ==>
          forall i :: 0 <= i < |s.timestamps| ==>
            s.timestamps[|s.timestamps| - 1] - WindowMs < s.timestamps[i])
    && s.bpm >= 0
    && 0.0 <= s.confidence <= 1.0
  }

  /** `filter(time => time > cutoff)`: keeps, in order, the timestamps newer
      than the cutoff. */
  function Prune(ts: seq<real>, cutoff: real): (r: seq<real>)
    ensures forall t :: t in r <==> t in ts && cutoff < t
    ensures |r| <= |ts|
    decreases |ts|
  {
    if |ts| == 0 then []
    else if cutoff < ts[0] then [ts[0]] + Prune(ts[1..], cutoff)
    else Prune(ts[1..], cutoff)
  }

  /** Pruning a sequence that is wholly inside the window keeps all of it. */
  lemma {:induction false} PruneKeepsAll(ts: seq<real>, cutoff: real)
    requires AllAfter(ts, cutoff)
    ensures Prune(ts, cutoff) == ts
    decreases |ts|
  {
    if |ts| > 0 {
      PruneKeepsAll(ts[1..], cutoff);
    }
  }

  /** On chronological timestamps pruning drops exactly the oldest entries:
      the result is a suffix of the input, so it stays in order. */
  lemma {:induction false} PruneIsSuffix(ts: seq<real>, cutoff: real)
    requires Chronological(ts)
    ensures Prune(ts, cutoff) == ts[|ts| - |Prune(ts, cutoff)|..]
    ensures Chronological(Prune(ts, cutoff))
    decreases |ts|
  {
    if |ts| > 0 {
      if cutoff < ts[0] {
        PruneKeepsAll(ts, cutoff);
      } else {
        PruneIsSuffix(ts[1..], cutoff);
        assert ts[1..][|ts| - 1 - |Prune(ts[1..], cutoff)|..]
            == ts[|ts| - |Prune(ts, cutoff)|..];
      }
    }
  }

  /** Pruning one more timestamp keeps or drops just that timestamp. */
  lemma {:induction false} PruneAppend(ts: seq<real>, t: real, cutoff: real)
    ensures Prune(ts + [t], cutoff) == Prune(ts, cutoff) + (if cutoff < t then [t] else [])
    decreases |ts|
  {
    if |ts| == 0 {
      assert [t][1..] == [];
    } else {
      assert (ts + [t])[1..] == ts[1..] + [t];
      PruneAppend(ts[1..], t, cutoff);
    }
  }

  /** The gaps between consecutive timestamps. */
  function Intervals(ts: seq<real>): (iv: seq<real>)
    ensures |iv| == if |ts| == 0 then 0 else |ts| - 1
  {
    if |ts| <= 1 then [] else seq(|ts| - 1, i requires 0 <= i < |ts| - 1 => ts[i + 1] - ts[i])
  }

  /** The gaps telescope: together they span first to last timestamp. */
  lemma {:induction false} IntervalsTelescope(ts: seq<real>)
    requires |ts| >= 1
    ensures Sum(Intervals(ts)) == ts[|ts| - 1] - ts[0]
    decreases |ts|
  {
    var n := |ts|;
    if n > 1 {
      var front := ts[..n - 1];
      IntervalsTelescope(front);
      assert Intervals(ts)[..n - 2] == Intervals(front);
    }
  }

  /** The mean gap `averageInterval`. */
  function MeanInterval(ts: seq<real>): real
    requires |ts| >= 2
  {
    Mean(Intervals(ts))
  }

  /** The mean gap is the span divided by the number of gaps. */
  lemma MeanIntervalClosedForm(ts: seq<real>)
    requires |ts| >= 2
    ensures MeanInterval(ts) == (ts[|ts| - 1] - ts[0]) / (|ts| - 1) as real
  {
    IntervalsTelescope(ts);
  }

  /** Timestamps of a monotonic clock have a positive mean gap. */
  lemma MeanIntervalPositive(ts: seq<real>)
    requires |ts| >= 2
    requires Chronological(ts)
    ensures MeanInterval(ts) > 0.0
  {
    MeanIntervalClosedForm(ts);
    assert ts[0] < ts[|ts| - 1];
  }

  /** How far each gap strays from the mean gap. */
  function Deviations(iv: seq<real>, mean: real): (d: seq<real>)
    ensures |d| == |iv|
    ensures AllNonNegative(d)
  {
    seq(|iv|, i requires 0 <= i < |iv| => Abs(iv[i] - mean))
  }

  /** The mean absolute deviation of the gaps, `deviation`. */
  function MeanDeviation(ts: seq<real>): (dev: real)
    requires |ts| >= 2
    ensures dev >= 0.0
  {
    var d := Deviations(Intervals(ts), MeanInterval(ts));
    SumZeroOnlyIfAllZero(d);
    Mean(d)
  }

  /** `Math.round(60000 / averageInterval)`. */
  function Bpm(ts: seq<real>): (bpm: int)
    requires |ts| >= 2
    requires MeanInterval(ts) > 0.0
    ensures bpm >= 0
  {
    Round(MsPerMinute / MeanInterval(ts))
  }

  /** `Math.max(0, 1 - deviation / averageInterval)`: 1 for perfectly even
      beats, falling towards 0 as the gaps scatter. */
  function Confidence(ts: seq<real>): (c: real)
    requires |ts| >= 2
    requires MeanInterval(ts) > 0.0
    ensures 0.0 <= c <= 1.0
  {
    Max(0.0, 1.0 - MeanDeviation(ts) / MeanInterval(ts))
  }

  /** Confidence is exactly 1 if and only if every gap equals the mean gap;
      any irregularity pulls it strictly below 1. */
  lemma ConfidenceOneIffRegular(ts: seq<real>)
    requires |ts| >= 2
    requires MeanInterval(ts) > 0.0
    ensures Confidence(ts) == 1.0 <==>
              forall i :: 0 <= i < |ts| - 1 ==> Intervals(ts)[i] == MeanInterval(ts)
  {
    var iv := Intervals(ts);
    var m := MeanInterval(ts);
    var d := Deviations(iv, m);
    SumZeroOnlyIfAllZero(d);
    var dev := MeanDeviation(ts);
    assert dev == Sum(d) / |d| as real;
    if Confidence(ts) == 1.0 {
      assert dev / m <= 0.0;
      assert dev == 0.0;
      assert Sum(d) == 0.0;
      forall i | 0 <= i < |ts| - 1 ensures iv[i] == m {
        assert d[i] == 0.0;
      }
    }
    if forall i :: 0 <= i < |ts| - 1 ==> iv[i] == m {
      assert forall i :: 0 <= i < |d| ==> d[i] == 0.0;
      assert Sum(d) == 0.0;
    }
  }

  /** Beats spaced exactly `gap` apart give mean gap `gap`, confidence 1 and
      `round(60000 / gap)` BPM. */
  lemma EvenBeats(ts: seq<real>, gap: real)
    requires |ts| >= 2
    requires gap > 0.0
    requires forall i :: 0 <= i < |ts| - 1 ==> ts[i + 1] - ts[i] == gap
    ensures MeanInterval(ts) == gap
    ensures Bpm(ts) == Round(MsPerMinute / gap)
    ensures Confidence(ts) == 1.0
  {
    MeanConstant(Intervals(ts), gap);
    ConfidenceOneIffRegular(ts);
  }

  /** The window after a beat at `now`: in order, ending with `now`, and
      holding only readings of the last ten seconds. */
  lemma WindowAfterBeat(ts: seq<real>, now: real)
    requires Chronological(ts)
    requires AllBefore(ts, now)
    ensures Chronological(Prune(ts + [now], now - WindowMs))
    ensures |Prune(ts + [now], now - WindowMs)| > 0
    ensures Prune(ts + [now], now - WindowMs)[|Prune(ts + [now], now - WindowMs)| - 1] == now
    ensures AllAfter(Prune(ts + [now], now - WindowMs), now - WindowMs)
  {
    var all := ts + [now];
    assert Chronological(all);
    PruneIsSuffix(all, now - WindowMs);
    var window := Prune(all, now - WindowMs);
    assert now in window;
    assert window == all[|all| - |window|..];
    forall i | 0 <= i < |window| ensures now - WindowMs < window[i] {
      assert window[i] in window;
    }
  }

  /** The estimate taken from a pruned window: fresh from six or more
      beats, otherwise the previous one. */
  function Estimate(window: seq<real>, previous: TempoState): (r: TempoState)
    requires Chronological(window)
    ensures r.timestamps == window
    ensures |window| <= MinBeats ==> r.bpm == previous.bpm && r.confidence == previous.confidence
    ensures |window| > MinBeats ==>
              && MeanInterval(window) > 0.0
              && r.bpm == Bpm(window)
              && r.confidence == Confidence(window)
  {
    if |window| > MinBeats then
      MeanIntervalPositive(window);
      TempoState(window, Bpm(window), Confidence(window))
    else
      TempoState(window, previous.bpm, previous.confidence)
  }

  /** One call of `estimateTempo`, with the clock reading `now` passed in. */
  function Step(s: TempoState, isBeat: bool, now: real): (r: TempoState)
    requires Chronological(s.timestamps)
    requires isBeat ==> AllBefore(s.timestamps, now)
    // nothing happens on a tick without a beat
    ensures !isBeat ==> r == s
    // on a beat the clock reading joins the window and stale entries leave it
    ensures isBeat ==> r.timestamps == Prune(s.timestamps + [now], now - WindowMs)
    ensures isBeat ==> |r.timestamps| > 0 && r.timestamps[|r.timestamps| - 1] == now
    ensures isBeat ==> AllAfter(r.timestamps, now - WindowMs)
    ensures Chronological(r.timestamps)
    // too few beats in the window: the old estimate is kept
    ensures |r.timestamps| <= MinBeats ==> r.bpm == s.bpm && r.confidence == s.confidence
    // enough beats: a fresh estimate from the window
    ensures isBeat && |r.timestamps| > MinBeats ==>
              && MeanInterval(r.timestamps) > 0.0
              && r.bpm == Bpm(r.timestamps)
              && r.confidence == Confidence(r.timestamps)
  {
    if !isBeat then s
    else
      WindowAfterBeat(s.timestamps, now);
      Estimate(Prune(s.timestamps + [now], now - WindowMs), s)
  }

  /** The constructor's state is valid. */
  lemma InitValid()
    ensures Valid(Init())
  {
  }

  /** Every tick keeps the state valid, given a clock that moves forward. */
  lemma StepPreservesValid(s: TempoState, isBeat: bool, now: real)
    requires Valid(s)
    requires isBeat ==> AllBefore(s.timestamps, now)
    ensures Valid(Step(s, isBeat, now))
  {
  }

  /** Five beats 500 ms apart are too few: the estimate is left as it was. */
  lemma FifthEvenBeatKeepsEstimate(s: TempoState)
    requires s.timestamps == [0.0, 500.0, 1000.0, 1500.0]
    ensures Step(s, true, 2000.0).bpm == s.bpm
    ensures Step(s, true, 2000.0).confidence == s.confidence
  {
    PruneKeepsAll(s.timestamps + [2000.0], 2000.0 - WindowMs);
  }

  /** The sixth beat 500 ms apart yields 120 BPM with confidence 1. */
  lemma SixthEvenBeatGives120(s: TempoState)
    requires s.timestamps == [0.0, 500.0, 1000.0, 1500.0, 2000.0]
    ensures Step(s, true, 2500.0).bpm == 120
    ensures Step(s, true, 2500.0).confidence == 1.0
  {
    var all := s.timestamps + [2500.0];
    PruneKeepsAll(all, 2500.0 - WindowMs);
    EvenBeats(all, 500.0);
    assert MsPerMinute / 500.0 == 120.0;
  }

  /** `timestamps.filter(time => time > cutoff)` as a loop. */
  method Filter(ts: seq<real>, cutoff: real) returns (kept: seq<real>)
    ensures kept == Prune(ts, cutoff)
  {
    kept := [];
    var i := 0;
    while i < |ts|
      invariant 0 <= i <= |ts|
      invariant kept == Prune(ts[..i], cutoff)
    {
      assert ts[..i + 1] == ts[..i] + [ts[i]];
      PruneAppend(ts[..i], ts[i], cutoff);
      if cutoff < ts[i] {
        kept := kept + [ts[i]];
      }
      i := i + 1;
    }
    assert ts[..|ts|] == ts;
  }

  /** The loop that collects the gaps between consecutive timestamps. */
  method CollectIntervals(ts: seq<real>) returns (intervals: seq<real>)
    requires |ts| >= 1
    ensures intervals == Intervals(ts)
  {
    intervals := [];
    var k := 1;
    while k < |ts|
      invariant 1 <= k <= |ts|
      invariant |intervals| == k - 1
      invariant forall j :: 0 <= j < k - 1 ==> intervals[j] == ts[j + 1] - ts[j]
    {
      intervals := intervals + [ts[k] - ts[k - 1]];
      k := k + 1;
    }
  }

  /** The body of `estimateTempo` as written: filter, collect the gaps, and
      reduce them to a mean and a mean absolute deviation. */
  method EstimateTempo(s: TempoState, isBeat: bool, now: real) returns (r: TempoState)
    requires Chronological(s.timestamps)
    requires isBeat ==> AllBefore(s.timestamps, now)
    ensures r == Step(s, isBeat, now)
  {
    if !isBeat {
      return s;
    }
    var tenSecondsAgo := now - WindowMs;
    var kept := Filter(s.timestamps + [now], tenSecondsAgo);
    WindowAfterBeat(s.timestamps, now);
    if |kept| <= MinBeats {
      return TempoState(kept, s.bpm, s.confidence);
    }
    var intervals := CollectIntervals(kept);
    var intervalSum := Reduce(intervals);
    var averageInterval := intervalSum / |intervals| as real;
    assert averageInterval == MeanInterval(kept);
    MeanIntervalPositive(kept);
    var bpm := Round(MsPerMinute / averageInterval);

    var deviations := Deviations(intervals, averageInterval);
    var deviationSum := Reduce(deviations);
    var deviation := deviationSum / |intervals| as real;
    assert deviation == MeanDeviation(kept);
    var confidence := Max(0.0, 1.0 - deviation / averageInterval);
    r := TempoState(kept, bpm, confidence);
  }
}
