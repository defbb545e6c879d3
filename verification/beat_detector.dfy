/** The beat detector of `AudioAnalyzer.detectBeats`: an adaptive loudness
    threshold with a ratchet on every beat, a hold period counted in ticks,
    and a multiplicative decay floored at half the recent level. */
module BeatDetector {
  import opened Stats

  /** Slots of the loudness FIFO `levelHistory`. */
  const HistoryLength: nat := 60
  /** Non-beat ticks are counted while `beatTime` is at most this value. */
  const HoldTicks: nat := 60
  /** The `decay` field: the cutoff's per-tick multiplier once the hold is over. */
  const DecayFactor: real := 0.98
  /** A beat sets the cutoff to this multiple of the tick's level. */
  const RatchetFactor: real := 1.1
  /** A beat needs the tick's level to exceed this multiple of the history mean. */
  const BeatRatio: real := 1.5
  /** The decayed cutoff never drops below this multiple of the history mean. */
  const FloorRatio: real := 0.5

  /** The persistent fields of `beatDetectionData` plus `levelHistory`. */
  datatype BeatState = BeatState(
    beatCutOff: real,
    beatTime: nat,
    isBeat: bool,
    levelHistory: seq<real>)

  /** The state the constructor sets up: zero cutoff and a history of zeros. */
  function Init(): BeatState
  {
    BeatState(0.0, 0, false, seq(HistoryLength, _ => 0.0))
  }

  /** What every reachable state satisfies. */
  ghost predicate Valid(s: BeatState)
  {
    && |s.levelHistory| == HistoryLength
    && AllWithin(s.levelHistory, 0.0, 255.0)
    && 0.0 <= s.beatCutOff <= RatchetFactor * 255.0
    && s.beatTime <= HoldTicks + 1
  }

  /** The tick's level: the unweighted mean of all magnitudes. */
  function Level(mags: seq<Byte>): (average: real)
    requires |mags| > 0
    ensures 0.0 <= average <= 255.0
  {
    var xs := ToReals(mags);
    MeanBounds(xs, 0.0, 255.0);
    Mean(xs)
  }

  /** The FIFO after one tick: oldest slot dropped, the tick's level appended. */
  function Push(history: seq<real>, level: real): (h: seq<real>)
    requires |history| == HistoryLength
    ensures |h| == HistoryLength
    ensures h[HistoryLength - 1] == level
    ensures forall i :: 0 <= i < HistoryLength - 1 ==> h[i] == history[i + 1]
  {
    history[1..] + [level]
  }

  /** One call of `detectBeats` on the magnitudes of the current tick. */
  function Step(s: BeatState, mags: seq<Byte>): (r: BeatState)
    requires |mags| > 0
    requires |s.levelHistory| == HistoryLength
    ensures |r.levelHistory| == HistoryLength
    ensures r.levelHistory == s.levelHistory[1..] + [Level(mags)]
    // a beat is declared exactly when the level beats both thresholds
    ensures r.isBeat <==>
              Level(mags) > s.beatCutOff && Level(mags) > BeatRatio * Mean(r.levelHistory)
    // a beat ratchets the cutoff above the level and restarts the hold count
    ensures r.isBeat ==> r.beatCutOff == RatchetFactor * Level(mags) && r.beatTime == 0
    ensures r.isBeat && Level(mags) > 0.0 ==> r.beatCutOff > Level(mags)
    // during the hold the cutoff is frozen and the count advances
    ensures !r.isBeat && s.beatTime <= HoldTicks ==>
              r.beatTime == s.beatTime + 1 && r.beatCutOff == s.beatCutOff
    // after the hold the cutoff decays, never below half the level average
    ensures !r.isBeat && s.beatTime > HoldTicks ==>
              && r.beatTime == s.beatTime
              && r.beatCutOff >= FloorRatio * Mean(r.levelHistory)
              && r.beatCutOff >= DecayFactor * s.beatCutOff
              && (r.beatCutOff == DecayFactor * s.beatCutOff
                  || r.beatCutOff == FloorRatio * Mean(r.levelHistory))
  {
    var average := Level(mags);
    var history := Push(s.levelHistory, average);
    var levelAverage := Mean(history);
    if average > s.beatCutOff && average > levelAverage * BeatRatio then
      BeatState(average * RatchetFactor, 0, true, history)
    else if s.beatTime <= HoldTicks then
      BeatState(s.beatCutOff, s.beatTime + 1, false, history)
    else
      BeatState(Max(s.beatCutOff * DecayFactor, levelAverage * FloorRatio),
                s.beatTime, false, history)
  }

  /** The initial state is valid. */
  lemma InitValid()
    ensures Valid(Init())
    ensures Init().levelHistory == seq(HistoryLength, _ => 0.0)
    ensures Init().beatCutOff == 0.0 && Init().beatTime == 0 && !Init().isBeat
  {
  }

  /** Every tick keeps the state valid: history length 60 with levels in
      [0,255], cutoff in [0, 1.1*255], hold count at most 61; the level
      average the tick compares against also lies in [0,255]. */
  lemma StepPreservesValid(s: BeatState, mags: seq<Byte>)
    requires Valid(s)
    requires |mags| > 0
    ensures Valid(Step(s, mags))
    ensures 0.0 <= Mean(Step(s, mags).levelHistory) <= 255.0
  {
    var r := Step(s, mags);
    var h := r.levelHistory;
    assert AllWithin(h, 0.0, 255.0) by {
      forall i | 0 <= i < |h| ensures 0.0 <= h[i] <= 255.0 {
        if i < HistoryLength - 1 {
          assert h[i] == s.levelHistory[i + 1];
        }
      }
    }
    MeanBounds(h, 0.0, 255.0);
  }

  /** A silent tick (all magnitudes zero) is never a beat. */
  lemma SilenceIsNoBeat(s: BeatState, mags: seq<Byte>)
    requires Valid(s)
    requires |mags| > 0
    requires forall i :: 0 <= i < |mags| ==> mags[i] == 0
    ensures Level(mags) == 0.0
    ensures !Step(s, mags).isBeat
  {
    MeanConstant(ToReals(mags), 0.0);
  }

  ghost predicate AllNonEmpty(frames: seq<seq<Byte>>)
  {
    forall k :: 0 <= k < |frames| ==> |frames[k]| > 0
  }

  /** `detectBeats` called once per frame, in order. */
  function Run(s: BeatState, frames: seq<seq<Byte>>): (r: BeatState)
    requires |s.levelHistory| == HistoryLength
    requires AllNonEmpty(frames)
    ensures |r.levelHistory| == HistoryLength
    decreases |frames|
  {
    if |frames| == 0 then s else Run(Step(s, frames[0]), frames[1..])
  }

  /** The level of each frame. */
  function Levels(frames: seq<seq<Byte>>): (ls: seq<real>)
    requires AllNonEmpty(frames)
    ensures |ls| == |frames|
  {
    seq(|frames|, k requires 0 <= k < |frames| => Level(frames[k]))
  }

  /** The history is a window over the levels seen: after any run of ticks it
      holds the last 60 entries of the old history followed by the new
      levels, so each tick evicts exactly the oldest entry. */
  lemma {:induction false} RunHistory(s: BeatState, frames: seq<seq<Byte>>)
    requires |s.levelHistory| == HistoryLength
    requires AllNonEmpty(frames)
    ensures Run(s, frames).levelHistory == (s.levelHistory + Levels(frames))[|frames|..]
    decreases |frames|
  {
    if |frames| > 0 {
      var s1 := Step(s, frames[0]);
      var rest := frames[1..];
      RunHistory(s1, rest);
      assert Levels(frames) == [Level(frames[0])] + Levels(rest);
      calc {
        (s1.levelHistory + Levels(rest))[|rest|..];
        (s.levelHistory[1..] + [Level(frames[0])] + Levels(rest))[|rest|..];
        { assert s.levelHistory[1..] + [Level(frames[0])] + Levels(rest)
              == (s.levelHistory + Levels(frames))[1..]; }
        (s.levelHistory + Levels(frames))[1..][|rest|..];
      }
    }
  }

  /** After at least 60 ticks the history is exactly the levels of the last
      60 ticks, whatever it held before. */
  lemma HistoryIsLastSixtyLevels(s: BeatState, frames: seq<seq<Byte>>)
    requires |s.levelHistory| == HistoryLength
    requires AllNonEmpty(frames)
    requires |frames| >= HistoryLength
    ensures Run(s, frames).levelHistory == Levels(frames)[|frames| - HistoryLength..]
  {
    RunHistory(s, frames);
    var z := s.levelHistory;
    var ls := Levels(frames);
    var n := |frames|;
    forall k | 0 <= k < HistoryLength
      ensures (z + ls)[n..][k] == ls[n - HistoryLength..][k]
    {
      assert (z + ls)[n + k] == ls[n + k - HistoryLength];
    }
  }

  /** No tick of the run from `s` over `frames` is a beat. */
  ghost predicate NoBeats(s: BeatState, frames: seq<seq<Byte>>)
    requires |s.levelHistory| == HistoryLength
    requires AllNonEmpty(frames)
    decreases |frames|
  {
    |frames| == 0 ||
    (!Step(s, frames[0]).isBeat && NoBeats(Step(s, frames[0]), frames[1..]))
  }

  /** Hold period: while the hold count has room, non-beat ticks leave the
      cutoff exactly where it was and advance the count by one per tick. From
      a beat (`beatTime == 0`) this covers 61 consecutive non-beat ticks,
      whatever their loudness. */
  lemma {:induction false} HoldFreezesCutoff(s: BeatState, frames: seq<seq<Byte>>)
    requires |s.levelHistory| == HistoryLength
    requires AllNonEmpty(frames)
    requires NoBeats(s, frames)
    requires s.beatTime + |frames| <= HoldTicks + 1
    ensures Run(s, frames).beatCutOff == s.beatCutOff
    ensures Run(s, frames).beatTime == s.beatTime + |frames|
    decreases |frames|
  {
    if |frames| > 0 {
      HoldFreezesCutoff(Step(s, frames[0]), frames[1..]);
    }
  }

  /** Once the hold count has passed 60, the count stays put and every
      non-beat tick decays the cutoff, but never below half the level
      average. */
  lemma {:induction false} DecayRespectsFloor(s: BeatState, frames: seq<seq<Byte>>)
    requires |s.levelHistory| == HistoryLength
    requires AllNonEmpty(frames)
    requires |frames| > 0
    requires NoBeats(s, frames)
    requires s.beatTime > HoldTicks
    ensures Run(s, frames).beatTime == s.beatTime
    ensures Run(s, frames).beatCutOff >= FloorRatio * Mean(Run(s, frames).levelHistory)
    decreases |frames|
  {
    if |frames| > 1 {
      DecayRespectsFloor(Step(s, frames[0]), frames[1..]);
    }
  }

  /** The tick loop of `detectBeats`: sum the magnitudes, shift the history,
      sum the history, then apply the beat rule. */
  method DetectBeats(s: BeatState, mags: seq<Byte>) returns (r: BeatState)
    requires |mags| > 0
    requires |s.levelHistory| == HistoryLength
    ensures r == Step(s, mags)
  {
    var xs := ToReals(mags);
    var sum := 0.0;
    var i := 0;
    while i < |mags|
      invariant 0 <= i <= |mags|
      invariant sum == Sum(xs[..i])
    {
      assert xs[..i + 1][..i] == xs[..i];
      sum := sum + mags[i] as real;
      i := i + 1;
    }
    assert xs[..|mags|] == xs;
    var average := sum / |mags| as real;

    var history := s.levelHistory[1..] + [average];
    var levelSum := 0.0;
    var j := 0;
    while j < |history|
      invariant 0 <= j <= |history|
      invariant levelSum == Sum(history[..j])
    {
      assert history[..j + 1][..j] == history[..j];
      levelSum := levelSum + history[j];
      j := j + 1;
    }
    assert history[..|history|] == history;
    var levelAverage := levelSum / |history| as real;

    if average > s.beatCutOff && average > levelAverage * BeatRatio {
      r := BeatState(average * RatchetFactor, 0, true, history);
    } else if s.beatTime <= HoldTicks {
      r := BeatState(s.beatCutOff, s.beatTime + 1, false, history);
    } else {
      var decayed := s.beatCutOff * DecayFactor;
      r := BeatState(Max(decayed, levelAverage * FloorRatio), s.beatTime, false, history);
    }
  }
}
