/** The per-tick pipeline of `AudioAnalyzer.analyzeAudio`: the beat detector
    runs on the tick's magnitudes, then the tempo estimator on its verdict,
    and both states are returned together with the magnitudes. */
module Analyzer {
  import opened Stats
  import BeatDetector
  import TempoEstimator

  /** The analysis state an `AudioAnalyzer` keeps between ticks. */
  datatype Engine = Engine(beat: BeatDetector.BeatState, tempo: TempoEstimator.TempoState)

  /** The object `analyzeAudio` returns to the visualiser. */
  datatype AnalysisResult = AnalysisResult(
    frequencyData: seq<Byte>,
    beatDetection: BeatDetector.BeatState,
    tempo: TempoEstimator.TempoState)

  /** The analysis state the constructor sets up. */
  function Init(): Engine
  {
    Engine(BeatDetector.Init(), TempoEstimator.Init())
  }

  ghost predicate Valid(e: Engine)
  {
    BeatDetector.Valid(e.beat) && TempoEstimator.Valid(e.tempo)
  }

  /** One call of `analyzeAudio` on the tick's magnitudes, at clock reading
      `now`, which is later than every beat recorded so far. */
  function Analyze(e: Engine, mags: seq<Byte>, now: real): (out: (Engine, AnalysisResult))
    requires |mags| > 0
    requires |e.beat.levelHistory| == BeatDetector.HistoryLength
    requires TempoEstimator.Chronological(e.tempo.timestamps)
    requires TempoEstimator.AllBefore(e.tempo.timestamps, now)
    // the magnitudes are handed back untouched, with the updated states
    ensures out.1 == AnalysisResult(mags, out.0.beat, out.0.tempo)
    // beat detection sees the magnitudes before tempo estimation runs
    ensures out.0.beat == BeatDetector.Step(e.beat, mags)
    ensures out.0.tempo == TempoEstimator.Step(e.tempo, out.0.beat.isBeat, now)
    // a tick without a beat leaves the tempo state alone
    ensures !out.0.beat.isBeat ==> out.0.tempo == e.tempo
  {
    var beat := BeatDetector.Step(e.beat, mags);
    var tempo := TempoEstimator.Step(e.tempo, beat.isBeat, now);
    (Engine(beat, tempo), AnalysisResult(mags, beat, tempo))
  }

  /** The constructor's state is valid. */
  lemma InitValid()
    ensures Valid(Init())
  {
    BeatDetector.InitValid();
    TempoEstimator.InitValid();
  }

  /** Every tick keeps the analysis state valid. */
  lemma AnalyzePreservesValid(e: Engine, mags: seq<Byte>, now: real)
    requires Valid(e)
    requires |mags| > 0
    requires TempoEstimator.AllBefore(e.tempo.timestamps, now)
    ensures Valid(Analyze(e, mags, now).0)
  {
    BeatDetector.StepPreservesValid(e.beat, mags);
    var beat := BeatDetector.Step(e.beat, mags);
    TempoEstimator.StepPreservesValid(e.tempo, beat.isBeat, now);
  }

  /** A silent tick neither declares a beat nor touches the tempo estimate. */
  lemma SilenceKeepsTempo(e: Engine, mags: seq<Byte>, now: real)
    requires Valid(e)
    requires |mags| > 0
    requires forall i :: 0 <= i < |mags| ==> mags[i] == 0
    requires TempoEstimator.AllBefore(e.tempo.timestamps, now)
    ensures !Analyze(e, mags, now).1.beatDetection.isBeat
    ensures Analyze(e, mags, now).0.tempo == e.tempo
  {
    BeatDetector.SilenceIsNoBeat(e.beat, mags);
  }

  /** The loops of `detectBeats` and `estimateTempo`, run in order. */
  method AnalyzeAudio(e: Engine, mags: seq<Byte>, now: real) returns (e': Engine, result: AnalysisResult)
    requires |mags| > 0
    requires |e.beat.levelHistory| == BeatDetector.HistoryLength
    requires TempoEstimator.Chronological(e.tempo.timestamps)
    requires TempoEstimator.AllBefore(e.tempo.timestamps, now)
    ensures (e', result) == Analyze(e, mags, now)
  {
    var beat := BeatDetector.DetectBeats(e.beat, mags);
    var tempo := TempoEstimator.EstimateTempo(e.tempo, beat.isBeat, now);
    e' := Engine(beat, tempo);
    result := AnalysisResult(mags, beat, tempo);
  }
}
