# AutoMusic audio analysis engine in Dafny

This project models the analysis engine of AutoMusic's `AudioAnalyzer` class
(`audioAnalyzer.js`). Once per rendered frame the engine:

- reads the analyser's byte magnitude array;
- runs the **beat detector** (`detectBeats`). This is an adaptive loudness
  threshold. It ratchets up on each beat, holds for a number of ticks, then
  decays, never dropping below half the recent level average.
- runs the **tempo estimator** (`estimateTempo`). On beat ticks it records the
  clock reading and keeps a trailing 10-second window. From six or more beats
  it derives BPM and a regularity score.
- returns both states with the magnitudes.

The visualisers also call **band energy** (`getFrequencyBand`) directly. It
gives the mean magnitude of a fixed Hz range, scaled to [0,1].

All arithmetic is over `real`. Magnitudes are `Byte` values (0..255). Each
operation is a pure function of an immutable state record. A method next to
each function follows the source's loops and is proved equal to it.

Modules:

- `Stats`: sums, means, `Math.round`, and the `reduce` loop.
- `BeatDetector`: `detectBeats` and its state.
- `TempoEstimator`: `estimateTempo` and its state.
- `FrequencyBand`: `getFrequencyBand`.
- `Analyzer`: `analyzeAudio` and the constructor's initial state.

In some places the code does not do what one would expect. The model follows the code:

- **Hold length.** The code holds the cutoff for 61 non-beat ticks after a
  beat, not 60. `beatTime` is reset to 0, and it is incremented while it is
  `<= 60`.
- **Window boundary.** The code keeps timestamps strictly newer than
  `now - 10000`. A beat exactly 10 000 ms old is dropped.
- **Zero mean interval.** The code does not guard it. The model needs clock
  readings that strictly increase, which makes the mean interval positive.
- **Empty band range.** The code does not treat it as a single bin. It divides
  by `endBin - startBin + 1 <= 0`. The model makes a non-empty range a
  precondition.
- **Error kinds.** There are no configuration or input-shape error kinds. The
  code has none.

## Model

| member | source | states |
|---|---|---|
| `Stats.Round` | audioAnalyzer.js:169 | `Math.round` yields the integer within half a unit of its argument, with halves rounded up |
| `Stats.Reduce` | audioAnalyzer.js:166 | the `reduce` accumulation loop yields exactly the sum of the sequence |
| `BeatDetector.InitValid` | audioAnalyzer.js:11-25 | the constructor's beat state is valid: the history is 60 zeros, and the cutoff and hold count are 0 |
| `BeatDetector.Level` | audioAnalyzer.js:113-117 | the tick average of byte magnitudes lies in [0,255] |
| `BeatDetector.Push` | audioAnalyzer.js:120-121 | shift-then-push keeps the history at 60 slots: each slot takes its successor's value and the last slot holds the new level |
| `BeatDetector.Step` | audioAnalyzer.js:111-144 | a beat is declared exactly when the level beats the cutoff and 1.5× the history mean; a beat sets the cutoff to 1.1× the level (strictly above a positive level) and resets the count; a hold tick freezes the cutoff and counts up; a decay tick keeps the count and leaves the cutoff at 0.98× the old value or at half the level average, whichever is larger |
| `BeatDetector.StepPreservesValid` | audioAnalyzer.js:119-142 | every tick keeps the history at 60 levels in [0,255], the cutoff in [0, 1.1·255] and the hold count at most 61; the level average lies in [0,255] |
| `BeatDetector.SilenceIsNoBeat` | audioAnalyzer.js:113-131 | an all-zero tick has level 0 and is never a beat |
| `BeatDetector.RunHistory` | audioAnalyzer.js:119-121 | after any number of ticks the history is the trailing 60 entries of the old history followed by the new levels: each tick evicts exactly the oldest |
| `BeatDetector.HistoryIsLastSixtyLevels` | audioAnalyzer.js:119-121 | after 60 or more ticks the history is exactly the last 60 tick levels |
| `BeatDetector.HoldFreezesCutoff` | audioAnalyzer.js:134-138 | during a run of non-beat ticks that fits in the hold, the cutoff does not move and the count rises by one per tick, whatever the loudness |
| `BeatDetector.DecayRespectsFloor` | audioAnalyzer.js:139-142 | past the hold, a run of non-beat ticks leaves the count fixed and the cutoff at least half the level average |
| `BeatDetector.DetectBeats` | audioAnalyzer.js:111-144 | the two summing loops and the beat rule compute the same state as `Step` |
| `TempoEstimator.Prune` | audioAnalyzer.js:155-156 | a timestamp survives pruning if and only if it was present and is newer than the cutoff; pruning never grows the sequence |
| `TempoEstimator.PruneIsSuffix` | audioAnalyzer.js:152-156 | on increasing timestamps, pruning drops exactly a prefix (the oldest beats), so the window stays in increasing order |
| `TempoEstimator.WindowAfterBeat` | audioAnalyzer.js:151-156 | after a beat the window is in order, ends with the new reading, and holds only readings newer than `now - 10000` |
| `TempoEstimator.IntervalsTelescope` | audioAnalyzer.js:160-163 | the consecutive gaps sum to last minus first timestamp |
| `TempoEstimator.MeanIntervalClosedForm` | audioAnalyzer.js:165-166 | the mean gap equals (last − first)/(k − 1) |
| `TempoEstimator.MeanIntervalPositive` | audioAnalyzer.js:166-169 | strictly increasing timestamps give a positive mean gap, so the BPM division is defined |
| `TempoEstimator.MeanDeviation` | audioAnalyzer.js:172 | the mean absolute deviation of the gaps is non-negative |
| `TempoEstimator.Bpm` | audioAnalyzer.js:169 | a positive mean gap gives a non-negative BPM |
| `TempoEstimator.Confidence` | audioAnalyzer.js:173 | with a positive mean gap the confidence lies in [0,1] |
| `TempoEstimator.ConfidenceOneIffRegular` | audioAnalyzer.js:171-173 | confidence is exactly 1 if and only if every gap equals the mean gap; irregular gaps give less than 1 |
| `TempoEstimator.EvenBeats` | audioAnalyzer.js:158-173 | beats exactly `gap` apart give mean gap `gap`, BPM `round(60000/gap)` and confidence 1 |
| `TempoEstimator.Estimate` | audioAnalyzer.js:158-174 | with more than 5 beats in the window the estimate is computed from the window, with a positive mean gap; with 5 or fewer the previous BPM and confidence are kept |
| `TempoEstimator.Step` | audioAnalyzer.js:146-176 | a tick without a beat changes nothing; a beat appends the reading and prunes to the trailing 10 s, keeping the newest; the window stays in order; the estimate changes only when more than 5 beats remain |
| `TempoEstimator.StepPreservesValid` | audioAnalyzer.js:146-176 | given a forward-moving clock, every tick keeps the timestamps increasing and within 10 s of the newest, the BPM non-negative and the confidence in [0,1] |
| `TempoEstimator.FifthEvenBeatKeepsEstimate` | audioAnalyzer.js:158 | a fifth beat 500 ms after four others leaves BPM and confidence as they were |
| `TempoEstimator.SixthEvenBeatGives120` | audioAnalyzer.js:158-173 | a sixth beat 500 ms apart yields 120 BPM with confidence 1 |
| `TempoEstimator.PruneAppend` | audioAnalyzer.js:156 | filtering one more timestamp keeps or drops just that timestamp |
| `TempoEstimator.Filter` | audioAnalyzer.js:156 | the filter loop computes `Prune` |
| `TempoEstimator.CollectIntervals` | audioAnalyzer.js:160-163 | the interval loop collects every consecutive gap |
| `TempoEstimator.EstimateTempo` | audioAnalyzer.js:146-176 | the filter, the interval loop and the two reductions compute the same state as `Step` |
| `FrequencyBand.BandOf` | audioAnalyzer.js:188-204 | "low", "mid" and "high" select their bands; every other name falls to the default full band |
| `FrequencyBand.BinOfExact` | audioAnalyzer.js:184-199 | `floor(hz / (sampleRate / (2·binCount)))` equals the integer quotient `(2·binCount·hz) / sampleRate` and is non-negative |
| `FrequencyBand.BinRange` | audioAnalyzer.js:184-207 | the band's bins are `floor(lowHz/binSize)` to `floor(highHz/binSize)`, clamped to [0, length−1]; the full band is exactly 0 to length−1 |
| `FrequencyBand.BandEnergy` | audioAnalyzer.js:209-214 | the mean magnitude over a non-empty inclusive bin range, divided by 255, lies in [0,1] |
| `FrequencyBand.FullBandIsOverallMean` | audioAnalyzer.js:201-214 | the full band's energy is the mean of every magnitude over 255 |
| `FrequencyBand.BinRangesAt44100` | audioAnalyzer.js:184-207 | at 44100 Hz with 1024 bins: low is bins 0–11, mid is 11–185, high is 185–928 |
| `FrequencyBand.HighBandEmptyAt8000` | audioAnalyzer.js:197-207 | at 8000 Hz with 1024 bins the high band clamps to the empty range (1024, 1023) |
| `FrequencyBand.GetFrequencyBand` | audioAnalyzer.js:178-215 | the summing loop over the named band returns `BandEnergy`, a value in [0,1] |
| `Analyzer.Analyze` | audioAnalyzer.js:90-109 | the magnitudes are returned untouched; beat detection runs first and its verdict drives tempo estimation; a tick without a beat leaves the tempo state alone |
| `Analyzer.InitValid` | audioAnalyzer.js:2-26 | the constructor's analysis state is valid |
| `Analyzer.AnalyzePreservesValid` | audioAnalyzer.js:90-109 | every tick with a forward-moving clock keeps both states valid |
| `Analyzer.SilenceKeepsTempo` | audioAnalyzer.js:97-101 | a silent tick is not a beat and leaves the tempo state unchanged |
| `Analyzer.AnalyzeAudio` | audioAnalyzer.js:90-109 | the loop-level detector and estimator, run in order, agree with `Analyze` |

## Left out

- Audio plumbing is not modelled: `loadAudio`, `play`, `stop`, and the
  `getByteFrequencyData`/`getByteTimeDomainData` calls (audioAnalyzer.js:28-95)
  are browser APIs. The magnitude array is an input sequence instead.
- `timeData` is not modelled. The engine passes it through without reading it.
- The two `performance.now()` reads in `estimateTempo` (lines 152 and 155)
  become one clock parameter `now`.
- The model assumes each beat's clock reading is strictly later than every
  stored timestamp. `performance.now()` only promises non-decreasing readings.
  The source also copes with a repeated reading as long as the window's mean
  gap stays above 0. The model does not cover that case.
- IEEE double rounding, NaN and Infinity are not modelled. Arithmetic is exact
  over `real`.
- `Analyzer.AnalysisResult` holds value snapshots of the two states. The source
  returns live references to `beatDetectionData` and `tempoData`
  (audioAnalyzer.js:106-107), which the next tick mutates. Those objects do not
  contain `levelHistory` or the beat timestamps, but the model's snapshots
  carry both.
- Sample rate and bin count are taken as positive integers (`nat`).
  `AudioContext.sampleRate` is a double. Device rates such as 44100 and 48000
  are integers, and the bin count is always an integer (half the FFT size).
- The unused `threshold` field (line 12) is not modelled. The `decay` field
  (line 13) appears only as the constant 0.98.
- Empty magnitude arrays are excluded. The analyser always delivers
  `frequencyBinCount` bins, and `detectBeats` would divide by zero on an empty
  array.
- `FrequencyBand.BandEnergy`: requires a non-empty clamped bin range, a positive
  sample rate and a positive bin count. With an empty range the source divides
  by zero or a negative number, as in the high band at 8000 Hz
  (`FrequencyBand.HighBandEmptyAt8000`).
- The sustained-silence convergence of the cutoff to half the level average is
  not stated. It is a limit of a geometric decay. The model proves only the
  floor: the cutoff never goes below half the level average after a decay step.
- `visualizers.js` and `main.js` are not modelled. They are rendering, GUI
  wiring, video export and script loading.
