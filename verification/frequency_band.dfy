/** Band energy, `AudioAnalyzer.getFrequencyBand`: the mean magnitude of the
    bins covering a fixed Hz range, scaled to [0,1]. */
module FrequencyBand {
  import opened Stats

  /** The four cases of the band switch; `Full` is its default branch. */
  datatype Band = Low | Mid | High | Full

  /** The band names the switch recognises; any other name selects `Full`. */
  function BandOf(name: string): (b: Band)
    ensures b == Low <==> name == "low"
    ensures b == Mid <==> name == "mid"
    ensures b == High <==> name == "high"
  {
    if name == "low" then Low
    else if name == "mid" then Mid
    else if name == "high" then High
    else Full
  }

  /** Lower edge, in Hz, of a named band. */
  function LowHz(b: Band): nat
    requires b != Full
  {
    match b
    case Low => 20
    case Mid => 250
    case High => 4000
  }

  /** Upper edge, in Hz, of a named band. */
  function HighHz(b: Band): nat
    requires b != Full
  {
    match b
    case Low => 250
    case Mid => 4000
    case High => 20000
  }

  /** Width of one bin in Hz: half the sample rate spread over the bins. */
  function BinSize(sampleRate: nat, binCount: nat): real
    requires sampleRate > 0 && binCount > 0
  {
    sampleRate as real / (binCount * 2) as real
  }

  /** `Math.floor(hz / binSize)`: the bin holding frequency `hz`. */
  function BinOf(hz: nat, sampleRate: nat, binCount: nat): int
    requires sampleRate > 0 && binCount > 0
  {
    (hz as real / BinSize(sampleRate, binCount)).Floor
  }

  /** The floor of the real quotient is exactly the integer quotient of
      `2 * binCount * hz` by the sample rate, so bin indices are never off
      by one from rounding. */
  lemma BinOfExact(hz: nat, sampleRate: nat, binCount: nat)
    requires sampleRate > 0 && binCount > 0
    ensures BinOf(hz, sampleRate, binCount) == (2 * binCount * hz) / sampleRate
    ensures BinOf(hz, sampleRate, binCount) >= 0
  {
    var num := 2 * binCount * hz;
    var q := num / sampleRate;
    var rem := num % sampleRate;
    assert num == q * sampleRate + rem && 0 <= rem < sampleRate;
    var sr := sampleRate as real;
    var x := hz as real / BinSize(sampleRate, binCount);
    assert x == num as real / sr;
    assert num as real == q as real * sr + rem as real;
    assert x == q as real + rem as real / sr;
    assert 0.0 <= rem as real / sr < 1.0;
  }

  /** The clamped inclusive bin range `[startBin, endBin]` of a band over an
      array of `length` bins. */
  function BinRange(sampleRate: nat, binCount: nat, length: nat, b: Band): (r: (int, int))
    requires sampleRate > 0 && binCount > 0
    ensures 0 <= r.0 && r.1 <= length - 1
    ensures b == Full ==> r == (0, length - 1)
    ensures b != Full ==>
              && r.0 == MaxInt(0, (2 * binCount * LowHz(b)) / sampleRate)
              && r.1 == MinInt(length - 1, (2 * binCount * HighHz(b)) / sampleRate)
  {
    var startBin := if b == Full then 0 else BinOf(LowHz(b), sampleRate, binCount);
    var endBin := if b == Full then length - 1 else BinOf(HighHz(b), sampleRate, binCount);
    assert b != Full ==> startBin == (2 * binCount * LowHz(b)) / sampleRate by {
      if b != Full { BinOfExact(LowHz(b), sampleRate, binCount); }
    }
    assert b != Full ==> endBin == (2 * binCount * HighHz(b)) / sampleRate by {
      if b != Full { BinOfExact(HighHz(b), sampleRate, binCount); }
    }
    (MaxInt(0, startBin), MinInt(length - 1, endBin))
  }

  /** The value `getFrequencyBand` returns: the mean magnitude over the
      inclusive bin range, divided by 255. */
  function BandEnergy(sampleRate: nat, binCount: nat, mags: seq<Byte>, b: Band): (e: real)
    requires sampleRate > 0 && binCount > 0
    requires BinRange(sampleRate, binCount, |mags|, b).0 <= BinRange(sampleRate, binCount, |mags|, b).1
    ensures 0.0 <= e <= 1.0
  {
    var (startBin, endBin) := BinRange(sampleRate, binCount, |mags|, b);
    var xs := ToReals(mags[startBin..endBin + 1]);
    MeanBounds(xs, 0.0, 255.0);
    Mean(xs) / 255.0
  }

  /** The full band averages every bin of the array. */
  lemma FullBandIsOverallMean(sampleRate: nat, binCount: nat, mags: seq<Byte>)
    requires sampleRate > 0 && binCount > 0
    requires |mags| > 0
    ensures BandEnergy(sampleRate, binCount, mags, Full) == Mean(ToReals(mags)) / 255.0
  {
    assert mags[0..|mags|] == mags;
  }

  /** At 44100 Hz with 1024 bins (a bin is about 21.5 Hz wide) the bass band
      spans bins 0 to 11, the mid band 11 to 185 and the treble band 185 to
      928. */
  lemma BinRangesAt44100()
    ensures BinRange(44100, 1024, 1024, Low) == (0, 11)
    ensures BinRange(44100, 1024, 1024, Mid) == (11, 185)
    ensures BinRange(44100, 1024, 1024, High) == (185, 928)
  {
  }

  /** At 8000 Hz with 1024 bins the treble band starts past the last bin, so
      the clamped range is empty and `getFrequencyBand` would divide by zero;
      `BandEnergy` excludes this case by its precondition. */
  lemma HighBandEmptyAt8000()
    ensures BinRange(8000, 1024, 1024, High) == (1024, 1023)
  {
  }

  /** The loop of `getFrequencyBand` over the named band. */
  method GetFrequencyBand(sampleRate: nat, binCount: nat, mags: seq<Byte>, name: string)
    returns (e: real)
    requires sampleRate > 0 && binCount > 0
    requires BinRange(sampleRate, binCount, |mags|, BandOf(name)).0
             <= BinRange(sampleRate, binCount, |mags|, BandOf(name)).1
    ensures e == BandEnergy(sampleRate, binCount, mags, BandOf(name))
    ensures 0.0 <= e <= 1.0
  {
    var (startBin, endBin) := BinRange(sampleRate, binCount, |mags|, BandOf(name));
    ghost var xs := ToReals(mags[startBin..endBin + 1]);
    var sum := 0.0;
    var i := startBin;
    while i <= endBin
      invariant startBin <= i <= endBin + 1
      invariant sum == Sum(xs[..i - startBin])
    {
      assert xs[..i + 1 - startBin][..i - startBin] == xs[..i - startBin];
      assert xs[i - startBin] == mags[i] as real;
      sum := sum + mags[i] as real;
      i := i + 1;
    }
    assert xs[..endBin + 1 - startBin] == xs;
    e := sum / (endBin - startBin + 1) as real / 255.0;
  }
}
