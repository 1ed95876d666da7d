/** The spectrogram analyser over decoded audio samples: fixed-size framing,
    the share of energy above 15 kHz, three pattern rules (persistent tones,
    edge density, energy spikes), the greyscale visualisation and the final
    verdict. The windowed FFT and the logarithmic shading are parameters. */
module Spectrogram {
  import opened Common

  const WINDOW_SIZE: nat := 2048
  const HOP_SIZE: nat := 512
  const BINS: nat := 1024

  datatype SpectrogramError = AudioProcessing(message: string) | FftError(message: string)

  // =====================================================================
  // Framing

  /** The frame count as `generate_spectrogram` computes it, with `usize`
      arithmetic: `len - 2048` has no value below 2048 (None). */
  function FrameCountAsWritten(len: nat): Option<nat> {
    if len < WINDOW_SIZE then None else Some((len - WINDOW_SIZE) / HOP_SIZE + 1)
  }

  /** Every non-empty clip shorter than one window reaches the underflow. */
  lemma ShortInputUnderflows(len: nat)
    requires 0 < len < WINDOW_SIZE
    ensures FrameCountAsWritten(len).None?
  {
  }

  /** The number of frames `generate_spectrogram` produces: none for a clip
      shorter than a window, and otherwise as many as fit with hop 512. */
  function FrameCount(len: nat): (n: nat)
    ensures n == 0 <==> len < WINDOW_SIZE
    ensures len >= WINDOW_SIZE ==> Some(n) == FrameCountAsWritten(len)
  {
    if len < WINDOW_SIZE then 0 else (len - WINDOW_SIZE) / HOP_SIZE + 1
  }

  /** The size of `usize` on a 64-bit target. */
  const USIZE_MODULUS: nat := 0x1_0000_0000_0000_0000

  /** `a - b` on `usize` in a release build: below zero it wraps around
      modulo 2^64 instead of panicking. */
  function WrappingSub(a: nat, b: nat): (d: nat)
    requires b < USIZE_MODULUS
    ensures a >= b ==> d == a - b
    ensures a < b ==> d + b == a + USIZE_MODULUS
  {
    if a >= b then a - b else USIZE_MODULUS - (b - a)
  }

  /** In a release build the frame count of a short clip wraps to a huge
      bound, never to one below the number of windows that fit, so it is the
      `break` on the first frame that runs past the samples that ends the
      loop. */
  lemma ReleaseFrameBound(len: nat)
    ensures FrameCount(len) <= WrappingSub(len, WINDOW_SIZE) / HOP_SIZE + 1
    ensures len >= WINDOW_SIZE ==> FrameCount(len) == WrappingSub(len, WINDOW_SIZE) / HOP_SIZE + 1
  {
  }

  /** The frames cover the clip as far as whole windows reach: frame k lies
      inside the samples exactly when k is below the frame count. */
  lemma FrameFits(len: nat, k: nat)
    ensures k < FrameCount(len) <==> HOP_SIZE * k + WINDOW_SIZE <= len
  {
    if len >= WINDOW_SIZE {
      var q := (len - WINDOW_SIZE) / HOP_SIZE;
      assert HOP_SIZE * q <= len - WINDOW_SIZE < HOP_SIZE * (q + 1);
      if k <= q {
        assert HOP_SIZE * k <= HOP_SIZE * q;
      } else {
        assert HOP_SIZE * k >= HOP_SIZE * (q + 1);
      }
    }
  }

  /** Frame k: the magnitudes of the first 1024 bins of the windowed FFT of
      samples [512k, 512k+2048); `magnitude(window, j)` stands for the Hann
      window, the FFT and `sqrt(re² + im²)` of bin j. */
  function Row(samples: seq<real>, k: nat, magnitude: (seq<real>, nat) -> real): (row: seq<real>)
    requires HOP_SIZE * k + WINDOW_SIZE <= |samples|
    ensures |row| == BINS
  {
    var window := samples[HOP_SIZE * k .. HOP_SIZE * k + WINDOW_SIZE];
    seq(BINS, j requires 0 <= j < BINS => magnitude(window, j))
  }

  function SpectrogramSpec(samples: seq<real>, magnitude: (seq<real>, nat) -> real): (grid: seq<seq<real>>)
    ensures |grid| == FrameCount(|samples|)
    ensures forall k :: 0 <= k < |grid| ==> |grid[k]| == BINS
  {
    seq(FrameCount(|samples|), k requires 0 <= k < FrameCount(|samples|) =>
      FrameFits(|samples|, k); Row(samples, k, magnitude))
  }

  /** `generate_spectrogram`: one row per frame, stopping at the first
      window that would run past the samples. */
  method GenerateSpectrogram(samples: seq<real>, magnitude: (seq<real>, nat) -> real)
    returns (spectrogram: seq<seq<real>>)
    ensures spectrogram == SpectrogramSpec(samples, magnitude)
  {
    var numFrames := WrappingSub(|samples|, WINDOW_SIZE) / HOP_SIZE + 1;
    ReleaseFrameBound(|samples|);
    spectrogram := [];
    var frameIdx := 0;
    while frameIdx < numFrames
      invariant frameIdx <= numFrames
      invariant frameIdx <= FrameCount(|samples|)
      invariant spectrogram == SpectrogramSpec(samples, magnitude)[..frameIdx]
    {
      var start := frameIdx * HOP_SIZE;
      var end := start + WINDOW_SIZE;
      FrameFits(|samples|, frameIdx);
      if end > |samples| {
        break;
      }
      spectrogram := spectrogram + [Row(samples, frameIdx, magnitude)];
      frameIdx := frameIdx + 1;
    }
    FrameFits(|samples|, frameIdx);
    assert frameIdx == FrameCount(|samples|) by {
      if frameIdx == numFrames && |samples| >= WINDOW_SIZE {
        assert frameIdx == FrameCount(|samples|);
      }
    }
  }

  // =====================================================================
  // High-frequency energy

  /** `(15000 / (44100 / (2 · bins))) as usize`, the first bin above 15 kHz,
      computed exactly. */
  function StartBin(numBins: nat): nat {
    (30000 * numBins) / 44100
  }

  lemma StartBinOfFullFrame()
    ensures StartBin(BINS) == 696
  {
  }

  /** Σ row[i]² over the indices i >= from. */
  function RowEnergy(row: seq<real>, from: nat): (e: real)
    ensures e >= 0.0
  {
    if row == [] then 0.0
    else RowEnergy(row[..|row| - 1], from)
         + (if |row| - 1 >= from then row[|row| - 1] * row[|row| - 1] else 0.0)
  }

  function GridEnergy(grid: seq<seq<real>>, from: nat): (e: real)
    ensures e >= 0.0
  {
    if grid == [] then 0.0 else GridEnergy(grid[..|grid| - 1], from) + RowEnergy(grid[|grid| - 1], from)
  }

  lemma {:induction false} RowEnergyBand(row: seq<real>, from: nat)
    ensures RowEnergy(row, from) <= RowEnergy(row, 0)
    decreases |row|
  {
    if row != [] {
      RowEnergyBand(row[..|row| - 1], from);
    }
  }

  lemma {:induction false} GridEnergyBand(grid: seq<seq<real>>, from: nat)
    ensures GridEnergy(grid, from) <= GridEnergy(grid, 0)
    decreases |grid|
  {
    if grid != [] {
      GridEnergyBand(grid[..|grid| - 1], from);
      RowEnergyBand(grid[|grid| - 1], from);
    }
  }

  /** `analyze_high_frequency_energy`: the share of the total energy held by
      the bins from `StartBin` upwards, and 0 for an empty or silent grid. */
  function HighFrequencyEnergySpec(grid: seq<seq<real>>): real {
    if grid == [] then 0.0
    else
      var total := GridEnergy(grid, 0);
      if total > 0.0 then GridEnergy(grid, StartBin(|grid[0]|)) / total else 0.0
  }

  lemma HighFrequencyEnergyRange(grid: seq<seq<real>>)
    ensures 0.0 <= HighFrequencyEnergySpec(grid) <= 1.0
    ensures grid == [] || GridEnergy(grid, 0) == 0.0 ==> HighFrequencyEnergySpec(grid) == 0.0
  {
    if grid != [] {
      GridEnergyBand(grid, StartBin(|grid[0]|));
      var total := GridEnergy(grid, 0);
      var high := GridEnergy(grid, StartBin(|grid[0]|));
      if total > 0.0 {
        RatioAtMostOne(high, total);
      }
    }
  }

  lemma RatioAtMostOne(a: real, b: real)
    requires 0.0 <= a <= b && b > 0.0
    ensures 0.0 <= a / b <= 1.0
  {
    assert a / b * b == a;
  }

  /** One frame of the energy loop: every cell's square goes into the
      total, and into the high band from `startBin` on. */
  method AddFrameEnergy(frame: seq<real>, startBin: nat, total0: real, high0: real)
    returns (totalEnergy: real, highFreqEnergy: real)
    ensures totalEnergy == total0 + RowEnergy(frame, 0)
    ensures highFreqEnergy == high0 + RowEnergy(frame, startBin)
  {
    totalEnergy, highFreqEnergy := total0, high0;
    var i := 0;
    while i < |frame|
      invariant 0 <= i <= |frame|
      invariant totalEnergy == total0 + RowEnergy(frame[..i], 0)
      invariant highFreqEnergy == high0 + RowEnergy(frame[..i], startBin)
    {
      assert frame[..i + 1][..i] == frame[..i];
      var energy := frame[i] * frame[i];
      totalEnergy := totalEnergy + energy;
      if i >= startBin {
        highFreqEnergy := highFreqEnergy + energy;
      }
      i := i + 1;
    }
    assert frame[..|frame|] == frame;
  }

  method HighFrequencyEnergy(grid: seq<seq<real>>) returns (share: real)
    ensures share == HighFrequencyEnergySpec(grid)
  {
    if grid == [] {
      return 0.0;
    }
    var startBin := StartBin(|grid[0]|);
    var totalEnergy, highFreqEnergy := 0.0, 0.0;
    var k := 0;
    while k < |grid|
      invariant 0 <= k <= |grid|
      invariant totalEnergy == GridEnergy(grid[..k], 0) && highFreqEnergy == GridEnergy(grid[..k], startBin)
    {
      assert grid[..k + 1][..k] == grid[..k];
      totalEnergy, highFreqEnergy := AddFrameEnergy(grid[k], startBin, totalEnergy, highFreqEnergy);
      k := k + 1;
    }
    assert grid[..|grid|] == grid;
    if totalEnergy > 0.0 {
      share := highFreqEnergy / totalEnergy;
    } else {
      share := 0.0;
    }
  }

  // =====================================================================
  // Pattern rules; every row of a spectrogram has the first row's length

  predicate Rectangular(grid: seq<seq<real>>) {
    forall k :: 0 <= k < |grid| ==> |grid[k]| == |grid[0]|
  }

  lemma GeneratedRectangular(samples: seq<real>, magnitude: (seq<real>, nat) -> real)
    ensures Rectangular(SpectrogramSpec(samples, magnitude))
  {
  }

  // --- persistent tones ---------------------------------------------------

  /** The length of the run of frames with magnitude above 0.5 in `bin`
      that ends just before frame k. */
  function RunEnd(grid: seq<seq<real>>, bin: nat, k: nat): (run: nat)
    requires Rectangular(grid) && k <= |grid| && (k > 0 ==> bin < |grid[0]|)
    ensures run <= k
  {
    if k == 0 then 0 else if grid[k - 1][bin] > 0.5 then RunEnd(grid, bin, k - 1) + 1 else 0
  }

  /** The counter of the tone loop exceeds frames / 4 after some frame. */
  predicate ToneAt(grid: seq<seq<real>>, bin: nat)
    requires Rectangular(grid) && grid != [] && bin < |grid[0]|
  {
    exists k :: 1 <= k <= |grid| && RunEnd(grid, bin, k) > |grid| / 4
  }

  predicate HighRun(grid: seq<seq<real>>, bin: nat, a: nat, b: nat)
    requires Rectangular(grid) && b <= |grid| && (grid != [] ==> bin < |grid[0]|)
  {
    forall t :: a <= t < b ==> grid[t][bin] > 0.5
  }

  lemma {:induction false} RunEndIsHigh(grid: seq<seq<real>>, bin: nat, k: nat)
    requires Rectangular(grid) && k <= |grid| && grid != [] && bin < |grid[0]|
    ensures HighRun(grid, bin, k - RunEnd(grid, bin, k), k)
  {
    if k > 0 && grid[k - 1][bin] > 0.5 {
      RunEndIsHigh(grid, bin, k - 1);
    }
  }

  lemma {:induction false} HighRunBoundsRunEnd(grid: seq<seq<real>>, bin: nat, a: nat, b: nat)
    requires Rectangular(grid) && a <= b <= |grid| && grid != [] && bin < |grid[0]|
    requires HighRun(grid, bin, a, b)
    ensures RunEnd(grid, bin, b) >= b - a
    decreases b - a
  {
    if a < b {
      assert grid[b - 1][bin] > 0.5;
      HighRunBoundsRunEnd(grid, bin, a, b - 1);
    }
  }

  /** A tone fires for a bin exactly when some stretch of consecutive frames
      longer than frames / 4 stays above 0.5 in it. */
  lemma ToneIff(grid: seq<seq<real>>, bin: nat)
    requires Rectangular(grid) && grid != [] && bin < |grid[0]|
    ensures ToneAt(grid, bin) <==>
      exists a, b :: 0 <= a < b <= |grid| && b - a > |grid| / 4 && HighRun(grid, bin, a, b)
  {
    if ToneAt(grid, bin) {
      var k :| 1 <= k <= |grid| && RunEnd(grid, bin, k) > |grid| / 4;
      RunEndIsHigh(grid, bin, k);
      var a := k - RunEnd(grid, bin, k);
      assert 0 <= a < k <= |grid| && k - a > |grid| / 4 && HighRun(grid, bin, a, k);
    }
    if exists a, b :: 0 <= a < b <= |grid| && b - a > |grid| / 4 && HighRun(grid, bin, a, b) {
      var a, b :| 0 <= a < b <= |grid| && b - a > |grid| / 4 && HighRun(grid, bin, a, b);
      HighRunBoundsRunEnd(grid, bin, a, b);
      assert RunEnd(grid, bin, b) > |grid| / 4;
    }
  }

  /** The inner loop of the tone rule, leaving at the first frame where the
      run counter exceeds frames / 4. */
  method ScanTone(grid: seq<seq<real>>, bin: nat) returns (found: bool)
    requires Rectangular(grid) && grid != [] && bin < |grid[0]|
    ensures found == ToneAt(grid, bin)
  {
    var numFrames := |grid|;
    var consecutiveHigh := 0;
    var k := 0;
    while k < numFrames
      invariant 0 <= k <= numFrames
      invariant consecutiveHigh == RunEnd(grid, bin, k)
      invariant forall j :: 1 <= j <= k ==> RunEnd(grid, bin, j) <= numFrames / 4
    {
      if grid[k][bin] > 0.5 {
        consecutiveHigh := consecutiveHigh + 1;
      } else {
        consecutiveHigh := 0;
      }
      k := k + 1;
      if consecutiveHigh > numFrames / 4 {
        assert RunEnd(grid, bin, k) > numFrames / 4;
        return true;
      }
    }
    return false;
  }

  function ToneMessage(bin: nat): string {
    "Persistent high-frequency tone at bin " + Decimal(bin) + " (possible hidden data)"
  }

  /** The bins among lo .. hi-1 whose tone fires, in ascending order. */
  function ToneBins(grid: seq<seq<real>>, lo: nat, hi: nat): (bins: seq<nat>)
    requires Rectangular(grid) && grid != [] && lo <= hi <= |grid[0]|
    ensures |bins| <= hi - lo
    decreases hi - lo
  {
    if lo == hi then []
    else ToneBins(grid, lo, hi - 1) + (if ToneAt(grid, hi - 1) then [hi - 1] else [])
  }

  /** Each bin is listed at most once, in ascending order, exactly when
      its tone fires. */
  lemma {:induction false} ToneBinsProperties(grid: seq<seq<real>>, lo: nat, hi: nat)
    requires Rectangular(grid) && grid != [] && lo <= hi <= |grid[0]|
    ensures var bins := ToneBins(grid, lo, hi);
      (forall i, j :: 0 <= i < j < |bins| ==> bins[i] < bins[j])
      && (forall b :: b in bins <==> lo <= b < hi && ToneAt(grid, b))
    decreases hi - lo
  {
    if lo < hi {
      ToneBinsProperties(grid, lo, hi - 1);
      var prev := ToneBins(grid, lo, hi - 1);
      forall i | 0 <= i < |prev|
        ensures prev[i] < hi - 1
      {
        assert prev[i] in prev;
      }
    }
  }

  function ToneMessages(bins: seq<nat>): (messages: seq<string>)
    ensures |messages| == |bins|
  {
    seq(|bins|, i requires 0 <= i < |bins| => ToneMessage(bins[i]))
  }

  // --- edges ----------------------------------------------------------------

  function AbsR(x: real): real { if x < 0.0 then -x else x }

  /** Cell (i, j) differs by more than 0.3 from the previous frame or the
      previous bin. */
  predicate IsEdgeCell(grid: seq<seq<real>>, i: nat, j: nat)
    requires Rectangular(grid) && 1 <= i < |grid| && 1 <= j < |grid[0]|
  {
    AbsR(grid[i][j] - grid[i - 1][j]) > 0.3 || AbsR(grid[i][j] - grid[i][j - 1]) > 0.3
  }

  /** Edge cells of frame i among bins 1 .. jEnd-1. */
  function FrameEdges(grid: seq<seq<real>>, i: nat, jEnd: nat): (n: nat)
    requires Rectangular(grid) && 1 <= i < |grid| && 1 <= jEnd <= |grid[0]|
    ensures n <= jEnd - 1
  {
    if jEnd == 1 then 0 else FrameEdges(grid, i, jEnd - 1) + (if IsEdgeCell(grid, i, jEnd - 1) then 1 else 0)
  }

  /** Edge cells of frames 1 .. iEnd-1. */
  function EdgesBefore(grid: seq<seq<real>>, iEnd: nat): nat
    requires Rectangular(grid) && grid != [] && 1 <= iEnd <= |grid|
  {
    if iEnd == 1 || |grid[0]| == 0 then 0
    else EdgesBefore(grid, iEnd - 1) + FrameEdges(grid, iEnd - 1, |grid[0]|)
  }

  function EdgeCount(grid: seq<seq<real>>): nat
    requires Rectangular(grid)
  {
    if grid == [] then 0 else EdgesBefore(grid, |grid|)
  }

  lemma {:induction false} EdgesBeforeBound(grid: seq<seq<real>>, iEnd: nat)
    requires Rectangular(grid) && grid != [] && 1 <= iEnd <= |grid|
    ensures |grid[0]| >= 1 ==> EdgesBefore(grid, iEnd) <= (iEnd - 1) * (|grid[0]| - 1)
    ensures |grid[0]| == 0 ==> EdgesBefore(grid, iEnd) == 0
  {
    if iEnd > 1 && |grid[0]| > 0 {
      EdgesBeforeBound(grid, iEnd - 1);
      assert (iEnd - 1) * (|grid[0]| - 1) == (iEnd - 2) * (|grid[0]| - 1) + (|grid[0]| - 1);
    }
  }

  /** Only cells with a previous frame and a previous bin are compared, and
      each counts once. */
  lemma EdgeCountBound(grid: seq<seq<real>>)
    requires Rectangular(grid) && grid != [] && |grid[0]| >= 1
    ensures EdgeCount(grid) <= (|grid| - 1) * (|grid[0]| - 1)
  {
    EdgesBeforeBound(grid, |grid|);
  }

  /** `detect_edges`. */
  method DetectEdges(grid: seq<seq<real>>) returns (edgeCount: nat)
    requires Rectangular(grid)
    ensures edgeCount == EdgeCount(grid)
  {
    edgeCount := 0;
    if grid == [] {
      return;
    }
    var i := 1;
    while i < |grid|
      invariant 1 <= i <= |grid|
      invariant edgeCount == EdgesBefore(grid, i)
    {
      var j := 1;
      while j < |grid[0]|
        invariant 1 <= j <= |grid[0]| || |grid[0]| == 0
        invariant |grid[0]| > 0 ==> edgeCount == EdgesBefore(grid, i) + FrameEdges(grid, i, j)
        invariant |grid[0]| == 0 ==> edgeCount == EdgesBefore(grid, i)
      {
        var current := grid[i][j];
        var left := grid[i - 1][j];
        var top := grid[i][j - 1];
        if AbsR(current - left) > 0.3 || AbsR(current - top) > 0.3 {
          edgeCount := edgeCount + 1;
        }
        j := j + 1;
      }
      i := i + 1;
    }
  }

  // --- energy spikes -------------------------------------------------------

  /** `fold(0.0, f32::max)`: the largest magnitude, and at least 0. */
  function FoldMax(row: seq<real>): (m: real)
    ensures m >= 0.0 && forall i :: 0 <= i < |row| ==> row[i] <= m
  {
    if row == [] then 0.0
    else
      var m := FoldMax(row[..|row| - 1]);
      if row[|row| - 1] > m then row[|row| - 1] else m
  }

  function SumR(row: seq<real>): real {
    if row == [] then 0.0 else SumR(row[..|row| - 1]) + row[|row| - 1]
  }

  /** `max > 5 · (sum / len)`; an empty frame's mean is NaN and the test fails. */
  predicate SpikeFrame(row: seq<real>) {
    |row| > 0 && FoldMax(row) > 5.0 * (SumR(row) / |row| as real)
  }

  function SpikeFrames(grid: seq<seq<real>>): (n: nat)
    ensures n <= |grid|
  {
    if grid == [] then 0 else SpikeFrames(grid[..|grid| - 1]) + (if SpikeFrame(grid[|grid| - 1]) then 1 else 0)
  }

  method MaxAndSum(row: seq<real>) returns (maxMagnitude: real, sum: real)
    ensures maxMagnitude == FoldMax(row) && sum == SumR(row)
  {
    maxMagnitude, sum := 0.0, 0.0;
    var i := 0;
    while i < |row|
      invariant 0 <= i <= |row|
      invariant maxMagnitude == FoldMax(row[..i]) && sum == SumR(row[..i])
    {
      assert row[..i + 1][..i] == row[..i];
      if row[i] > maxMagnitude {
        maxMagnitude := row[i];
      }
      sum := sum + row[i];
      i := i + 1;
    }
    assert row[..|row|] == row;
  }

  method CountSpikeFrames(grid: seq<seq<real>>) returns (highEnergyFrames: nat)
    ensures highEnergyFrames == SpikeFrames(grid)
  {
    highEnergyFrames := 0;
    var k := 0;
    while k < |grid|
      invariant 0 <= k <= |grid|
      invariant highEnergyFrames == SpikeFrames(grid[..k])
    {
      assert grid[..k + 1][..k] == grid[..k];
      var frame := grid[k];
      var maxMagnitude, sum := MaxAndSum(frame);
      if |frame| > 0 && maxMagnitude > 5.0 * (sum / |frame| as real) {
        highEnergyFrames := highEnergyFrames + 1;
      }
      k := k + 1;
    }
    assert grid[..|grid|] == grid;
  }

  // --- the pattern list ----------------------------------------------------

  const EDGE_PATTERN: string := "High edge density detected (possible hidden image/text)"
  const SPIKE_PATTERN: string := "Unusual energy spikes detected"

  /** `detect_patterns`: tones for the upper half of the bins in ascending
      order, then the edge entry, then the spike entry. */
  function PatternsSpec(grid: seq<seq<real>>): seq<string>
    requires Rectangular(grid)
  {
    if grid == [] then []
    else
      var numBins := |grid[0]|;
      var numFrames := |grid|;
      ToneMessages(ToneBins(grid, numBins / 2, numBins))
      + (if EdgeCount(grid) > (numFrames * numBins) / 20 then [EDGE_PATTERN] else [])
      + (if SpikeFrames(grid) > numFrames / 10 then [SPIKE_PATTERN] else [])
  }

  lemma PatternsLength(grid: seq<seq<real>>)
    requires Rectangular(grid)
    ensures grid == [] ==> PatternsSpec(grid) == []
    ensures grid != [] ==> |PatternsSpec(grid)| <= |grid[0]| - |grid[0]| / 2 + 2
  {
  }

  method ToneScanAll(grid: seq<seq<real>>) returns (patterns: seq<string>)
    requires Rectangular(grid) && grid != []
    ensures patterns == ToneMessages(ToneBins(grid, |grid[0]| / 2, |grid[0]|))
  {
    var numBins := |grid[0]|;
    patterns := [];
    var bin := numBins / 2;
    while bin < numBins
      invariant numBins / 2 <= bin <= numBins
      invariant patterns == ToneMessages(ToneBins(grid, numBins / 2, bin))
    {
      var found := ScanTone(grid, bin);
      if found {
        assert ToneMessages(ToneBins(grid, numBins / 2, bin + 1))
            == ToneMessages(ToneBins(grid, numBins / 2, bin)) + [ToneMessage(bin)];
        patterns := patterns + [ToneMessage(bin)];
      }
      bin := bin + 1;
    }
  }

  method DetectPatterns(grid: seq<seq<real>>) returns (patterns: seq<string>)
    requires Rectangular(grid)
    ensures patterns == PatternsSpec(grid)
  {
    if grid == [] {
      return [];
    }
    var numBins := |grid[0]|;
    var numFrames := |grid|;
    patterns := ToneScanAll(grid);
    var edgeCount := DetectEdges(grid);
    if edgeCount > (numFrames * numBins) / 20 {
      patterns := patterns + [EDGE_PATTERN];
    }
    var highEnergyFrames := CountSpikeFrames(grid);
    if highEnergyFrames > numFrames / 10 {
      patterns := patterns + [SPIKE_PATTERN];
    }
  }

  // =====================================================================
  // Visualisation

  /** A single-channel greyscale image as its rows, top row first. */
  datatype GrayImage = GrayImage(width: nat, height: nat, rows: seq<seq<byte>>) {
    predicate WellFormed() {
      |rows| == height && forall y :: 0 <= y < height ==> |rows[y]| == width
    }
  }

  /** `value as u8` for an `f32`: truncation, saturating at both ends. */
  function SaturatingByte(x: real): byte {
    if x < 0.0 then 0 else if x >= 255.0 then 255 else x.Floor
  }

  /** `fold(0.0, f32::max)` over every cell. */
  function GridMax(grid: seq<seq<real>>): (m: real)
    ensures m >= 0.0
  {
    if grid == [] then 0.0
    else
      var a := GridMax(grid[..|grid| - 1]);
      var b := FoldMax(grid[|grid| - 1]);
      if b > a then b else a
  }

  /** The shade of one cell: the magnitude normalised by the grid maximum
      and capped at 1, then `log10(1 + 99·v) / 2 · 255` as a byte. */
  function Shade(v: real, maxVal: real, log10: real -> real): byte {
    var normalized := if maxVal > 0.0 then (if v / maxVal < 1.0 then v / maxVal else 1.0) else 0.0;
    SaturatingByte(log10(1.0 + normalized * 99.0) / 2.0 * 255.0)
  }

  /** One image row: the shades of one bin across all frames. */
  function ImageRow(grid: seq<seq<real>>, bin: nat, maxVal: real, log10: real -> real): (row: seq<byte>)
    requires Rectangular(grid) && grid != [] && bin < |grid[0]|
    ensures |row| == |grid|
    ensures forall x :: 0 <= x < |grid| ==> row[x] == Shade(grid[x][bin], maxVal, log10)
  {
    seq(|grid|, x requires 0 <= x < |grid| => Shade(grid[x][bin], maxVal, log10))
  }

  /** `create_spectrogram_image`: one column per frame and one row per bin,
      with the highest bin in the top row, so pixel (x, y) shows bin
      height-1-y of frame x; a 1×1 black image for an empty grid. */
  function SpectrogramImage(grid: seq<seq<real>>, log10: real -> real): (img: GrayImage)
    requires Rectangular(grid)
    ensures img.WellFormed()
    ensures grid == [] ==> img == GrayImage(1, 1, [[0]])
    ensures grid != [] ==> img.width == |grid| && img.height == |grid[0]|
    ensures grid != [] ==> forall x, y :: 0 <= x < |grid| && 0 <= y < |grid[0]| ==>
      img.rows[y][x] == Shade(grid[x][|grid[0]| - 1 - y], GridMax(grid), log10)
  {
    if grid == [] then GrayImage(1, 1, [[0]])
    else
      var width := |grid|;
      var height := |grid[0]|;
      var maxVal := GridMax(grid);
      GrayImage(width, height, seq(height, y requires 0 <= y < height => ImageRow(grid, height - 1 - y, maxVal, log10)))
  }

  // =====================================================================
  // The analysis

  datatype SpectrogramData = SpectrogramData(
    spectrogramImage: GrayImage, highFrequencyEnergy: real, suspiciousPatterns: seq<string>,
    hasHiddenMessage: bool)

  /** `SpectrogramAnalyzer::analyze`: an empty clip is an error; otherwise
      the verdict is high-frequency share above 0.1 or any pattern. */
  function AnalyzeSpec(samples: seq<real>, magnitude: (seq<real>, nat) -> real, log10: real -> real)
    : (r: Result<SpectrogramData, SpectrogramError>)
    ensures samples == [] <==> r == Err(AudioProcessing("Empty audio input"))
    ensures r.Ok? ==> (r.value.hasHiddenMessage <==> r.value.highFrequencyEnergy > 0.1 || r.value.suspiciousPatterns != [])
  {
    if samples == [] then Err(AudioProcessing("Empty audio input"))
    else
      var grid := SpectrogramSpec(samples, magnitude);
      var energy := HighFrequencyEnergySpec(grid);
      var patterns := PatternsSpec(grid);
      Ok(SpectrogramData(SpectrogramImage(grid, log10), energy, patterns, energy > 0.1 || patterns != []))
  }

  method Analyze(samples: seq<real>, magnitude: (seq<real>, nat) -> real, log10: real -> real)
    returns (r: Result<SpectrogramData, SpectrogramError>)
    ensures r == AnalyzeSpec(samples, magnitude, log10)
  {
    if samples == [] {
      return Err(AudioProcessing("Empty audio input"));
    }
    var spectrogram := GenerateSpectrogram(samples, magnitude);
    var highFreqEnergy := HighFrequencyEnergy(spectrogram);
    var suspiciousPatterns := DetectPatterns(spectrogram);
    var image := SpectrogramImage(spectrogram, log10);
    var hasHiddenMessage := highFreqEnergy > 0.1 || suspiciousPatterns != [];
    r := Ok(SpectrogramData(image, highFreqEnergy, suspiciousPatterns, hasHiddenMessage));
  }

  /** A clip shorter than one window yields an empty grid: a 1×1 image, a
      zero share and no patterns, so no hidden message. */
  lemma ShortClipClean(samples: seq<real>, magnitude: (seq<real>, nat) -> real, log10: real -> real)
    requires 0 < |samples| < WINDOW_SIZE
    ensures AnalyzeSpec(samples, magnitude, log10)
      == Ok(SpectrogramData(GrayImage(1, 1, [[0]]), 0.0, [], false))
  {
  }
}
