/** The per-frame analyser of video frames (`VideoFrameAnalyzer`): the LSB
    scores of the still-image analyser with a guarded chi-square, a 256-bin
    histogram anomaly rule per colour channel and the density of interior
    edge pixels. */
module VideoFrame {
  import opened Common
  import opened Lsb

  // =====================================================================
  // Guarded chi-square and entropy

  /** The chi-square of `video_frame_analyzer.rs`: the same statistic as the
      still-image one, but every term is skipped when N/4 is 0, so the
      result is 0 rather than NaN for planes shorter than two bits. */
  function GuardedChiSquareSpec(plane: seq<Bit>): (s: Score)
    ensures s.Num?
  {
    var expected := (|plane| / 2) as real / 4.0;
    if expected > 0.0 then Num(ChiSum(plane, 4, expected)) else Num(0.0)
  }

  /** The guard changes only the degenerate case. */
  lemma GuardedChiSquareAgrees(plane: seq<Bit>)
    ensures |plane| >= 2 ==> GuardedChiSquareSpec(plane) == ChiSquareSpec(plane)
    ensures |plane| < 2 ==> GuardedChiSquareSpec(plane) == Num(0.0) && ChiSquareSpec(plane) == NaN
  {
  }

  /** `calculate_chi_square` with a four-slot counter array, a `pair < 4`
      check and the `expected > 0.0` guard on each term. */
  method CalculateChiSquare(plane: seq<Bit>) returns (chi: Score)
    ensures chi == GuardedChiSquareSpec(plane)
  {
    var pairCounts := CountPairs4(plane);

    var totalPairs := |plane| / 2;
    var expected := totalPairs as real / 4.0;
    var sum := 0.0;
    var v := 0;
    while v < 4
      invariant 0 <= v <= 4
      invariant forall u :: 0 <= u < 4 ==> pairCounts[u] == PairCount(plane, totalPairs, u)
      invariant expected > 0.0 ==> sum == ChiSum(plane, v, expected)
      invariant expected <= 0.0 ==> sum == 0.0
    {
      var observed := pairCounts[v] as real;
      var diff := observed - expected;
      if expected > 0.0 {
        ChiSumStep(plane, v, expected, diff);
        sum := sum + (diff * diff) / expected;
      }
      v := v + 1;
    }
    chi := Num(sum);
  }

  /** The pair counting of `calculate_chi_square`: four slots, and a
      `pair < 4` check that every 2-bit value passes. */
  method CountPairs4(plane: seq<Bit>) returns (pairCounts: array<nat>)
    ensures fresh(pairCounts) && pairCounts.Length == 4
    ensures forall v :: 0 <= v < 4 ==> pairCounts[v] == PairCount(plane, |plane| / 2, v)
  {
    pairCounts := new nat[4](_ => 0);
    var k := 0;
    while 2 * k < |plane|
      invariant 2 * k <= |plane| + 1
      invariant forall v :: 0 <= v < 4 ==> pairCounts[v] == PairCount(plane, Min(k, |plane| / 2), v)
    {
      if 2 * k + 2 <= |plane| {
        var pair := PairValue(plane, k);
        if pair < 4 {
          pairCounts[pair] := pairCounts[pair] + 1;
        }
      }
      k := k + 1;
    }
  }

  /** `calculate_entropy` with its `bit < 2` guard, which every bit of a
      plane passes; the result is the still-image entropy. */
  method CalculateEntropy(plane: seq<Bit>, log2: real -> real) returns (entropy: real)
    ensures entropy == EntropySpec(plane, log2)
  {
    var counts := new nat[2](_ => 0);
    var i := 0;
    while i < |plane|
      invariant 0 <= i <= |plane|
      invariant counts[0] == BitCount(plane[..i], 0) && counts[1] == BitCount(plane[..i], 1)
    {
      assert plane[..i + 1][..i] == plane[..i];
      var bit := plane[i];
      if bit < 2 {
        counts[bit] := counts[bit] + 1;
      }
      i := i + 1;
    }
    assert plane[..|plane|] == plane;

    var total := |plane|;
    entropy := 0.0;
    if counts[0] > 0 {
      var p := counts[0] as real / total as real;
      entropy := entropy - p * log2(p);
    }
    if counts[1] > 0 {
      var p := counts[1] as real / total as real;
      entropy := entropy - p * log2(p);
    }
  }

  // =====================================================================
  // Histograms

  function Sum(s: seq<nat>): nat {
    if s == [] then 0 else Sum(s[..|s| - 1]) + s[|s| - 1]
  }

  /** `iter().max().unwrap_or(&0)`. */
  function Max(s: seq<nat>): (m: nat)
    ensures forall i :: 0 <= i < |s| ==> s[i] <= m
    ensures s == [] ==> m == 0
    ensures s != [] ==> exists i :: 0 <= i < |s| && s[i] == m
  {
    if s == [] then 0
    else
      var m := Max(s[..|s| - 1]);
      if s[|s| - 1] > m then s[|s| - 1] else m
  }

  /** The 256-bin histogram of one colour channel over the pixels. */
  function Histogram(pixels: seq<Rgba>, channel: nat): (h: seq<nat>)
    requires channel < 3
    ensures |h| == 256
  {
    if pixels == [] then seq(256, _ => 0)
    else
      var h := Histogram(pixels[..|pixels| - 1], channel);
      var v := Channel(pixels[|pixels| - 1], channel);
      h[v := h[v] + 1]
  }

  lemma {:induction false} SumIncrement(s: seq<nat>, i: nat)
    requires i < |s|
    ensures Sum(s[i := s[i] + 1]) == Sum(s) + 1
    decreases |s|
  {
    var t := s[i := s[i] + 1];
    if i < |s| - 1 {
      assert t[..|t| - 1] == s[..|s| - 1][i := s[i] + 1];
      SumIncrement(s[..|s| - 1], i);
    } else {
      assert t[..|t| - 1] == s[..|s| - 1];
    }
  }

  lemma {:induction false} SumZero(n: nat)
    ensures Sum(seq(n, _ => 0)) == 0
  {
    if n > 0 {
      assert seq(n, _ => 0)[..n - 1] == seq(n - 1, _ => 0);
      SumZero(n - 1);
    }
  }

  /** Every pixel lands in exactly one bin: each histogram sums to the
      pixel count. */
  lemma {:induction false} HistogramSum(pixels: seq<Rgba>, channel: nat)
    requires channel < 3
    ensures Sum(Histogram(pixels, channel)) == |pixels|
    decreases |pixels|
  {
    if pixels == [] {
      SumZero(256);
    } else {
      HistogramSum(pixels[..|pixels| - 1], channel);
      SumIncrement(Histogram(pixels[..|pixels| - 1], channel), Channel(pixels[|pixels| - 1], channel));
    }
  }

  function Abs(x: int): nat { if x < 0 then -x else x }

  /** The anomaly rule for one histogram, with `avg = sum / 256` in integer
      arithmetic: a bin above ten times the average, or an even/odd bin pair
      differing by more than three times the average. */
  predicate HistogramAnomalous(h: seq<nat>)
    requires |h| == 256
  {
    var avg := Sum(h) / 256;
    Max(h) > avg * 10 || exists i :: 0 <= i < 128 && Abs(h[2 * i] as int - h[2 * i + 1]) > avg * 3
  }

  /** `detect_histogram_anomalies`: the rule on any of the R, G, B histograms. */
  predicate FrameAnomalous(img: RgbaImage) {
    exists c :: 0 <= c < 3 && HistogramAnomalous(Histogram(img.pixels, c))
  }

  /** A non-empty total has a non-empty largest bin. */
  lemma {:induction false} PositiveSumPositiveMax(s: seq<nat>)
    requires Sum(s) > 0
    ensures Max(s) > 0
    decreases |s|
  {
    var init := s[..|s| - 1];
    if s[|s| - 1] == 0 {
      PositiveSumPositiveMax(init);
      var i :| 0 <= i < |init| && init[i] == Max(init);
      assert s[i] == init[i];
    }
  }

  /** A frame with 1 to 255 pixels always looks anomalous: the integer
      average is 0 and some bin is non-empty. */
  lemma SmallFrameAnomalous(img: RgbaImage)
    requires 1 <= |img.pixels| <= 255
    ensures FrameAnomalous(img)
  {
    var h := Histogram(img.pixels, 0);
    HistogramSum(img.pixels, 0);
    PositiveSumPositiveMax(h);
    assert Sum(h) / 256 == 0;
    assert HistogramAnomalous(h);
  }

  /** The three histograms of `detect_histogram_anomalies`, built in one
      pass over the pixels. */
  method BuildHistograms(img: RgbaImage) returns (hist: array2<nat>)
    ensures fresh(hist) && hist.Length0 == 3 && hist.Length1 == 256
    ensures forall c, v :: 0 <= c < 3 && 0 <= v < 256 ==> hist[c, v] == Histogram(img.pixels, c)[v]
  {
    hist := new nat[3, 256]((_, _) => 0);
    var i := 0;
    while i < |img.pixels|
      invariant 0 <= i <= |img.pixels|
      invariant forall c, v :: 0 <= c < 3 && 0 <= v < 256 ==> hist[c, v] == Histogram(img.pixels[..i], c)[v]
    {
      var pixel := img.pixels[i];
      assert img.pixels[..i + 1][..i] == img.pixels[..i];
      var channel := 0;
      while channel < 3
        invariant 0 <= channel <= 3
        invariant forall c, v :: 0 <= c < 3 && 0 <= v < 256 ==>
          hist[c, v] == (if c < channel then Histogram(img.pixels[..i + 1], c)[v] else Histogram(img.pixels[..i], c)[v])
      {
        var value := Channel(pixel, channel);
        hist[channel, value] := hist[channel, value] + 1;
        channel := channel + 1;
      }
      i := i + 1;
    }
    assert img.pixels[..|img.pixels|] == img.pixels;
  }

  /** The largest bin and the total of one histogram, as `iter().max()`
      and `iter().sum()` compute them. */
  method BinStats(hist: array2<nat>, c: nat, ghost h: seq<nat>) returns (maxCount: nat, total: nat)
    requires hist.Length0 == 3 && hist.Length1 == 256 && c < 3 && |h| == 256
    requires forall v :: 0 <= v < 256 ==> hist[c, v] == h[v]
    ensures maxCount == Max(h) && total == Sum(h)
  {
    maxCount, total := 0, 0;
    var v := 0;
    while v < 256
      invariant 0 <= v <= 256
      invariant maxCount == Max(h[..v]) && total == Sum(h[..v])
    {
      assert h[..v + 1][..v] == h[..v];
      if hist[c, v] > maxCount {
        maxCount := hist[c, v];
      }
      total := total + hist[c, v];
      v := v + 1;
    }
    assert h[..256] == h;
  }

  /** The even/odd pair test over bins 2i and 2i+1, i < 128. */
  method PairTest(hist: array2<nat>, c: nat, ghost h: seq<nat>, avgCount: nat) returns (found: bool)
    requires hist.Length0 == 3 && hist.Length1 == 256 && c < 3 && |h| == 256
    requires forall v :: 0 <= v < 256 ==> hist[c, v] == h[v]
    ensures found <==> exists i :: 0 <= i < 128 && Abs(h[2 * i] as int - h[2 * i + 1]) > avgCount * 3
  {
    var i := 0;
    while i < 128
      invariant 0 <= i <= 128
      invariant forall j :: 0 <= j < i ==> Abs(h[2 * j] as int - h[2 * j + 1]) <= avgCount * 3
    {
      var diff := Abs(hist[c, 2 * i] as int - hist[c, 2 * i + 1]);
      if diff > avgCount * 3 {
        return true;
      }
      i := i + 1;
    }
    return false;
  }

  /** `detect_histogram_anomalies`, returning as soon as one histogram
      trips either test. */
  method DetectHistogramAnomalies(img: RgbaImage) returns (anomalous: bool)
    ensures anomalous == FrameAnomalous(img)
  {
    var hist := BuildHistograms(img);
    var c := 0;
    while c < 3
      invariant 0 <= c <= 3
      invariant forall d, v :: 0 <= d < 3 && 0 <= v < 256 ==> hist[d, v] == Histogram(img.pixels, d)[v]
      invariant forall d :: 0 <= d < c ==> !HistogramAnomalous(Histogram(img.pixels, d))
    {
      ghost var h := Histogram(img.pixels, c);
      var maxCount, total := BinStats(hist, c, h);
      var avgCount := total / 256;
      if maxCount > avgCount * 10 {
        return true;
      }
      var found := PairTest(hist, c, h, avgCount);
      if found {
        return true;
      }
      c := c + 1;
    }
    return false;
  }

  // =====================================================================
  // Edge density

  /** The squared gradient of one channel at an interior pixel, from the
      absolute differences of its horizontal and vertical neighbours. The
      source compares `sqrt(gx² + gy²) > 30`, which for integers is the test
      `gx² + gy² > 900` used here. */
  function Gradient2(img: RgbaImage, x: nat, y: nat, c: nat): nat
    requires img.WellFormed() && 1 <= x && x + 1 < img.width && 1 <= y && y + 1 < img.height && c < 3
  {
    var gx := Abs(Channel(PixelAt(img, x + 1, y), c) as int - Channel(PixelAt(img, x - 1, y), c));
    var gy := Abs(Channel(PixelAt(img, x, y + 1), c) as int - Channel(PixelAt(img, x, y - 1), c));
    gx * gx + gy * gy
  }

  predicate IsEdgePixel(img: RgbaImage, x: nat, y: nat)
    requires img.WellFormed() && 1 <= x && x + 1 < img.width && 1 <= y && y + 1 < img.height
  {
    exists c :: 0 <= c < 3 && Gradient2(img, x, y, c) > 900
  }

  /** Edge pixels among x = 1 .. xEnd-1 of row y. */
  function RowEdges(img: RgbaImage, y: nat, xEnd: nat): nat
    requires img.WellFormed() && 1 <= y && y + 1 < img.height && 1 <= xEnd && xEnd + 1 <= img.width
  {
    if xEnd == 1 then 0
    else RowEdges(img, y, xEnd - 1) + (if IsEdgePixel(img, xEnd - 1, y) then 1 else 0)
  }

  /** Edge pixels in rows y = 1 .. yEnd-1. */
  function EdgesUpTo(img: RgbaImage, yEnd: nat): nat
    requires img.WellFormed() && img.width >= 2 && 1 <= yEnd && yEnd + 1 <= img.height
  {
    if yEnd == 1 then 0
    else EdgesUpTo(img, yEnd - 1) + RowEdges(img, yEnd - 1, img.width - 1)
  }

  /** The number of interior edge pixels; the loops run only on images at
      least 3 pixels wide and high. */
  function EdgeCount(img: RgbaImage): nat
    requires img.WellFormed()
  {
    if img.width >= 3 && img.height >= 3 then EdgesUpTo(img, img.height - 1) else 0
  }

  lemma {:induction false} RowEdgesBound(img: RgbaImage, y: nat, xEnd: nat)
    requires img.WellFormed() && 1 <= y && y + 1 < img.height && 1 <= xEnd && xEnd + 1 <= img.width
    ensures RowEdges(img, y, xEnd) <= xEnd - 1
  {
    if xEnd > 1 {
      RowEdgesBound(img, y, xEnd - 1);
    }
  }

  lemma {:induction false} EdgesUpToBound(img: RgbaImage, yEnd: nat)
    requires img.WellFormed() && img.width >= 2 && 1 <= yEnd && yEnd + 1 <= img.height
    ensures EdgesUpTo(img, yEnd) <= (img.width - 2) * (yEnd - 1)
  {
    if yEnd > 1 {
      EdgesUpToBound(img, yEnd - 1);
      RowEdgesBound(img, yEnd - 1, img.width - 1);
      assert (img.width - 2) * (yEnd - 1) == (img.width - 2) * (yEnd - 2) + (img.width - 2);
    }
  }

  /** Only interior pixels are examined and each counts at most once. */
  lemma EdgeCountBound(img: RgbaImage)
    requires img.WellFormed() && img.width >= 2 && img.height >= 2
    ensures EdgeCount(img) <= (img.width - 2) * (img.height - 2)
  {
    if img.width >= 3 && img.height >= 3 {
      EdgesUpToBound(img, img.height - 1);
    }
  }

  /** `u32` subtraction in a release build: below zero it wraps around. */
  function WrappingSubU32(a: nat, b: nat): nat
    requires b < U32_MODULUS
  {
    if a >= b then a - b else a - b + U32_MODULUS
  }

  const U32_MODULUS: nat := 0x1_0000_0000

  /** `calculate_edge_density` in a release build. A zero dimension makes
      its `- 1` wrap to `u32::MAX`, so that loop runs; the first
      `get_pixel` is then out of bounds, a panic, unless the other
      dimension is 1 or 2 and leaves the inner range empty. An image with
      no pixels that does not panic divides 0 by 0. */
  function EdgeDensitySpec(img: RgbaImage): Result<Score, string>
    requires img.WellFormed()
  {
    if (img.height == 0 && (img.width == 0 || img.width >= 3)) || (img.width == 0 && img.height >= 3) then Panic
    else Ok(Divide(EdgeCount(img) as real, (img.width * img.height) as real))
  }

  /** The outcomes of `calculate_edge_density` by frame size: it panics
      only when one dimension is zero and the other is 0 or at least 3; it
      divides 0 by 0 exactly when one dimension is zero and the other is 1
      or 2; any other frame narrower or lower than 3 pixels runs no inner
      iteration and scores 0. */
  lemma EdgeDensityOutcomes(img: RgbaImage)
    requires img.WellFormed()
    ensures EdgeDensitySpec(img).Panic? <==>
      (img.height == 0 && (img.width == 0 || img.width >= 3)) || (img.width == 0 && img.height >= 3)
    ensures EdgeDensitySpec(img) == Ok(NaN) <==>
      (img.width == 0 && 0 < img.height < 3) || (img.height == 0 && 0 < img.width < 3)
    ensures 0 < img.width && 0 < img.height && (img.width < 3 || img.height < 3) ==>
      EdgeDensitySpec(img) == Ok(Num(0.0))
  {
  }


  /** Whether one interior pixel has an edge on some channel; the channel
      loop stops at the first one. */
  method EdgeAt(img: RgbaImage, x: nat, y: nat) returns (edge: bool)
    requires img.WellFormed() && 1 <= x && x + 1 < img.width && 1 <= y && y + 1 < img.height
    ensures edge == IsEdgePixel(img, x, y)
  {
    var channel := 0;
    while channel < 3
      invariant 0 <= channel <= 3
      invariant forall c :: 0 <= c < channel ==> Gradient2(img, x, y, c) <= 900
    {
      if Gradient2(img, x, y, channel) > 900 {
        return true;
      }
      channel := channel + 1;
    }
    return false;
  }

  /** The loops of `calculate_edge_density` with release-build bounds;
      a pixel read outside the image is `Panic`. */
  method CalculateEdgeDensity(img: RgbaImage) returns (r: Result<Score, string>)
    requires img.WellFormed()
    ensures r == EdgeDensitySpec(img)
  {
    var width, height := img.width, img.height;
    ghost var interior := width >= 3 && height >= 3;
    ghost var panics := EdgeDensitySpec(img).Panic?;
    var edgeCount := 0;
    var yEnd := WrappingSubU32(height, 1);
    var xEnd := WrappingSubU32(width, 1);
    var y := 1;
    while y < yEnd
      invariant 1 <= y
      invariant interior ==> y <= height - 1 && edgeCount == EdgesUpTo(img, y)
      invariant !interior ==> edgeCount == 0
      invariant panics ==> y == 1
    {
      var x := 1;
      while x < xEnd
        invariant 1 <= x
        invariant interior ==> x <= width - 1 && edgeCount == EdgesUpTo(img, y) + RowEdges(img, y, x)
        invariant !interior ==> edgeCount == 0
        invariant panics ==> x == 1
      {
        if !(x + 1 < width && y + 1 < height) {
          return Panic;
        }
        var edge := EdgeAt(img, x, y);
        if edge {
          edgeCount := edgeCount + 1;
        }
        x := x + 1;
      }
      y := y + 1;
    }
    r := Ok(Divide(edgeCount as real, (width * height) as real));
  }

  // =====================================================================
  // The analysis

  datatype VideoFrameAnalysis = VideoFrameAnalysis(
    frameIndex: nat, lsbSuspicious: bool, chiSquareScores: seq<Score>, entropyScores: seq<real>,
    histogramAnomalies: bool, edgeDensity: Score)

  /** `VideoFrameAnalyzer::analyze` on the decoded RGBA frame: three
      guarded chi-square and three entropy scores in R, G, B order, the LSB
      suspicion rule, the histogram rule and the edge density; the frame
      index is left at 0 for the caller to fill in. */
  method Analyze(img: RgbaImage, log2: real -> real) returns (r: Result<VideoFrameAnalysis, string>)
    requires img.WellFormed()
    ensures EdgeDensitySpec(img).Panic? <==> r.Panic?
    ensures !r.Err?
    ensures r.Ok? ==>
      && r.value.frameIndex == 0
      && |r.value.chiSquareScores| == 3 && |r.value.entropyScores| == 3
      && (forall c :: 0 <= c < 3 ==>
            && r.value.chiSquareScores[c] == GuardedChiSquareSpec(ExtractLsbPlane(img, c))
            && r.value.entropyScores[c] == EntropySpec(ExtractLsbPlane(img, c), log2))
      && (r.value.lsbSuspicious <==>
            (exists c :: 0 <= c < 3 && Exceeds(GuardedChiSquareSpec(ExtractLsbPlane(img, c)), 100.0))
            || (exists c :: 0 <= c < 3 && EntropySpec(ExtractLsbPlane(img, c), log2) > 0.9))
      && r.value.histogramAnomalies == FrameAnomalous(img)
      && Ok(r.value.edgeDensity) == EdgeDensitySpec(img)
  {
    var chiSquareScores: seq<Score> := [];
    var entropyScores: seq<real> := [];
    var channel := 0;
    while channel < 3
      invariant 0 <= channel <= 3
      invariant |chiSquareScores| == channel && |entropyScores| == channel
      invariant forall c :: 0 <= c < channel ==>
        && chiSquareScores[c] == GuardedChiSquareSpec(ExtractLsbPlane(img, c))
        && entropyScores[c] == EntropySpec(ExtractLsbPlane(img, c), log2)
    {
      var lsbPlane := ExtractLsbPlane(img, channel);
      var chiSquare := CalculateChiSquare(lsbPlane);
      var entropy := CalculateEntropy(lsbPlane, log2);
      chiSquareScores := chiSquareScores + [chiSquare];
      entropyScores := entropyScores + [entropy];
      channel := channel + 1;
    }
    var lsbSuspicious := Suspicious(chiSquareScores, entropyScores);
    var histogramAnomalies := DetectHistogramAnomalies(img);
    var edgeDensity := CalculateEdgeDensity(img);
    if edgeDensity.Panic? {
      return Panic;
    }
    r := Ok(VideoFrameAnalysis(0, lsbSuspicious, chiSquareScores, entropyScores,
                               histogramAnomalies, edgeDensity.value));
  }

  /** The frame verdict the video loops act on: `lsb_suspicious ||
      histogram_anomalies` of a successful analysis. */
  predicate FrameSuspicious(img: RgbaImage, log2: real -> real)
    requires img.WellFormed()
  {
    || (exists c :: 0 <= c < 3 && Exceeds(GuardedChiSquareSpec(ExtractLsbPlane(img, c)), 100.0))
    || (exists c :: 0 <= c < 3 && EntropySpec(ExtractLsbPlane(img, c), log2) > 0.9)
    || FrameAnomalous(img)
  }
}
