/** The least-significant-bit analyser of still images (`LsbAnalyzer`): per
    colour channel the bit plane is extracted, scored by a pairs-of-values
    chi-square and a binary Shannon entropy, and drawn as a square-ish
    black/colour picture. The logarithm is a parameter of the model. */
module Lsb {
  import opened Common

  // =====================================================================
  // Bit planes

  /** `extract_lsb_plane`: `pixel[channel] & 1` for every pixel, in pixel order. */
  function ExtractLsbPlane(img: RgbaImage, channel: nat): (plane: seq<Bit>)
    requires channel < 4
    ensures |plane| == |img.pixels|
    ensures forall i :: 0 <= i < |plane| ==> (plane[i] == 1 <==> Channel(img.pixels[i], channel) % 2 == 1)
  {
    seq(|img.pixels|, i requires 0 <= i < |img.pixels| => Channel(img.pixels[i], channel) % 2)
  }

  /** A well-formed `w`-by-`h` image has a plane of `w * h` bits. */
  lemma PlaneLength(img: RgbaImage, channel: nat)
    requires channel < 4 && img.WellFormed()
    ensures |ExtractLsbPlane(img, channel)| == img.width * img.height
  {
  }

  // =====================================================================
  // Pairs of values and the chi-square score

  /** `(chunk[0] << 1) | chunk[1]` for the `k`-th two-bit chunk. */
  function PairValue(plane: seq<Bit>, k: nat): (v: nat)
    requires 2 * k + 1 < |plane|
    ensures v < 4
  {
    var high: nat, low: nat := plane[2 * k], plane[2 * k + 1];
    2 * high + low
  }

  /** How many of the first `m` chunks have the pair value `v`. */
  function PairCount(plane: seq<Bit>, m: nat, v: nat): nat
    requires 2 * m <= |plane|
  {
    if m == 0 then 0
    else PairCount(plane, m - 1, v) + (if PairValue(plane, m - 1) == v then 1 else 0)
  }

  /** The four pair counts add up to the number of chunks: every full chunk
      lands in exactly one of the slots 0..3. */
  lemma {:induction false} PairCountsSum(plane: seq<Bit>, m: nat)
    requires 2 * m <= |plane|
    ensures PairCount(plane, m, 0) + PairCount(plane, m, 1) + PairCount(plane, m, 2) + PairCount(plane, m, 3) == m
  {
    if m > 0 {
      PairCountsSum(plane, m - 1);
    }
  }

  function ChiTerm(observed: nat, expected: real): real
    requires expected > 0.0
  {
    var diff := observed as real - expected;
    diff * diff / expected
  }

  /** The sum of the first `v` per-slot terms. */
  function ChiSum(plane: seq<Bit>, v: nat, expected: real): real
    requires expected > 0.0 && v <= 4
  {
    if v == 0 then 0.0
    else ChiSum(plane, v - 1, expected) + ChiTerm(PairCount(plane, |plane| / 2, v - 1), expected)
  }

  /** One more slot: the slot's term is the source's squared difference over N/4. */
  lemma ChiSumStep(plane: seq<Bit>, v: nat, expected: real, diff: real)
    requires expected > 0.0 && v < 4 && diff == PairCount(plane, |plane| / 2, v) as real - expected
    ensures ChiSum(plane, v + 1, expected) == ChiSum(plane, v, expected) + diff * diff / expected
  {
    ChiTermOf(PairCount(plane, |plane| / 2, v), expected, diff);
  }

  lemma ChiTermOf(observed: nat, expected: real, diff: real)
    requires expected > 0.0 && diff == observed as real - expected
    ensures ChiTerm(observed, expected) == diff * diff / expected
  {
  }

  /** The pairs-of-values statistic Σ_{v<4} (c_v − N/4)² / (N/4) over the
      N = len/2 full chunks; with no full chunk `N/4` is zero and the
      unguarded division is `0.0 / 0.0`. */
  function ChiSquareSpec(plane: seq<Bit>): Score {
    var expected := (|plane| / 2) as real / 4.0;
    if expected == 0.0 then NaN else Num(ChiSum(plane, 4, expected))
  }

  /** The score is NaN exactly for planes shorter than two bits. */
  lemma ChiSquareNaNIff(plane: seq<Bit>)
    ensures ChiSquareSpec(plane).NaN? <==> |plane| < 2
  {
  }

  lemma {:induction false} ChiSumNonNegative(plane: seq<Bit>, v: nat, expected: real)
    requires expected > 0.0 && v <= 4
    ensures ChiSum(plane, v, expected) >= 0.0
  {
    if v > 0 {
      ChiSumNonNegative(plane, v - 1, expected);
      var d := PairCount(plane, |plane| / 2, v - 1) as real - expected;
      assert d * d >= 0.0;
    }
  }

  /** A defined chi-square score is never negative. */
  lemma ChiSquareNonNegative(plane: seq<Bit>)
    ensures ChiSquareSpec(plane).Num? ==> ChiSquareSpec(plane).value >= 0.0
  {
    var expected := (|plane| / 2) as real / 4.0;
    if expected != 0.0 {
      ChiSumNonNegative(plane, 4, expected);
    }
  }

  /** Equal counts in the four slots give the score 0. */
  lemma ChiSquareUniform(plane: seq<Bit>)
    requires |plane| >= 2
    requires var m := |plane| / 2;
      PairCount(plane, m, 0) == PairCount(plane, m, 1) == PairCount(plane, m, 2) == PairCount(plane, m, 3)
    ensures ChiSquareSpec(plane) == Num(0.0)
  {
    var m := |plane| / 2;
    PairCountsSum(plane, m);
    var c := PairCount(plane, m, 0);
    var expected := m as real / 4.0;
    assert c as real == expected;
    assert ChiTerm(c, expected) == 0.0;
    assert ChiSum(plane, 1, expected) == 0.0;
    assert ChiSum(plane, 2, expected) == 0.0;
    assert ChiSum(plane, 3, expected) == 0.0;
  }

  /** `calculate_chi_square`: pair counts in a 256-slot array over the
      two-bit chunks (a trailing odd bit is skipped), then the first four
      slots scored against N/4. */
  method CalculateChiSquare(plane: seq<Bit>) returns (chi: Score)
    ensures chi == ChiSquareSpec(plane)
  {
    var pairCounts := CountPairs(plane);

    var totalPairs := |plane| / 2;
    var expected := totalPairs as real / 4.0;
    chi := Num(0.0);
    var v := 0;
    while v < 4
      invariant 0 <= v <= 4
      invariant forall u :: 0 <= u < 4 ==> pairCounts[u] == PairCount(plane, totalPairs, u)
      invariant chi == if expected == 0.0 then (if v == 0 then Num(0.0) else NaN)
                       else Num(ChiSum(plane, v, expected))
    {
      var observed := pairCounts[v] as real;
      var diff := observed - expected;
      if expected == 0.0 {
        assert totalPairs == 0 && observed == 0.0 && diff * diff == 0.0;
      } else {
        ChiSumStep(plane, v, expected, diff);
      }
      chi := AddScore(chi, Divide(diff * diff, expected));
      v := v + 1;
    }
  }

  /** The pair tally of `calculate_chi_square`: one 256-slot counter array
      over the chunks of two bits; a trailing odd bit is skipped. */
  method CountPairs(plane: seq<Bit>) returns (pairCounts: array<nat>)
    ensures fresh(pairCounts) && pairCounts.Length == 256
    ensures forall v :: 0 <= v < 256 ==>
      pairCounts[v] == (if v < 4 then PairCount(plane, |plane| / 2, v) else 0)
  {
    pairCounts := new nat[256](_ => 0);
    var k := 0;
    while 2 * k < |plane|
      invariant 2 * k <= |plane| + 1
      invariant forall v :: 0 <= v < 256 ==>
        pairCounts[v] == (if v < 4 then PairCount(plane, Min(k, |plane| / 2), v) else 0)
    {
      if 2 * k + 2 <= |plane| {
        var pair := PairValue(plane, k);
        pairCounts[pair] := pairCounts[pair] + 1;
      }
      k := k + 1;
    }
  }

  function Min(a: nat, b: nat): nat { if a <= b then a else b }

  // =====================================================================
  // Entropy of a bit plane

  /** How many bits of the plane equal `b`. */
  function BitCount(plane: seq<Bit>, b: Bit): nat {
    if plane == [] then 0
    else BitCount(plane[..|plane| - 1], b) + (if plane[|plane| - 1] == b then 1 else 0)
  }

  /** The zero and one counts add up to the plane length. */
  lemma {:induction false} BitCountsSum(plane: seq<Bit>)
    ensures BitCount(plane, 0) + BitCount(plane, 1) == |plane|
  {
    if plane != [] {
      BitCountsSum(plane[..|plane| - 1]);
    }
  }

  /** `p * p.log2()` for `p = count / total`, skipped when the count is 0. */
  function EntropyTerm(count: nat, total: nat, log2: real -> real): real {
    if count > 0 && total > 0 then
      var p := count as real / total as real;
      p * log2(p)
    else 0.0
  }

  /** The binary Shannon entropy −Σ p·log2 p of the plane, for the given
      `log2`. */
  function EntropySpec(plane: seq<Bit>, log2: real -> real): real {
    0.0 - EntropyTerm(BitCount(plane, 0), |plane|, log2) - EntropyTerm(BitCount(plane, 1), |plane|, log2)
  }

  /** A plane of one repeated bit has entropy 0 (when log2 1 = 0); the
      all-zero plane is the case the source's own example checks. */
  lemma EntropyConstant(plane: seq<Bit>, b: Bit, log2: real -> real)
    requires log2(1.0) == 0.0
    requires forall i :: 0 <= i < |plane| ==> plane[i] == b
    ensures EntropySpec(plane, log2) == 0.0
  {
    BitCountsSum(plane);
    ConstantCount(plane, b);
    if |plane| > 0 {
      assert |plane| as real / |plane| as real == 1.0;
    }
  }

  lemma {:induction false} ConstantCount(plane: seq<Bit>, b: Bit)
    requires forall i :: 0 <= i < |plane| ==> plane[i] == b
    ensures BitCount(plane, b) == |plane|
  {
    if plane != [] {
      ConstantCount(plane[..|plane| - 1], b);
    }
  }

  lemma {:induction false} AlternatingCount(plane: seq<Bit>)
    requires |plane| % 2 == 0
    requires forall i :: 0 <= i < |plane| ==> plane[i] == i % 2
    ensures BitCount(plane, 1) == |plane| / 2
    decreases |plane|
  {
    if plane != [] {
      var shorter := plane[..|plane| - 2];
      AlternatingCount(shorter);
      assert plane[..|plane| - 1][..|plane| - 2] == shorter;
    }
  }

  /** The alternating plane 0,1,0,1,… of even length has entropy 1, above
      the 0.9 threshold (when log2 ½ = −1). */
  lemma EntropyAlternating(plane: seq<Bit>, log2: real -> real)
    requires log2(0.5) == -1.0
    requires |plane| > 0 && |plane| % 2 == 0
    requires forall i :: 0 <= i < |plane| ==> plane[i] == i % 2
    ensures EntropySpec(plane, log2) == 1.0
  {
    AlternatingCount(plane);
    BitCountsSum(plane);
    var n := |plane|;
    assert (n / 2) as real / n as real == 0.5;
  }

  /** `calculate_entropy`: the two bit counts in an array, then the two
      entropy terms subtracted in turn. */
  method CalculateEntropy(plane: seq<Bit>, log2: real -> real) returns (entropy: real)
    ensures entropy == EntropySpec(plane, log2)
  {
    var counts := new nat[2](_ => 0);
    var i := 0;
    while i < |plane|
      invariant 0 <= i <= |plane|
      invariant counts[0] == BitCount(plane[..i], 0) && counts[1] == BitCount(plane[..i], 1)
    {
      assert plane[..i + 1][..i] == plane[..i];
      counts[plane[i]] := counts[plane[i]] + 1;
      i := i + 1;
    }
    assert plane[..|plane|] == plane;

    var total := |plane|;
    entropy := 0.0;
    var b := 0;
    while b < 2
      invariant 0 <= b <= 2
      invariant entropy == if b == 0 then 0.0
                           else if b == 1 then 0.0 - EntropyTerm(counts[0], total, log2)
                           else EntropySpec(plane, log2)
    {
      var count := counts[b];
      if count > 0 {
        var p := count as real / total as real;
        entropy := entropy - p * log2(p);
      }
      b := b + 1;
    }
  }

  // =====================================================================
  // Visualisation of a plane

  /** The smallest `w` with `w * w >= n`, searched upwards from `w`. */
  function CeilSqrtFrom(n: nat, w: nat): (r: nat)
    requires w == 0 || (w - 1) * (w - 1) < n
    ensures r * r >= n && (r == 0 || (r - 1) * (r - 1) < n)
    decreases n - w
  {
    if w * w >= n then w
    else
      CeilSqrtFrom(n, w + 1)
  }

  /** ⌈√n⌉, the visualisation width. */
  function CeilSqrt(n: nat): (w: nat)
    ensures w * w >= n && (w == 0 || (w - 1) * (w - 1) < n)
  {
    CeilSqrtFrom(n, 0)
  }

  /** The colour of a plane bit on the given channel: 255 for a one, on
      the red, green or blue slot (a grey pixel for any other channel). */
  function BitColour(bit: Bit, channel: nat): Rgba {
    var val: byte := if bit == 1 then 255 else 0;
    if channel == 0 then Rgba(val, 0, 0, 255)
    else if channel == 1 then Rgba(0, val, 0, 255)
    else if channel == 2 then Rgba(0, 0, val, 255)
    else Rgba(val, val, val, 255)
  }

  /** `visualize_lsb_plane`: a ⌈√n⌉-wide picture, filled row-major with one
      pixel per bit and black padding. For an empty plane the width is 0, so
      the height divides by zero, which is `Panic` (a debug build already
      stops at the underflow of `len + width - 1`). */
  function VisualizeLsbPlane(plane: seq<Bit>, channel: nat): Result<RgbaImage, string> {
    var n := |plane|;
    var width := CeilSqrt(n);
    if n == 0 then Panic
    else
      var height := (n + width - 1) / width;
      Ok(RgbaImage(width, height,
                   seq(width * height, i requires 0 <= i < width * height =>
                         if i < n then BitColour(plane[i], channel) else Rgba(0, 0, 0, 255))))
  }

  lemma CeilDivBounds(n: nat, w: nat)
    requires w > 0
    ensures var h := (n + w - 1) / w; h * w >= n && (h == 0 || (h - 1) * w < n)
  {
    var h := (n + w - 1) / w;
    var r := (n + w - 1) % w;
    assert n + w - 1 == h * w + r;
    assert (h - 1) * w == h * w - w;
  }

  /** The layout of the visualisation: a non-empty plane fits (width ·
      height ≥ n with no wasted row), bit i is pixel i in row-major order and
      lights its channel at 255 exactly when it is 1, every padding pixel is
      black, and alpha is always 255. */
  lemma VisualizeLayout(plane: seq<Bit>, channel: nat)
    ensures |plane| == 0 <==> VisualizeLsbPlane(plane, channel).Panic?
    ensures var r := VisualizeLsbPlane(plane, channel);
      r.Ok? ==>
        && r.value.WellFormed()
        && r.value.width == CeilSqrt(|plane|)
        && r.value.width * r.value.height >= |plane|
        && (r.value.height - 1) * r.value.width < |plane|
        && (forall i :: 0 <= i < |r.value.pixels| ==> r.value.pixels[i].a == 255)
        && (forall i :: |plane| <= i < |r.value.pixels| ==> r.value.pixels[i] == Rgba(0, 0, 0, 255))
        && (channel < 3 ==> forall i :: 0 <= i < |plane| ==>
              (Channel(r.value.pixels[i], channel) == 255 <==> plane[i] == 1)
              && (forall c :: 0 <= c < 3 && c != channel ==> Channel(r.value.pixels[i], c) == 0))
  {
    if |plane| > 0 {
      var w := CeilSqrt(|plane|);
      CeilDivBounds(|plane|, w);
    }
  }

  // =====================================================================
  // The analysis

  datatype LsbAnalysis = LsbAnalysis(
    lsbPlanes: seq<RgbaImage>, chiSquareScores: seq<Score>, entropyScores: seq<real>, suspicious: bool)

  /** High chi-square or high entropy on any channel. */
  predicate Suspicious(chiScores: seq<Score>, entropyScores: seq<real>) {
    (exists i :: 0 <= i < |chiScores| && Exceeds(chiScores[i], 100.0))
    || (exists i :: 0 <= i < |entropyScores| && entropyScores[i] > 0.9)
  }

  /** `LsbAnalyzer::analyze` on the decoded RGBA image: the red, green and
      blue planes in that order, each scored and drawn, and the suspicion
      rule over the three scores. An image without pixels reaches the
      visualisation of an empty plane and panics there; no other image
      fails. */
  method Analyze(img: RgbaImage, log2: real -> real) returns (r: Result<LsbAnalysis, string>)
    requires img.WellFormed()
    ensures |img.pixels| == 0 <==> r.Panic?
    ensures !r.Err?
    ensures r.Ok? ==>
      && |r.value.lsbPlanes| == 3 && |r.value.chiSquareScores| == 3 && |r.value.entropyScores| == 3
      && (forall c :: 0 <= c < 3 ==>
            && r.value.chiSquareScores[c] == ChiSquareSpec(ExtractLsbPlane(img, c))
            && r.value.entropyScores[c] == EntropySpec(ExtractLsbPlane(img, c), log2)
            && Ok(r.value.lsbPlanes[c]) == VisualizeLsbPlane(ExtractLsbPlane(img, c), c))
      && (r.value.suspicious <==>
            (exists c :: 0 <= c < 3 && Exceeds(ChiSquareSpec(ExtractLsbPlane(img, c)), 100.0))
            || (exists c :: 0 <= c < 3 && EntropySpec(ExtractLsbPlane(img, c), log2) > 0.9))
  {
    var lsbPlanes: seq<RgbaImage> := [];
    var chiSquareScores: seq<Score> := [];
    var entropyScores: seq<real> := [];
    var channel := 0;
    while channel < 3
      invariant 0 <= channel <= 3
      invariant |img.pixels| > 0 || channel == 0
      invariant |lsbPlanes| == channel && |chiSquareScores| == channel && |entropyScores| == channel
      invariant forall c :: 0 <= c < channel ==>
        && chiSquareScores[c] == ChiSquareSpec(ExtractLsbPlane(img, c))
        && entropyScores[c] == EntropySpec(ExtractLsbPlane(img, c), log2)
        && Ok(lsbPlanes[c]) == VisualizeLsbPlane(ExtractLsbPlane(img, c), c)
    {
      var lsbPlane := ExtractLsbPlane(img, channel);
      var chiSquare := CalculateChiSquare(lsbPlane);
      chiSquareScores := chiSquareScores + [chiSquare];
      var entropy := CalculateEntropy(lsbPlane, log2);
      entropyScores := entropyScores + [entropy];
      var visualized := VisualizeLsbPlane(lsbPlane, channel);
      if visualized.Panic? {
        return Panic;
      }
      lsbPlanes := lsbPlanes + [visualized.value];
      channel := channel + 1;
    }
    var suspicious := Suspicious(chiSquareScores, entropyScores);
    r := Ok(LsbAnalysis(lsbPlanes, chiSquareScores, entropyScores, suspicious));
  }
}
