/** The every-Nth-frame sampling shared by the two video loops: the items
    the frame iterator yields (a decoded frame or a decode error), which of
    them are analysed, which are reported suspicious, and when the loop
    panics. Both front ends' loops are proved against these functions. */
module VideoSampling {
  import opened Common
  import VideoParser
  import VideoFrame
  import Lsb

  /** One item of the frame iterator, indexed by `enumerate` whatever its kind. */
  datatype FrameItem = Decoded(frame: RgbaImage) | Failed(error: VideoParser.VideoParserError)

  predicate FramesWellFormed(items: seq<FrameItem>) {
    forall i :: 0 <= i < |items| && items[i].Decoded? ==> items[i].frame.WellFormed()
  }

  lemma PrefixWellFormed(items: seq<FrameItem>, n: nat)
    requires FramesWellFormed(items) && n <= |items|
    ensures FramesWellFormed(items[..n])
  {
    assert forall i :: 0 <= i < n ==> items[..n][i] == items[i];
  }

  /** `frame_count`: the decoded items. */
  function DecodedCount(items: seq<FrameItem>): (n: nat)
    ensures n <= |items|
  {
    if items == [] then 0
    else DecodedCount(items[..|items| - 1]) + (if items[|items| - 1].Decoded? then 1 else 0)
  }

  /** `error_count`: the items the iterator yielded as errors. */
  function FailedCount(items: seq<FrameItem>): (n: nat)
    ensures n <= |items|
  {
    if items == [] then 0
    else FailedCount(items[..|items| - 1]) + (if items[|items| - 1].Failed? then 1 else 0)
  }

  /** The two counters cover every item exactly once. */
  lemma {:induction false} CountsCoverItems(items: seq<FrameItem>)
    ensures DecodedCount(items) + FailedCount(items) == |items|
    decreases |items|
  {
    if items != [] {
      CountsCoverItems(items[..|items| - 1]);
    }
  }

  /** Item i is analysed: it is a decoded frame and its index, which counts
      errors too, is a multiple of the sample rate. */
  predicate Sampled(items: seq<FrameItem>, rate: nat, i: nat)
    requires i < |items|
  {
    items[i].Decoded? && rate > 0 && i % rate == 0
  }

  /** Item i ends the loop in a panic: the first decoded frame when the rate
      is 0 (`idx % 0`), or a sampled frame whose edge density panics. */
  predicate PanicsAt(items: seq<FrameItem>, rate: nat, i: nat)
    requires FramesWellFormed(items) && i < |items|
  {
    items[i].Decoded? && (rate == 0 || (i % rate == 0 && VideoFrame.EdgeDensitySpec(items[i].frame).Panic?))
  }

  predicate SamplingPanics(items: seq<FrameItem>, rate: nat)
    requires FramesWellFormed(items)
  {
    exists i :: 0 <= i < |items| && PanicsAt(items, rate, i)
  }

  /** Item i is recorded as suspicious: sampled, and its frame analysis
      reports LSB suspicion or a histogram anomaly. */
  predicate SuspiciousAt(items: seq<FrameItem>, rate: nat, log2: real -> real, i: nat)
    requires FramesWellFormed(items) && i < |items|
  {
    Sampled(items, rate, i) && VideoFrame.FrameSuspicious(items[i].frame, log2)
  }

  /** The suspicious indices, in iteration order. */
  function SuspiciousIndices(items: seq<FrameItem>, rate: nat, log2: real -> real): (idx: seq<nat>)
    requires FramesWellFormed(items)
    ensures |idx| <= |items|
  {
    if items == [] then []
    else
      var n := |items| - 1;
      PrefixWellFormed(items, n);
      SuspiciousIndices(items[..n], rate, log2) + (if SuspiciousAt(items, rate, log2, n) then [n] else [])
  }

  /** The number of analysed frames. */
  function SampledCount(items: seq<FrameItem>, rate: nat): (n: nat)
    ensures n <= DecodedCount(items)
  {
    if items == [] then 0
    else SampledCount(items[..|items| - 1], rate) + (if Sampled(items, rate, |items| - 1) then 1 else 0)
  }

  /** The mean of a frame's three LSB entropies. */
  function MeanEntropy(img: RgbaImage, log2: real -> real): real {
    (Lsb.EntropySpec(Lsb.ExtractLsbPlane(img, 0), log2) + Lsb.EntropySpec(Lsb.ExtractLsbPlane(img, 1), log2)
     + Lsb.EntropySpec(Lsb.ExtractLsbPlane(img, 2), log2)) / 3.0
  }

  /** The sum of the mean entropies of the analysed frames. */
  function EntropyTotal(items: seq<FrameItem>, rate: nat, log2: real -> real): real {
    if items == [] then 0.0
    else
      var n := |items| - 1;
      EntropyTotal(items[..n], rate, log2) + (if Sampled(items, rate, n) then MeanEntropy(items[n].frame, log2) else 0.0)
  }

  /** The suspicious indices are strictly ascending, each one names a
      sampled suspicious item (and so is a multiple of the rate), and every
      sampled suspicious item is listed. */
  lemma SuspiciousIndicesExactly(items: seq<FrameItem>, rate: nat, log2: real -> real)
    requires FramesWellFormed(items)
    ensures var idx := SuspiciousIndices(items, rate, log2);
      && (forall k :: 0 <= k < |idx| ==> idx[k] < |items| && SuspiciousAt(items, rate, log2, idx[k]))
      && (forall k, l :: 0 <= k < l < |idx| ==> idx[k] < idx[l])
      && (forall i :: 0 <= i < |items| ==> (i in idx <==> SuspiciousAt(items, rate, log2, i)))
  {
    SuspiciousIndicesListed(items, rate, log2);
    SuspiciousIndicesAscending(items, rate, log2);
  }

  /** The suspicious indices name exactly the sampled suspicious items. */
  lemma {:induction false} SuspiciousIndicesListed(items: seq<FrameItem>, rate: nat, log2: real -> real)
    requires FramesWellFormed(items)
    ensures var idx := SuspiciousIndices(items, rate, log2);
      && (forall k :: 0 <= k < |idx| ==> idx[k] < |items| && SuspiciousAt(items, rate, log2, idx[k]))
      && (forall i :: 0 <= i < |items| ==> (i in idx <==> SuspiciousAt(items, rate, log2, i)))
    decreases |items|
  {
    if items != [] {
      var n := |items| - 1;
      var init := items[..n];
      PrefixWellFormed(items, n);
      SuspiciousIndicesListed(init, rate, log2);
      var prev := SuspiciousIndices(init, rate, log2);
      var idx := SuspiciousIndices(items, rate, log2);
      assert idx == prev + (if SuspiciousAt(items, rate, log2, n) then [n] else []);
      assert forall i :: 0 <= i < n ==> (SuspiciousAt(init, rate, log2, i) <==> SuspiciousAt(items, rate, log2, i)) by {
        forall i | 0 <= i < n ensures init[i] == items[i] { }
      }
      forall k | 0 <= k < |idx| ensures idx[k] < |items| && SuspiciousAt(items, rate, log2, idx[k]) {
        if k < |prev| {
          assert idx[k] == prev[k];
        }
      }
    }
  }

  /** The suspicious indices are strictly ascending and below the number
      of items. */
  lemma {:induction false} SuspiciousIndicesAscending(items: seq<FrameItem>, rate: nat, log2: real -> real)
    requires FramesWellFormed(items)
    ensures var idx := SuspiciousIndices(items, rate, log2);
      && (forall k :: 0 <= k < |idx| ==> idx[k] < |items|)
      && (forall k, l :: 0 <= k < l < |idx| ==> idx[k] < idx[l])
    decreases |items|
  {
    if items != [] {
      var n := |items| - 1;
      PrefixWellFormed(items, n);
      var init := items[..n];
      SuspiciousIndicesAscending(init, rate, log2);
      assert forall k :: 0 <= k < |SuspiciousIndices(init, rate, log2)| ==> SuspiciousIndices(init, rate, log2)[k] < |init|;
      assert forall k, l :: 0 <= k < l < |SuspiciousIndices(init, rate, log2)| ==> SuspiciousIndices(init, rate, log2)[k] < SuspiciousIndices(init, rate, log2)[l];
      AppendIndex(SuspiciousIndices(init, rate, log2), |init|, SuspiciousAt(items, rate, log2, n));
    }
  }

  /** Appending an index larger than all before keeps a list ascending. */
  lemma AppendIndex(prev: seq<nat>, n: nat, b: bool)
    requires forall k :: 0 <= k < |prev| ==> prev[k] < n
    requires forall k, l :: 0 <= k < l < |prev| ==> prev[k] < prev[l]
    ensures var idx := prev + (if b then [n] else []);
      && (forall k :: 0 <= k < |idx| ==> idx[k] < n + 1)
      && (forall k, l :: 0 <= k < l < |idx| ==> idx[k] < idx[l])
  {
  }

  /** Every suspicious item is analysed, so the list is no longer than the
      number of analysed frames. */
  lemma {:induction false} SuspiciousAmongSampled(items: seq<FrameItem>, rate: nat, log2: real -> real)
    requires FramesWellFormed(items)
    ensures |SuspiciousIndices(items, rate, log2)| <= SampledCount(items, rate)
    decreases |items|
  {
    if items != [] {
      var n := |items| - 1;
      PrefixWellFormed(items, n);
      SuspiciousAmongSampled(items[..n], rate, log2);
      assert items[..n] == items[..|items| - 1];
    }
  }

  /** With a rate of 1 every decoded frame is analysed. */
  lemma {:induction false} RateOneSamplesAll(items: seq<FrameItem>)
    ensures SampledCount(items, 1) == DecodedCount(items)
    decreases |items|
  {
    if items != [] {
      RateOneSamplesAll(items[..|items| - 1]);
    }
  }

  /** A loop that does not panic with rate 0 has seen no decoded frame. */
  lemma RateZeroWithoutPanic(items: seq<FrameItem>)
    requires FramesWellFormed(items) && !SamplingPanics(items, 0)
    ensures DecodedCount(items) == 0
  {
    forall i | 0 <= i < |items| ensures !items[i].Decoded? {
      assert !PanicsAt(items, 0, i);
    }
    NoDecodedCount(items);
  }

  lemma {:induction false} NoDecodedCount(items: seq<FrameItem>)
    requires forall i :: 0 <= i < |items| ==> !items[i].Decoded?
    ensures DecodedCount(items) == 0
    decreases |items|
  {
    if items != [] {
      NoDecodedCount(items[..|items| - 1]);
    }
  }

  // ---------------------------------------------------------------------
  // One more item: how each function grows, for the loops

  lemma ItemStep(items: seq<FrameItem>, rate: nat, log2: real -> real, i: nat)
    requires FramesWellFormed(items) && i < |items|
    ensures FramesWellFormed(items[..i]) && FramesWellFormed(items[..i + 1])
    ensures DecodedCount(items[..i + 1]) == DecodedCount(items[..i]) + (if items[i].Decoded? then 1 else 0)
    ensures FailedCount(items[..i + 1]) == FailedCount(items[..i]) + (if items[i].Failed? then 1 else 0)
    ensures SampledCount(items[..i + 1], rate) == SampledCount(items[..i], rate) + (if Sampled(items, rate, i) then 1 else 0)
    ensures EntropyTotal(items[..i + 1], rate, log2)
            == EntropyTotal(items[..i], rate, log2) + (if Sampled(items, rate, i) then MeanEntropy(items[i].frame, log2) else 0.0)
    ensures SuspiciousIndices(items[..i + 1], rate, log2)
            == SuspiciousIndices(items[..i], rate, log2) + (if SuspiciousAt(items, rate, log2, i) then [i] else [])
  {
    PrefixWellFormed(items, i);
    PrefixWellFormed(items, i + 1);
    var next := items[..i + 1];
    assert next[..i] == items[..i];
    assert next[i] == items[i];
  }
}
