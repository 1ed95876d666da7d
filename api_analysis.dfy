/** The HTTP service's analysis pipeline: the MIME classification, the
    video frame-sampling loop, and the evidence aggregator that turns the
    collected reports into the response summary. The records are the
    service's response types. */
module ApiAnalysis {
  import opened Common
  import Reports
  import VideoFrame
  import opened VideoSampling

  // =====================================================================
  // File type

  datatype FileType = AudioFile | VideoFile | TextFile | ImageFile

  lemma FirstCharOfPrefix(s: string, p: string)
    requires StartsWith(s, p) && |p| > 0
    ensures |s| > 0 && s[0] == p[0]
  {
    assert s[..|p|][0] == s[0];
  }

  /** The MIME prefixes the classification tests; no MIME type has two. */
  lemma PrefixesExclusive(mime: string)
    ensures !(StartsWith(mime, "audio/") && StartsWith(mime, "video/"))
    ensures !(StartsWith(mime, "audio/") && StartsWith(mime, "image/"))
    ensures !(StartsWith(mime, "video/") && StartsWith(mime, "image/"))
    ensures !(StartsWith(mime, "text/") && StartsWith(mime, "image/"))
    ensures !(StartsWith(mime, "application/") && StartsWith(mime, "image/"))
  {
    if StartsWith(mime, "audio/") { FirstCharOfPrefix(mime, "audio/"); }
    if StartsWith(mime, "video/") { FirstCharOfPrefix(mime, "video/"); }
    if StartsWith(mime, "image/") { FirstCharOfPrefix(mime, "image/"); }
    if StartsWith(mime, "text/") { FirstCharOfPrefix(mime, "text/"); }
    if StartsWith(mime, "application/") { FirstCharOfPrefix(mime, "application/"); }
  }

  /** The match on the sniffed MIME type; `None` when nothing was detected. */
  function ClassifyMime(mime: Option<string>): (t: FileType)
    ensures t == AudioFile <==> mime.Some? && StartsWith(mime.value, "audio/")
    ensures t == VideoFile <==> mime.Some? && StartsWith(mime.value, "video/")
    ensures t == ImageFile <==> mime.Some? && StartsWith(mime.value, "image/")
    ensures t == TextFile <==>
      mime.None? || !(StartsWith(mime.value, "audio/") || StartsWith(mime.value, "video/") || StartsWith(mime.value, "image/"))
  {
    if mime.None? then TextFile
    else
      var m := mime.value;
      PrefixesExclusive(m);
      if StartsWith(m, "audio/") then AudioFile
      else if StartsWith(m, "video/") then VideoFile
      else if StartsWith(m, "text/") || StartsWith(m, "application/") then TextFile
      else if StartsWith(m, "image/") then ImageFile
      else TextFile
  }

  /** `detected_type`: the type's name. */
  function DetectedType(t: FileType): (name: string)
    ensures name in {"Audio", "Video", "Text", "Image"}
  {
    match t
    case AudioFile => "Audio"
    case VideoFile => "Video"
    case TextFile => "Text"
    case ImageFile => "Image"
  }

  /** Different file types get different names, so the name determines
      the type. */
  lemma DetectedTypeDistinct(t: FileType, u: FileType)
    requires t != u
    ensures DetectedType(t) != DetectedType(u)
  {
    assert DetectedType(t)[0] != DetectedType(u)[0];
  }

  // =====================================================================
  // Response records

  datatype FileInfo = FileInfo(path: string, sizeBytes: nat, detectedType: string, extension: Option<string>)

  datatype ImageDimensions = ImageDimensions(width: nat, height: nat)

  datatype LsbReport = LsbReport(isSuspicious: bool, channels: seq<Reports.LsbChannelAnalysis>)

  datatype ImageAnalysis = ImageAnalysis(
    exifMetadata: Option<Reports.ExifReport>, lsbAnalysis: Option<LsbReport>, dimensions: ImageDimensions)

  datatype SpectrogramReport = SpectrogramReport(
    highFrequencyEnergy: real, hiddenMessageDetected: bool, suspiciousPatterns: seq<string>)

  datatype AudioAnalysis = AudioAnalysis(
    sampleCount: nat, id3Analysis: Option<Reports.Id3Report>, spectrogramAnalysis: Option<SpectrogramReport>)

  datatype VideoAnalysis = VideoAnalysis(framesProcessed: nat, errorsEncountered: nat, suspiciousFrames: seq<nat>)

  datatype FormatSpecificAnalysis =
    | Image(image: ImageAnalysis)
    | Audio(audio: AudioAnalysis)
    | Video(video: VideoAnalysis)
    | Text(text: Reports.TextAnalysis)
    | Unknown

  datatype AnalysisSummary = AnalysisSummary(
    steganographyDetected: bool, confidenceLevel: string, threatIndicators: seq<string>, recommendations: seq<string>)

  /** The response under construction; `finalize_summary` rewrites its
      summary in place. The timestamp is the clock reading passed in. */
  class AnalysisResponse {
    var fileInfo: FileInfo
    var magicBytesAnalysis: Option<Reports.MagicBytesReport>
    var formatSpecificAnalysis: FormatSpecificAnalysis
    var timestamp: string
    var summary: AnalysisSummary

    /** The initial response: no magic report, an unknown format analysis
        and an empty, undetected summary of confidence "low". */
    constructor (path: string, sizeBytes: nat, fileType: FileType, extension: Option<string>, now: string)
      ensures fileInfo == FileInfo(path, sizeBytes, DetectedType(fileType), extension)
      ensures magicBytesAnalysis.None? && formatSpecificAnalysis.Unknown? && timestamp == now
      ensures summary == AnalysisSummary(false, "low", [], [])
    {
      fileInfo := FileInfo(path, sizeBytes, DetectedType(fileType), extension);
      magicBytesAnalysis := None;
      formatSpecificAnalysis := Unknown;
      timestamp := now;
      summary := AnalysisSummary(false, "low", [], []);
    }
  }

  // =====================================================================
  // The evidence rules

  const STRUCTURE_INDICATOR := "Suspicious data in file structure"
  const MULTIPLE_INDICATOR := "Multiple file formats detected"
  const LSB_INDICATOR := "LSB analysis indicates hidden data"
  const SPECTROGRAM_INDICATOR := "Spectrogram analysis detected patterns"

  function VideoIndicator(n: nat): string { "Found " + Decimal(n) + " suspicious video frames" }

  /** What the magic-bytes report contributes: the structure string, the
      multiple-formats string, then every finding verbatim. */
  function MagicIndicators(magic: Option<Reports.MagicBytesReport>): seq<string> {
    match magic
    case None => []
    case Some(m) =>
      (if m.hasSuspiciousData then [STRUCTURE_INDICATOR] else [])
      + (if m.hasMultipleFormats then [MULTIPLE_INDICATOR] else [])
      + m.suspiciousFindings
  }

  /** What the format analysis contributes: at most one string. */
  function FormatIndicators(f: FormatSpecificAnalysis): (s: seq<string>)
    ensures |s| <= 1
  {
    match f
    case Image(img) => if img.lsbAnalysis.Some? && img.lsbAnalysis.value.isSuspicious then [LSB_INDICATOR] else []
    case Audio(a) =>
      if a.spectrogramAnalysis.Some? && a.spectrogramAnalysis.value.hiddenMessageDetected then [SPECTROGRAM_INDICATOR] else []
    case Video(v) => if v.suspiciousFrames != [] then [VideoIndicator(|v.suspiciousFrames|)] else []
    case Text(_) => []
    case Unknown => []
  }

  function ApiIndicators(magic: Option<Reports.MagicBytesReport>, f: FormatSpecificAnalysis): seq<string> {
    MagicIndicators(magic) + FormatIndicators(f)
  }

  /** Structure suspicion, LSB suspicion, a hidden spectrogram message or
      any suspicious video frame; findings alone never detect. */
  predicate ApiDetected(magic: Option<Reports.MagicBytesReport>, f: FormatSpecificAnalysis) {
    (magic.Some? && magic.value.hasSuspiciousData) || FormatDetected(f)
  }

  predicate FormatDetected(f: FormatSpecificAnalysis) {
    || (f.Image? && f.image.lsbAnalysis.Some? && f.image.lsbAnalysis.value.isSuspicious)
    || (f.Audio? && f.audio.spectrogramAnalysis.Some? && f.audio.spectrogramAnalysis.value.hiddenMessageDetected)
    || (f.Video? && f.video.suspiciousFrames != [])
  }

  function ApiRecommendations(detected: bool): seq<string> {
    if detected then ["Further investigation recommended", "Consider specialized tools", "Verify file source"]
    else ["No obvious steganography detected"]
  }

  function ApiSummary(magic: Option<Reports.MagicBytesReport>, f: FormatSpecificAnalysis): AnalysisSummary {
    var indicators := ApiIndicators(magic, f);
    AnalysisSummary(ApiDetected(magic, f), Reports.ConfidenceLevel(|indicators|), indicators,
                    ApiRecommendations(ApiDetected(magic, f)))
  }

  /** `finalize_summary`: collects the indicators by pushes, raising the
      detected flag on the way, and replaces the summary and nothing else. */
  method FinalizeSummary(response: AnalysisResponse)
    modifies response
    ensures response.summary == ApiSummary(response.magicBytesAnalysis, response.formatSpecificAnalysis)
    ensures response.fileInfo == old(response.fileInfo)
    ensures response.magicBytesAnalysis == old(response.magicBytesAnalysis)
    ensures response.formatSpecificAnalysis == old(response.formatSpecificAnalysis)
    ensures response.timestamp == old(response.timestamp)
  {
    var indicators, detected := CollectMagic(response.magicBytesAnalysis);
    indicators, detected := CollectFormat(response.formatSpecificAnalysis, indicators, detected);
    var confidence := if |indicators| >= 3 then "high" else if |indicators| >= 1 then "medium" else "low";
    var recommendations;
    if detected {
      recommendations := ["Further investigation recommended", "Consider specialized tools", "Verify file source"];
    } else {
      recommendations := ["No obvious steganography detected"];
    }
    response.summary := AnalysisSummary(detected, confidence, indicators, recommendations);
  }

  /** The magic-bytes part of `finalize_summary`. */
  method CollectMagic(magic: Option<Reports.MagicBytesReport>) returns (indicators: seq<string>, detected: bool)
    ensures indicators == MagicIndicators(magic)
    ensures detected <==> magic.Some? && magic.value.hasSuspiciousData
  {
    indicators, detected := [], false;
    if magic.Some? {
      if magic.value.hasSuspiciousData {
        detected := true;
        indicators := indicators + [STRUCTURE_INDICATOR];
      }
      if magic.value.hasMultipleFormats {
        indicators := indicators + [MULTIPLE_INDICATOR];
      }
      indicators := indicators + magic.value.suspiciousFindings;
    }
  }

  /** The format-specific part of `finalize_summary`. */
  method CollectFormat(f: FormatSpecificAnalysis, indicators0: seq<string>, detected0: bool)
    returns (indicators: seq<string>, detected: bool)
    ensures indicators == indicators0 + FormatIndicators(f)
    ensures detected <==> detected0 || FormatDetected(f)
  {
    indicators, detected := indicators0, detected0;
    match f {
      case Image(img) =>
        if img.lsbAnalysis.Some? && img.lsbAnalysis.value.isSuspicious {
          detected := true;
          indicators := indicators + [LSB_INDICATOR];
        }
      case Audio(audio) =>
        if audio.spectrogramAnalysis.Some? && audio.spectrogramAnalysis.value.hiddenMessageDetected {
          detected := true;
          indicators := indicators + [SPECTROGRAM_INDICATOR];
        }
      case Video(video) =>
        if video.suspiciousFrames != [] {
          detected := true;
          indicators := indicators + [VideoIndicator(|video.suspiciousFrames|)];
        }
      case Text(_) =>
      case Unknown =>
    }
  }

  // =====================================================================
  // Properties of the summary

  /** The indicators in order: the structure string, the multiple-formats
      string, the findings verbatim as one block, then at most one
      format-specific string. */
  lemma IndicatorLayout(magic: Option<Reports.MagicBytesReport>, f: FormatSpecificAnalysis)
    requires magic.Some?
    ensures var ind := ApiIndicators(magic, f);
      var lead := (if magic.value.hasSuspiciousData then 1 else 0) + (if magic.value.hasMultipleFormats then 1 else 0);
      var findings := magic.value.suspiciousFindings;
      && |ind| == lead + |findings| + |FormatIndicators(f)|
      && (magic.value.hasSuspiciousData ==> ind[0] == STRUCTURE_INDICATOR)
      && (magic.value.hasMultipleFormats ==> ind[lead - 1] == MULTIPLE_INDICATOR)
      && ind[lead..lead + |findings|] == findings
  {
    var m := magic.value;
    var ind := ApiIndicators(magic, f);
    var lead := (if m.hasSuspiciousData then 1 else 0) + (if m.hasMultipleFormats then 1 else 0);
    var head := (if m.hasSuspiciousData then [STRUCTURE_INDICATOR] else []) + (if m.hasMultipleFormats then [MULTIPLE_INDICATOR] else []);
    assert |head| == lead;
    assert ind == head + m.suspiciousFindings + FormatIndicators(f);
    assert ind[lead..lead + |m.suspiciousFindings|] == m.suspiciousFindings;
  }

  /** Every detecting rule also pushes an indicator, so a detection is
      never reported with confidence "low"; with three or more indicators
      the confidence is "high". */
  lemma DetectionHasEvidence(magic: Option<Reports.MagicBytesReport>, f: FormatSpecificAnalysis)
    ensures var s := ApiSummary(magic, f);
      && (s.steganographyDetected ==> |s.threatIndicators| >= 1 && s.confidenceLevel != "low")
      && (s.confidenceLevel == "high" <==> |s.threatIndicators| >= 3)
      && (s.threatIndicators == [] ==> !s.steganographyDetected && s.confidenceLevel == "low")
  {
    var ind := ApiIndicators(magic, f);
    if ApiDetected(magic, f) {
      if magic.Some? && magic.value.hasSuspiciousData {
        assert MagicIndicators(magic)[0] == STRUCTURE_INDICATOR;
      } else {
        assert |FormatIndicators(f)| == 1;
      }
    }
  }

  /** Recommendations: exactly the three fixed strings when detected,
      otherwise exactly one. */
  lemma RecommendationCount(magic: Option<Reports.MagicBytesReport>, f: FormatSpecificAnalysis)
    ensures var s := ApiSummary(magic, f);
      |s.recommendations| == (if s.steganographyDetected then 3 else 1)
      && (!s.steganographyDetected ==> s.recommendations == ["No obvious steganography detected"])
  {
  }

  /** A file whose only evidence is a finding (an extension mismatch, say)
      is rated "medium" but not detected. */
  lemma FindingAloneNotDetected(m: Reports.MagicBytesReport, f: FormatSpecificAnalysis, finding: string)
    requires !m.hasSuspiciousData && !m.hasMultipleFormats && m.suspiciousFindings == [finding]
    requires f.Text? || f.Unknown?
    ensures var s := ApiSummary(Some(m), f);
      && !s.steganographyDetected && s.confidenceLevel == "medium" && s.threatIndicators == [finding]
      && s.recommendations == ["No obvious steganography detected"]
  {
    assert MagicIndicators(Some(m)) == [finding];
  }

  /** Without a magic report, a text or unknown analysis yields the empty,
      undetected summary. */
  lemma NoEvidenceSummary(f: FormatSpecificAnalysis)
    requires f.Text? || f.Unknown?
    ensures ApiSummary(None, f) == AnalysisSummary(false, "low", [], ["No obvious steganography detected"])
  {
  }

  /** Text and unknown analyses contribute nothing: the summary depends on
      the magic report alone. */
  lemma TextContributesNothing(magic: Option<Reports.MagicBytesReport>, t: Reports.TextAnalysis)
    ensures ApiSummary(magic, Text(t)) == ApiSummary(magic, Unknown)
  {
  }

  // =====================================================================
  // The video frame-sampling loop

  /** The loop over the frame iterator: counts decoded frames and decode
      errors, analyses every decoded frame whose index is a multiple of the
      rate and records it when the frame analysis reports LSB suspicion or
      a histogram anomaly. `idx % rate` panics when the rate is 0. */
  method SampleVideo(items: seq<FrameItem>, rate: nat, log2: real -> real) returns (r: Result<VideoAnalysis, ()>)
    requires FramesWellFormed(items)
    ensures !r.Err?
    ensures r.Panic? <==> SamplingPanics(items, rate)
    ensures r.Ok? ==> r.value == VideoAnalysis(DecodedCount(items), FailedCount(items), SuspiciousIndices(items, rate, log2))
  {
    var frameCount, errorCount := 0, 0;
    var suspiciousFrames: seq<nat> := [];
    for idx := 0 to |items|
      invariant forall j :: 0 <= j < idx ==> !PanicsAt(items, rate, j)
      invariant FramesWellFormed(items[..idx])
      invariant frameCount == DecodedCount(items[..idx]) && errorCount == FailedCount(items[..idx])
      invariant suspiciousFrames == SuspiciousIndices(items[..idx], rate, log2)
    {
      ItemStep(items, rate, log2, idx);
      match items[idx] {
        case Decoded(frame) =>
          frameCount := frameCount + 1;
          if rate == 0 {
            assert PanicsAt(items, rate, idx);
            return Panic;
          }
          if idx % rate == 0 {
            var analysis := VideoFrame.Analyze(frame, log2);
            if analysis.Panic? {
              assert PanicsAt(items, rate, idx);
              return Panic;
            }
            if analysis.value.lsbSuspicious || analysis.value.histogramAnomalies {
              suspiciousFrames := suspiciousFrames + [idx];
            }
          }
        case Failed(_) =>
          errorCount := errorCount + 1;
      }
    }
    assert items[..|items|] == items;
    return Ok(VideoAnalysis(frameCount, errorCount, suspiciousFrames));
  }

  /** A completed loop accounts for every item, and its suspicious frames
      are ascending multiples of the rate. */
  lemma SampledVideoAccounts(items: seq<FrameItem>, rate: nat, log2: real -> real)
    requires FramesWellFormed(items) && !SamplingPanics(items, rate)
    ensures var v := VideoAnalysis(DecodedCount(items), FailedCount(items), SuspiciousIndices(items, rate, log2));
      && v.framesProcessed + v.errorsEncountered == |items|
      && (forall k :: 0 <= k < |v.suspiciousFrames| ==> v.suspiciousFrames[k] < |items| && rate > 0 && v.suspiciousFrames[k] % rate == 0)
      && (forall k, l :: 0 <= k < l < |v.suspiciousFrames| ==> v.suspiciousFrames[k] < v.suspiciousFrames[l])
  {
    CountsCoverItems(items);
    SuspiciousIndicesExactly(items, rate, log2);
    var idx := SuspiciousIndices(items, rate, log2);
    forall k | 0 <= k < |idx| ensures idx[k] < |items| && rate > 0 && idx[k] % rate == 0 {
      assert SuspiciousAt(items, rate, log2, idx[k]);
      assert Sampled(items, rate, idx[k]);
    }
    var v := VideoAnalysis(DecodedCount(items), FailedCount(items), idx);
    assert forall k :: 0 <= k < |v.suspiciousFrames| ==> v.suspiciousFrames[k] < |items| && rate > 0 && v.suspiciousFrames[k] % rate == 0;
  }
}
