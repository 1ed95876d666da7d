/** The command-line tool's JSON report: its records, the report object
    with its constructor and two setters, and its evidence aggregator,
    which differs from the HTTP service's in its strings, in its detection
    rule and in the inputs that contribute. */
module CliReport {
  import opened Common
  import Reports
  import ApiAnalysis

  // =====================================================================
  // The extension of a path

  /** The index of the last occurrence of c in s. */
  function LastIndexOf(s: string, c: char): (k: Option<nat>)
    ensures k.None? <==> c !in s
    ensures k.Some? ==> k.value < |s| && s[k.value] == c && c !in s[k.value + 1..]
  {
    if s == [] then None
    else if s[|s| - 1] == c then Some(|s| - 1)
    else
      var k := LastIndexOf(s[..|s| - 1], c);
      assert s == s[..|s| - 1] + [s[|s| - 1]];
      if k.Some? then
        assert s[k.value + 1..] == s[..|s| - 1][k.value + 1..] + [s[|s| - 1]];
        k
      else k
  }

  /** The last component of a path: what follows its last `/`. */
  function FileName(path: string): (name: string)
    ensures '/' !in name
  {
    match LastIndexOf(path, '/')
    case None => path
    case Some(k) => path[k + 1..]
  }

  /** `Path::extension`: the text after the last dot of the file name,
      absent when there is no dot, when the only dot starts the name and
      for `..`. */
  function PathExtension(path: string): (ext: Option<string>)
    ensures ext.Some? ==> '.' !in ext.value && '/' !in ext.value
    ensures ext.Some? ==> exists stem :: |stem| > 0 && FileName(path) == stem + "." + ext.value
    ensures ext.None? <==> FileName(path) == ".." || '.' !in FileName(path) || LastIndexOf(FileName(path), '.') == Some(0)
  {
    var name := FileName(path);
    if name == ".." then None
    else
      match LastIndexOf(name, '.')
      case None => None
      case Some(k) =>
        if k == 0 then None
        else
          assert name == name[..k] + "." + name[k + 1..];
          Some(name[k + 1..])
  }

  // =====================================================================
  // Report records

  datatype FileInfo = FileInfo(path: string, sizeBytes: nat, detectedType: string, extension: Option<string>)

  datatype LsbReport = LsbReport(isSuspicious: bool, channels: seq<Reports.LsbChannelAnalysis>, outputFiles: seq<string>)

  datatype FilterAnalysisReport = FilterAnalysisReport(filtersGenerated: nat, outputFiles: seq<string>)

  datatype ImageAnalysis = ImageAnalysis(
    exifMetadata: Option<Reports.ExifReport>, lsbAnalysis: Option<LsbReport>, filterAnalysis: FilterAnalysisReport)

  datatype SpectrogramReport = SpectrogramReport(
    highFrequencyEnergy: real, hiddenMessageDetected: bool, suspiciousPatterns: seq<string>, outputFile: string)

  datatype AudioAnalysis = AudioAnalysis(
    sampleCount: nat, id3Analysis: Option<Reports.Id3Report>, spectrogramAnalysis: Option<SpectrogramReport>)

  /** The tool's video record: counts only, no suspicious frames. */
  datatype VideoAnalysis = VideoAnalysis(framesProcessed: nat, errorsEncountered: nat)

  datatype FormatSpecificAnalysis =
    | Image(image: ImageAnalysis)
    | Audio(audio: AudioAnalysis)
    | Video(video: VideoAnalysis)
    | Text(text: Reports.TextAnalysis)
    | Unknown

  datatype AnalysisSummary = AnalysisSummary(
    steganographyDetected: bool, confidenceLevel: string, threatIndicators: seq<string>, recommendations: seq<string>)

  // =====================================================================
  // The evidence rules

  const STRUCTURE_INDICATOR := "Suspicious data found in file structure"
  const MULTIPLE_INDICATOR := "Multiple file formats detected"
  const LSB_INDICATOR := "LSB analysis indicates possible hidden data"
  const EXIF_INDICATOR := "Suspicious EXIF metadata found"
  const SPECTROGRAM_INDICATOR := "Spectrogram analysis detected hidden patterns"
  const ID3_INDICATOR := "Suspicious ID3 metadata found"

  function MagicIndicators(magic: Option<Reports.MagicBytesReport>): seq<string> {
    match magic
    case None => []
    case Some(m) =>
      (if m.hasSuspiciousData then [STRUCTURE_INDICATOR] else [])
      + (if m.hasMultipleFormats then [MULTIPLE_INDICATOR] else [])
      + m.suspiciousFindings
  }

  /** Image: the LSB string, then the EXIF string. Audio: the spectrogram
      string, then the ID3 string. Nothing for the other analyses. */
  function FormatIndicators(f: FormatSpecificAnalysis): (s: seq<string>)
    ensures |s| <= 2
  {
    match f
    case Image(img) =>
      (if img.lsbAnalysis.Some? && img.lsbAnalysis.value.isSuspicious then [LSB_INDICATOR] else [])
      + (if img.exifMetadata.Some? && img.exifMetadata.value.suspiciousFields != [] then [EXIF_INDICATOR] else [])
    case Audio(a) =>
      (if a.spectrogramAnalysis.Some? && a.spectrogramAnalysis.value.hiddenMessageDetected then [SPECTROGRAM_INDICATOR] else [])
      + (if a.id3Analysis.Some? && a.id3Analysis.value.suspiciousFrames != [] then [ID3_INDICATOR] else [])
    case Video(_) => []
    case Text(_) => []
    case Unknown => []
  }

  function CliIndicators(magic: Option<Reports.MagicBytesReport>, f: FormatSpecificAnalysis): seq<string> {
    MagicIndicators(magic) + FormatIndicators(f)
  }

  /** Structure suspicion, any finding, LSB suspicion or a hidden
      spectrogram message; the EXIF and ID3 strings never detect. */
  predicate MagicDetected(magic: Option<Reports.MagicBytesReport>) {
    magic.Some? && (magic.value.hasSuspiciousData || magic.value.suspiciousFindings != [])
  }

  predicate FormatDetected(f: FormatSpecificAnalysis) {
    || (f.Image? && f.image.lsbAnalysis.Some? && f.image.lsbAnalysis.value.isSuspicious)
    || (f.Audio? && f.audio.spectrogramAnalysis.Some? && f.audio.spectrogramAnalysis.value.hiddenMessageDetected)
  }

  predicate CliDetected(magic: Option<Reports.MagicBytesReport>, f: FormatSpecificAnalysis) {
    MagicDetected(magic) || FormatDetected(f)
  }

  function CliRecommendations(detected: bool): seq<string> {
    if detected then
      ["Further investigation recommended", "Consider using specialized steganography tools",
       "Verify file source and integrity"]
    else ["No obvious steganography detected", "File appears to be clean"]
  }

  function CliSummary(magic: Option<Reports.MagicBytesReport>, f: FormatSpecificAnalysis): AnalysisSummary {
    var indicators := CliIndicators(magic, f);
    AnalysisSummary(CliDetected(magic, f), Reports.ConfidenceLevel(|indicators|), indicators,
                    CliRecommendations(CliDetected(magic, f)))
  }

  // =====================================================================
  // The report object

  class SteganalysisReport {
    var fileInfo: FileInfo
    var magicBytesAnalysis: Option<Reports.MagicBytesReport>
    var formatSpecificAnalysis: FormatSpecificAnalysis
    var timestamp: string
    var summary: AnalysisSummary

    /** `SteganalysisReport::new`: the extension comes from the path; no
        magic report, an unknown format analysis and an empty, undetected
        summary of confidence "low". The timestamp is the clock reading
        passed in. */
    constructor (path: string, fileSize: nat, detectedType: string, now: string)
      ensures fileInfo == FileInfo(path, fileSize, detectedType, PathExtension(path))
      ensures magicBytesAnalysis.None? && formatSpecificAnalysis.Unknown? && timestamp == now
      ensures summary == AnalysisSummary(false, "low", [], [])
    {
      fileInfo := FileInfo(path, fileSize, detectedType, PathExtension(path));
      magicBytesAnalysis := None;
      formatSpecificAnalysis := Unknown;
      timestamp := now;
      summary := AnalysisSummary(false, "low", [], []);
    }

    method SetMagicBytesAnalysis(analysis: Reports.MagicBytesReport)
      modifies this
      ensures magicBytesAnalysis == Some(analysis)
      ensures fileInfo == old(fileInfo) && formatSpecificAnalysis == old(formatSpecificAnalysis)
      ensures timestamp == old(timestamp) && summary == old(summary)
    {
      magicBytesAnalysis := Some(analysis);
    }

    method SetFormatAnalysis(analysis: FormatSpecificAnalysis)
      modifies this
      ensures formatSpecificAnalysis == analysis
      ensures fileInfo == old(fileInfo) && magicBytesAnalysis == old(magicBytesAnalysis)
      ensures timestamp == old(timestamp) && summary == old(summary)
    {
      formatSpecificAnalysis := analysis;
    }

    /** `finalize_summary`: collects the indicators by pushes, raising the
        detected flag on the way, and replaces the summary and nothing
        else. */
    method FinalizeSummary()
      modifies this
      ensures summary == CliSummary(magicBytesAnalysis, formatSpecificAnalysis)
      ensures fileInfo == old(fileInfo) && magicBytesAnalysis == old(magicBytesAnalysis)
      ensures formatSpecificAnalysis == old(formatSpecificAnalysis) && timestamp == old(timestamp)
    {
      var indicators, detected := CollectMagic(magicBytesAnalysis);
      indicators, detected := CollectFormat(formatSpecificAnalysis, indicators, detected);
      var confidence := if |indicators| >= 3 then "high" else if |indicators| >= 1 then "medium" else "low";
      var recommendations := PushRecommendations(detected);
      summary := AnalysisSummary(detected, confidence, indicators, recommendations);
    }
  }

  /** The recommendation pushes of `finalize_summary`. */
  method PushRecommendations(detected: bool) returns (recommendations: seq<string>)
    ensures recommendations == CliRecommendations(detected)
  {
    recommendations := [];
    if detected {
      recommendations := recommendations + ["Further investigation recommended"];
      recommendations := recommendations + ["Consider using specialized steganography tools"];
      recommendations := recommendations + ["Verify file source and integrity"];
    } else {
      recommendations := recommendations + ["No obvious steganography detected"];
      recommendations := recommendations + ["File appears to be clean"];
    }
  }

  /** The magic-bytes part of `finalize_summary`. */
  method CollectMagic(magic: Option<Reports.MagicBytesReport>) returns (indicators: seq<string>, detected: bool)
    ensures indicators == MagicIndicators(magic)
    ensures detected == MagicDetected(magic)
  {
    indicators, detected := [], false;
    if magic.Some? {
      if magic.value.hasSuspiciousData {
        detected := true;
        indicators := indicators + [STRUCTURE_INDICATOR];
      }
      if magic.value.hasMultipleFormats {
        indicators := indicators + [MULTIPLE_INDICATOR];
      }
      if magic.value.suspiciousFindings != [] {
        detected := true;
        indicators := indicators + magic.value.suspiciousFindings;
      }
    }
  }

  /** The format-specific part of `finalize_summary`. */
  method CollectFormat(f: FormatSpecificAnalysis, indicators0: seq<string>, detected0: bool)
    returns (indicators: seq<string>, detected: bool)
    ensures indicators == indicators0 + FormatIndicators(f)
    ensures detected <==> detected0 || FormatDetected(f)
  {
    indicators, detected := indicators0, detected0;
    match f {
      case Image(img) =>
        if img.lsbAnalysis.Some? && img.lsbAnalysis.value.isSuspicious {
          detected := true;
          indicators := indicators + [LSB_INDICATOR];
        }
        if img.exifMetadata.Some? && img.exifMetadata.value.suspiciousFields != [] {
          indicators := indicators + [EXIF_INDICATOR];
        }
      case Audio(audio) =>
        if audio.spectrogramAnalysis.Some? && audio.spectrogramAnalysis.value.hiddenMessageDetected {
          detected := true;
          indicators := indicators + [SPECTROGRAM_INDICATOR];
        }
        if audio.id3Analysis.Some? && audio.id3Analysis.value.suspiciousFrames != [] {
          indicators := indicators + [ID3_INDICATOR];
        }
      case Video(_) =>
      case Text(_) =>
      case Unknown =>
    }
  }

  // =====================================================================
  // Properties of the summary

  /** The path of the report created in the tests, `/test/file.png`, has
      the extension `png`. */
  lemma NewReportExample()
    ensures PathExtension("/test/file.png") == Some("png")
  {
    SlashInTestPath();
    assert FileName("/test/file.png") == "file.png";
    DotInFileName();
  }

  lemma SlashInTestPath()
    ensures LastIndexOf("/test/file.png", '/') == Some(5)
  {
    var path := "/test/file.png";
    LastIndexOfSkips(path, '/', 6);
    assert path[..6] == "/test/";
  }

  lemma DotInFileName()
    ensures LastIndexOf("file.png", '.') == Some(4)
  {
    var name := "file.png";
    LastIndexOfSkips(name, '.', 5);
    assert name[..5] == "file.";
  }

  /** Characters after position n other than `c` do not move its last
      occurrence. */
  lemma {:induction false} LastIndexOfSkips(s: string, c: char, n: nat)
    requires n <= |s| && c !in s[n..]
    ensures LastIndexOf(s, c) == LastIndexOf(s[..n], c)
    decreases |s| - n
  {
    if n < |s| {
      var init := s[..|s| - 1];
      assert s[|s| - 1] in s[n..];
      assert init[n..] == s[n..|s| - 1];
      LastIndexOfSkips(init, c, n);
      assert init[..n] == s[..n];
    } else {
      assert s[..n] == s;
    }
  }

  /** Every detecting rule also pushes an indicator, so a detection is
      never reported with confidence "low". */
  lemma CliDetectionHasEvidence(magic: Option<Reports.MagicBytesReport>, f: FormatSpecificAnalysis)
    ensures var s := CliSummary(magic, f);
      && (s.steganographyDetected ==> |s.threatIndicators| >= 1 && s.confidenceLevel != "low")
      && (s.threatIndicators == [] ==> !s.steganographyDetected && s.confidenceLevel == "low")
  {
    if CliDetected(magic, f) {
      if MagicDetected(magic) {
        if magic.value.hasSuspiciousData {
          assert MagicIndicators(magic)[0] == STRUCTURE_INDICATOR;
        } else {
          assert |MagicIndicators(magic)| >= |magic.value.suspiciousFindings| > 0;
        }
      } else {
        assert |FormatIndicators(f)| >= 1;
      }
    }
  }

  /** The EXIF and ID3 strings change the indicators but never the
      detected flag: dropping those reports leaves it as it was. */
  lemma MetadataNeverDetects(magic: Option<Reports.MagicBytesReport>, img: ImageAnalysis, audio: AudioAnalysis)
    ensures CliSummary(magic, Image(img)).steganographyDetected
            == CliSummary(magic, Image(img.(exifMetadata := None))).steganographyDetected
    ensures CliSummary(magic, Audio(audio)).steganographyDetected
            == CliSummary(magic, Audio(audio.(id3Analysis := None))).steganographyDetected
  {
  }

  /** An image whose only evidence is suspicious EXIF data is rated
      "medium" but not detected. */
  lemma ExifAloneNotDetected(exif: Reports.ExifReport, filter: FilterAnalysisReport)
    requires exif.suspiciousFields != []
    ensures var s := CliSummary(None, Image(ImageAnalysis(Some(exif), None, filter)));
      && !s.steganographyDetected && s.threatIndicators == [EXIF_INDICATOR] && s.confidenceLevel == "medium"
  {
  }

  /** Video and text analyses add nothing: the summary depends on the
      magic report alone. */
  lemma VideoAndTextAddNothing(magic: Option<Reports.MagicBytesReport>, v: VideoAnalysis, t: Reports.TextAnalysis)
    ensures CliSummary(magic, Video(v)) == CliSummary(magic, Unknown)
    ensures CliSummary(magic, Text(t)) == CliSummary(magic, Unknown)
  {
  }

  /** Three recommendations when detected, otherwise two. */
  lemma CliRecommendationCount(magic: Option<Reports.MagicBytesReport>, f: FormatSpecificAnalysis)
    ensures var s := CliSummary(magic, f);
      |s.recommendations| == (if s.steganographyDetected then 3 else 2)
  {
  }

  /** The two aggregators disagree on a file whose only evidence is a
      finding: the tool reports it detected, the service does not, and
      both rate it "medium". */
  lemma FindingOnlyDisagreement(m: Reports.MagicBytesReport, finding: string)
    requires !m.hasSuspiciousData && !m.hasMultipleFormats && m.suspiciousFindings == [finding]
    ensures CliSummary(Some(m), Unknown).steganographyDetected
    ensures !ApiAnalysis.ApiSummary(Some(m), ApiAnalysis.Unknown).steganographyDetected
    ensures CliSummary(Some(m), Unknown).confidenceLevel == "medium"
            == ApiAnalysis.ApiSummary(Some(m), ApiAnalysis.Unknown).confidenceLevel
  {
    assert MagicIndicators(Some(m)) == [finding];
    assert ApiAnalysis.MagicIndicators(Some(m)) == [finding];
  }
}
