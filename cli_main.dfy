/** The command-line tool's driver: its file classification, which falls
    back on the `wma` extension, the video loop with its per-frame tally,
    and the order in which the report is built, including which parse
    errors abort the run. */
module CliMain {
  import opened Common
  import Reports
  import MagicBytes
  import VideoFrame
  import Lsb
  import opened VideoSampling
  import ApiAnalysis
  import CliReport

  // =====================================================================
  // File type

  /** No MIME type was detected, or it has none of the five prefixes the
      match tests. */
  predicate FallsThrough(mime: Option<string>) {
    mime.None? ||
    !(|| StartsWith(mime.value, "audio/") || StartsWith(mime.value, "video/") || StartsWith(mime.value, "text/")
      || StartsWith(mime.value, "application/") || StartsWith(mime.value, "image/"))
  }

  /** `process_file`: the MIME match, where an unmatched or undetected type
      is audio exactly when the path's extension is `wma` (case matters). */
  function ClassifyFile(mime: Option<string>, path: string): (t: ApiAnalysis.FileType)
    ensures FallsThrough(mime) ==> (t == ApiAnalysis.AudioFile <==> CliReport.PathExtension(path) == Some("wma"))
    ensures FallsThrough(mime) && t != ApiAnalysis.AudioFile ==> t == ApiAnalysis.TextFile
    ensures !FallsThrough(mime) ==> t == ApiAnalysis.ClassifyMime(mime)
  {
    var wma := CliReport.PathExtension(path) == Some("wma");
    if mime.None? then (if wma then ApiAnalysis.AudioFile else ApiAnalysis.TextFile)
    else
      var m := mime.value;
      if StartsWith(m, "audio/") then ApiAnalysis.AudioFile
      else if StartsWith(m, "video/") then ApiAnalysis.VideoFile
      else if StartsWith(m, "text/") || StartsWith(m, "application/") then ApiAnalysis.TextFile
      else if StartsWith(m, "image/") then ApiAnalysis.ImageFile
      else if wma then ApiAnalysis.AudioFile
      else ApiAnalysis.TextFile
  }

  /** The tool and the service classify alike except on the `wma`
      fallback, where the service says text and the tool says audio. */
  lemma ClassificationsDiffer(mime: Option<string>, path: string)
    ensures ClassifyFile(mime, path) != ApiAnalysis.ClassifyMime(mime) <==>
      FallsThrough(mime) && CliReport.PathExtension(path) == Some("wma")
    ensures ClassifyFile(mime, path) != ApiAnalysis.ClassifyMime(mime) ==>
      ClassifyFile(mime, path) == ApiAnalysis.AudioFile && ApiAnalysis.ClassifyMime(mime) == ApiAnalysis.TextFile
  {
    if FallsThrough(mime) {
      assert ApiAnalysis.ClassifyMime(mime) == ApiAnalysis.TextFile;
    }
  }

  // =====================================================================
  // The video loop

  /** What the loop leaves behind: the counts it reports, and the analysed
      count, suspicious indices and average entropy it prints. */
  datatype VideoTally = VideoTally(
    frameCount: nat, errorCount: nat, framesAnalyzed: nat, suspiciousFrameIndices: seq<nat>, averageEntropy: real)

  /** `iter().sum::<f64>()`. */
  function Sum(xs: seq<real>): real {
    if xs == [] then 0.0 else xs[0] + Sum(xs[1..])
  }

  lemma SumOfThree(xs: seq<real>)
    requires |xs| == 3
    ensures Sum(xs) == xs[0] + xs[1] + xs[2]
  {
    var rest := xs[1..];
    assert Sum(rest[1..]) == rest[1..][0] + Sum(rest[1..][1..]);
    assert rest[1..][1..] == [];
  }

  /** The mean of the analysed frames' mean entropies; 0 when no frame was
      analysed. */
  function AverageEntropy(items: seq<FrameItem>, rate: nat, log2: real -> real): real {
    var n := SampledCount(items, rate);
    if n > 0 then EntropyTotal(items, rate, log2) / (n as real) else 0.0
  }

  /** The loop of `main`: besides the service's counters it counts the
      analysed frames and sums their mean entropies. `idx % rate` panics
      when the rate is 0. */
  method SampleVideo(items: seq<FrameItem>, rate: nat, log2: real -> real) returns (r: Result<VideoTally, ()>)
    requires FramesWellFormed(items)
    ensures !r.Err?
    ensures r.Panic? <==> SamplingPanics(items, rate)
    ensures r.Ok? ==> r.value == VideoTally(DecodedCount(items), FailedCount(items), SampledCount(items, rate),
                                            SuspiciousIndices(items, rate, log2), AverageEntropy(items, rate, log2))
  {
    var frameCount, errorCount, framesAnalyzed := 0, 0, 0;
    var totalEntropy := 0.0;
    var suspiciousFrameIndices: seq<nat> := [];
    for idx := 0 to |items|
      invariant forall j :: 0 <= j < idx ==> !PanicsAt(items, rate, j)
      invariant FramesWellFormed(items[..idx])
      invariant frameCount == DecodedCount(items[..idx]) && errorCount == FailedCount(items[..idx])
      invariant framesAnalyzed == SampledCount(items[..idx], rate)
      invariant totalEntropy == EntropyTotal(items[..idx], rate, log2)
      invariant suspiciousFrameIndices == SuspiciousIndices(items[..idx], rate, log2)
    {
      ItemStep(items, rate, log2, idx);
      match items[idx] {
        case Decoded(frame) =>
          frameCount := frameCount + 1;
          if rate == 0 {
            assert PanicsAt(items, rate, idx);
            return Panic;
          }
          if idx % rate == 0 {
            var analysis := AnalyseFrame(frame, log2);
            if analysis.Panic? {
              assert PanicsAt(items, rate, idx);
              return Panic;
            }
            framesAnalyzed := framesAnalyzed + 1;
            totalEntropy := totalEntropy + analysis.value.meanEntropy;
            if analysis.value.suspicious {
              suspiciousFrameIndices := suspiciousFrameIndices + [idx];
            }
          }
        case Failed(_) =>
          errorCount := errorCount + 1;
      }
    }
    assert items[..|items|] == items;
    var averageEntropy := if framesAnalyzed > 0 then totalEntropy / (framesAnalyzed as real) else 0.0;
    return Ok(VideoTally(frameCount, errorCount, framesAnalyzed, suspiciousFrameIndices, averageEntropy));
  }

  /** What the loop takes from one frame analysis. */
  datatype FrameVerdict = FrameVerdict(meanEntropy: real, suspicious: bool)

  /** The body of the loop for a sampled frame: the average of the frame's
      entropy scores and its `lsb_suspicious || histogram_anomalies`. */
  method AnalyseFrame(frame: RgbaImage, log2: real -> real) returns (r: Result<FrameVerdict, ()>)
    requires frame.WellFormed()
    ensures !r.Err?
    ensures r.Panic? <==> VideoFrame.EdgeDensitySpec(frame).Panic?
    ensures r.Ok? ==> r.value.meanEntropy == MeanEntropy(frame, log2)
                      && (r.value.suspicious <==> VideoFrame.FrameSuspicious(frame, log2))
  {
    var analysis := VideoFrame.Analyze(frame, log2);
    if analysis.Panic? {
      return Panic;
    }
    var scores := analysis.value.entropyScores;
    MeanOfScores(frame, log2, scores);
    var mean := Sum(scores) / (|scores| as real);
    var suspicious := analysis.value.lsbSuspicious || analysis.value.histogramAnomalies;
    return Ok(FrameVerdict(mean, suspicious));
  }

  lemma MeanOfScores(frame: RgbaImage, log2: real -> real, scores: seq<real>)
    requires |scores| == 3
    requires forall c :: 0 <= c < 3 ==> scores[c] == Lsb.EntropySpec(Lsb.ExtractLsbPlane(frame, c), log2)
    ensures Sum(scores) / (|scores| as real) == MeanEntropy(frame, log2)
  {
    SumOfThree(scores);
    assert scores[0] == Lsb.EntropySpec(Lsb.ExtractLsbPlane(frame, 0), log2);
    assert scores[1] == Lsb.EntropySpec(Lsb.ExtractLsbPlane(frame, 1), log2);
    assert scores[2] == Lsb.EntropySpec(Lsb.ExtractLsbPlane(frame, 2), log2);
  }

  /** The report's video record: the counters alone. */
  function VideoReport(t: VideoTally): (v: CliReport.VideoAnalysis)
    ensures v.framesProcessed == t.frameCount && v.errorsEncountered == t.errorCount
  {
    CliReport.VideoAnalysis(t.frameCount, t.errorCount)
  }

  /** A completed loop: the counters cover every item, no more frames are
      analysed than decoded, every suspicious index is an analysed frame
      (so their number is at most the analysed count), and the average is
      0 when nothing was analysed. */
  lemma TallyProperties(items: seq<FrameItem>, rate: nat, log2: real -> real)
    requires FramesWellFormed(items) && !SamplingPanics(items, rate)
    ensures var t := VideoTally(DecodedCount(items), FailedCount(items), SampledCount(items, rate),
                                SuspiciousIndices(items, rate, log2), AverageEntropy(items, rate, log2));
      && t.frameCount + t.errorCount == |items|
      && t.framesAnalyzed <= t.frameCount
      && |t.suspiciousFrameIndices| <= t.framesAnalyzed
      && (forall k :: 0 <= k < |t.suspiciousFrameIndices| ==>
            t.suspiciousFrameIndices[k] < |items| && Sampled(items, rate, t.suspiciousFrameIndices[k]))
      && (t.framesAnalyzed == 0 ==> t.averageEntropy == 0.0)
  {
    CountsCoverItems(items);
    SuspiciousIndicesExactly(items, rate, log2);
    SuspiciousAmongSampled(items, rate, log2);
  }

  // =====================================================================
  // The run

  /** The format-specific stage: the analysis record the parser's success
      leads to, the parser's error, or a panic inside the stage (such as
      `idx % 0` for a zero sample rate, or an `unwrap` on a failed image
      save). */
  datatype FormatOutcome =
    | Parsed(analysis: CliReport.FormatSpecificAnalysis)
    | ParseFailed(message: string)
    | StagePanicked

  /** The record kind the stage produces for each file type. */
  predicate Fits(t: ApiAnalysis.FileType, a: CliReport.FormatSpecificAnalysis) {
    match t
    case AudioFile => a.Audio?
    case VideoFile => a.Video?
    case TextFile => a.Text?
    case ImageFile => a.Image?
  }

  /** The report `main` builds and finalizes: the magic report when that
      analysis succeeded, and the format record when parsing succeeded. An
      image that fails to parse is skipped and leaves the format Unknown;
      any other parse error ends the run with that error and no report. A
      panicking magic analysis or format stage ends it in a panic. */
  method Run(path: string, fileSize: nat, mime: Option<string>, now: string,
             magic: Result<MagicBytes.MagicBytesAnalysis, MagicBytes.MagicBytesError>, outcome: FormatOutcome)
    returns (r: Result<CliReport.SteganalysisReport, string>)
    requires outcome.Parsed? ==> Fits(ClassifyFile(mime, path), outcome.analysis)
    ensures r.Panic? <==> magic.Panic? || outcome.StagePanicked?
    ensures r.Err? <==> !magic.Panic? && outcome.ParseFailed? && ClassifyFile(mime, path) != ApiAnalysis.ImageFile
    ensures r.Err? ==> r.error == outcome.message
    ensures r.Ok? ==>
      var report := r.value;
      var magicReport := if magic.Ok? then Some(Reports.MagicBytesReportOf(magic.value)) else None;
      var format := if outcome.Parsed? then outcome.analysis else CliReport.Unknown;
      && fresh(report)
      && report.fileInfo == CliReport.FileInfo(path, fileSize, ApiAnalysis.DetectedType(ClassifyFile(mime, path)),
                                               CliReport.PathExtension(path))
      && report.magicBytesAnalysis == magicReport
      && report.formatSpecificAnalysis == format
      && report.summary == CliReport.CliSummary(magicReport, format)
  {
    var fileType := ClassifyFile(mime, path);
    var report := new CliReport.SteganalysisReport(path, fileSize, ApiAnalysis.DetectedType(fileType), now);
    match magic {
      case Ok(analysis) => report.SetMagicBytesAnalysis(Reports.MagicBytesReportOf(analysis));
      case Err(_) =>
      case Panic => return Panic;
    }
    match outcome {
      case Parsed(analysis) => report.SetFormatAnalysis(analysis);
      case ParseFailed(message) =>
        if fileType != ApiAnalysis.ImageFile {
          return Err(message);
        }
      case StagePanicked => return Panic;
    }
    report.FinalizeSummary();
    return Ok(report);
  }
}
