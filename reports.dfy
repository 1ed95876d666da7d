/** The report records that both front ends (the HTTP service and the
    command-line tool) build from the analysers' results, and the rules
    they share: the field-by-field conversions, the channel names of the
    LSB report and the indicator-count confidence scale. */
module Reports {
  import opened Common
  import MagicBytes
  import Exif
  import Id3
  import TextParser

  datatype FormatSummaryReport = FormatSummaryReport(
    images: nat, audio: nat, video: nat, textDocuments: nat, archives: nat, executables: nat, other: nat)

  datatype EmbeddedFileInfo = EmbeddedFileInfo(
    offset: nat, offsetHex: string, description: string, fileType: string, confidence: string)

  datatype MagicBytesReport = MagicBytesReport(
    primaryFormat: string, expectedFormat: Option<string>, totalSignaturesFound: nat,
    hasMultipleFormats: bool, hasSuspiciousData: bool, formatSummary: FormatSummaryReport,
    embeddedFiles: seq<EmbeddedFileInfo>, suspiciousFindings: seq<string>)

  /** The tally under the report's field names. */
  function SummaryReport(s: MagicBytes.FormatSummary): (r: FormatSummaryReport)
    ensures r.images == MagicBytes.Count(s, MagicBytes.Image) && r.audio == MagicBytes.Count(s, MagicBytes.Audio)
    ensures r.video == MagicBytes.Count(s, MagicBytes.Video)
    ensures r.textDocuments == MagicBytes.Count(s, MagicBytes.TextDocument)
    ensures r.archives == MagicBytes.Count(s, MagicBytes.Archive)
    ensures r.executables == MagicBytes.Count(s, MagicBytes.Executable)
    ensures r.other == MagicBytes.Count(s, MagicBytes.Other)
    ensures r.images + r.audio + r.video + r.textDocuments + r.archives + r.executables + r.other
            == MagicBytes.Total(s)
  {
    FormatSummaryReport(s.image, s.audio, s.video, s.text, s.archive, s.executable, s.other)
  }

  /** One entry with its offset also written `0x` and upper-case hex. */
  function EmbeddedInfo(f: MagicBytes.EmbeddedFile): (e: EmbeddedFileInfo)
    ensures e.offset == f.offset && e.offsetHex == "0x" + HexUpper(f.offset)
  {
    EmbeddedFileInfo(f.offset, "0x" + HexUpper(f.offset), f.description, f.fileType, f.confidence)
  }

  function EmbeddedInfos(files: seq<MagicBytes.EmbeddedFile>): (infos: seq<EmbeddedFileInfo>)
    ensures |infos| == |files|
    ensures forall i :: 0 <= i < |files| ==> infos[i] == EmbeddedInfo(files[i])
  {
    if files == [] then [] else [EmbeddedInfo(files[0])] + EmbeddedInfos(files[1..])
  }

  /** The `MagicBytesReport` built from an analysis, field by field. */
  function MagicBytesReportOf(a: MagicBytes.MagicBytesAnalysis): (r: MagicBytesReport)
    ensures r.hasSuspiciousData == a.hasSuspiciousData && r.hasMultipleFormats == a.hasMultipleFormats
    ensures r.suspiciousFindings == a.suspiciousFindings
    ensures |r.embeddedFiles| == |a.embeddedFiles|
    ensures forall i :: 0 <= i < |a.embeddedFiles| ==> r.embeddedFiles[i].offset == a.embeddedFiles[i].offset
  {
    MagicBytesReport(a.primaryFormat, a.expectedFormat, a.totalSignaturesFound, a.hasMultipleFormats,
                     a.hasSuspiciousData, SummaryReport(a.formatSummary), EmbeddedInfos(a.embeddedFiles),
                     a.suspiciousFindings)
  }

  /** The report of an analysis whose tally and total come from its entry
      list, as `analyze` builds them, counts every entry once: its seven
      counters sum to the number of entries. */
  lemma ReportCountsEveryEntry(a: MagicBytes.MagicBytesAnalysis)
    requires a.formatSummary == MagicBytes.Tally(a.embeddedFiles) && a.totalSignaturesFound == |a.embeddedFiles|
    ensures var r := MagicBytesReportOf(a);
      r.formatSummary.images + r.formatSummary.audio + r.formatSummary.video + r.formatSummary.textDocuments
      + r.formatSummary.archives + r.formatSummary.executables + r.formatSummary.other
      == r.totalSignaturesFound == |r.embeddedFiles|
  {
    MagicBytes.TallyTotal(a.embeddedFiles);
  }

  /** `analyze` builds its tally and total from the entry list it reports. */
  lemma ReportFromEntries(data: seq<byte>, extension: Option<string>, files: seq<MagicBytes.EmbeddedFile>)
    ensures var a := MagicBytes.Report(data, extension, files);
      a.embeddedFiles == files && a.formatSummary == MagicBytes.Tally(files) && a.totalSignaturesFound == |files|
  {
  }

  datatype ExifReport = ExifReport(
    fieldsFound: nat, hasThumbnail: bool, thumbnailSizeBytes: Option<nat>, commentFields: seq<string>,
    suspiciousFields: seq<string>, metadata: map<string, string>)

  /** The EXIF report: `fields_found` is the number of distinct tag names. */
  function ExifReportOf(d: Exif.ExifData): (r: ExifReport)
    ensures r.fieldsFound == |d.metadata.Keys| && r.suspiciousFields == d.suspiciousFields
  {
    ExifReport(|d.metadata|, d.hasThumbnail, d.thumbnailSize, d.commentFields, d.suspiciousFields, d.metadata)
  }

  datatype Id3Report = Id3Report(
    title: Option<string>, artist: Option<string>, album: Option<string>, year: Option<int>,
    commentsCount: nat, picturesCount: nat, privateFramesCount: nat, suspiciousFrames: seq<string>)

  /** The ID3 report keeps the counts of comments, pictures and private
      frames and the flags verbatim. */
  function Id3ReportOf(d: Id3.Id3Data): (r: Id3Report)
    ensures r.commentsCount == |d.comments| && r.picturesCount == |d.pictures|
    ensures r.privateFramesCount == |d.privateFrames| && r.suspiciousFrames == d.suspiciousFrames
  {
    Id3Report(d.title, d.artist, d.album, d.year, |d.comments|, |d.pictures|, |d.privateFrames|, d.suspiciousFrames)
  }

  datatype TextAnalysis = TextAnalysis(
    fileType: string, lineCount: nat, wordCount: nat, characterCount: nat, sizeBytes: nat)

  function TextAnalysisOf(t: TextParser.TextContent): TextAnalysis {
    TextAnalysis(t.fileType, t.lineCount, t.wordCount, t.charCount, t.byteSize)
  }

  datatype LsbChannelAnalysis = LsbChannelAnalysis(channelName: string, chiSquareScore: Score, entropyScore: real)

  function ChannelName(i: nat): string {
    if i == 0 then "Red" else if i == 1 then "Green" else if i == 2 then "Blue" else "Unknown"
  }

  /** The per-channel rows: one per chi-square score, named by position and
      paired with the entropy at the same position. */
  function LsbChannels(chi: seq<Score>, entropy: seq<real>): (rows: seq<LsbChannelAnalysis>)
    requires |chi| <= |entropy|
    ensures |rows| == |chi|
    ensures forall i :: 0 <= i < |chi| ==> rows[i] == LsbChannelAnalysis(ChannelName(i), chi[i], entropy[i])
  {
    if chi == [] then []
    else
      var n := |chi| - 1;
      LsbChannels(chi[..n], entropy) + [LsbChannelAnalysis(ChannelName(n), chi[n], entropy[n])]
  }

  /** The confidence scale of both summaries. */
  function ConfidenceLevel(indicators: nat): (level: string)
    ensures level == "high" <==> indicators >= 3
    ensures level == "medium" <==> 1 <= indicators <= 2
    ensures level == "low" <==> indicators == 0
  {
    if indicators >= 3 then "high" else if indicators >= 1 then "medium" else "low"
  }
}
