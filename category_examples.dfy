/** Worked examples of the description rules of the magic-byte analyser:
    the categories and complete-header verdicts the repository's tests
    expect, and those of the descriptions the manual scan emits. */
module CategoryExamples {
  import opened Common
  import opened MagicBytes

  /** Every keyword from position i on, except the one at `skip`, holds a
      letter (its entry in `w`) that d lacks; on literals this evaluates
      keyword by keyword. */
  predicate LacksFrom(d: string, kws: seq<string>, w: string, skip: nat, i: nat)
    requires |w| == |kws|
    decreases |kws| - i
  {
    i >= |kws| || ((i == skip || (w[i] in kws[i] && w[i] !in d)) && LacksFrom(d, kws, w, skip, i + 1))
  }

  lemma {:induction false} LacksFromAt(d: string, kws: seq<string>, w: string, skip: nat, k: nat, i: nat)
    requires |w| == |kws| && k <= i < |kws| && i != skip && LacksFrom(d, kws, w, skip, k)
    ensures w[i] in kws[i] && w[i] !in d
    decreases i - k
  {
    if k < i {
      LacksFromAt(d, kws, w, skip, k + 1, i);
    }
  }

  /** A needle holding a letter the text lacks does not occur in it. */
  lemma LacksLetter(d: string, k: string, c: char)
    requires c in k && c !in d
    ensures !Contains(d, k)
  {
    ContainsIff(d, k);
    var j :| 0 <= j < |k| && k[j] == c;
    forall at | 0 <= at && at + |k| <= |d| ensures !OccursAt(d, k, at) {
      assert d[at..at + |k|][j] == d[at + j];
    }
  }

  lemma NotMentionedExcept(d: string, kws: seq<string>, w: string, skip: nat)
    requires |w| == |kws| && LacksFrom(d, kws, w, skip, 0)
    ensures forall i :: 0 <= i < |kws| && i != skip ==> !Contains(d, kws[i])
  {
    forall i | 0 <= i < |kws| && i != skip ensures !Contains(d, kws[i]) {
      LacksFromAt(d, kws, w, skip, 0, i);
      LacksLetter(d, kws[i], w[i]);
    }
  }

  lemma NotMentioned(d: string, kws: seq<string>, w: string, skip: nat)
    requires |w| == |kws| && LacksFrom(d, kws, w, skip, 0)
    requires skip < |kws| ==> NoMatchFrom(d, kws[skip], 0)
    ensures !MentionsAny(d, kws)
  {
    NotMentionedExcept(d, kws, w, skip);
    if skip < |kws| {
      NoMatchNotContains(d, kws[skip]);
    }
  }

  /** A keyword that occurs at a known position is mentioned. */
  lemma MentionedAt(d: string, kws: seq<string>, k: nat, at: nat)
    requires k < |kws| && OccursAt(d, kws[k], at)
    ensures MentionsAny(d, kws)
  {
    ContainsIff(d, kws[k]);
  }

  // The literal facts, evaluated by the solver letter by letter (long ones
  // from their middle first): each description's lower-cased form, and for
  // each keyword list it does not mention, a letter of every keyword that
  // the description lacks. The keyword at `skip`, if any, shares all its
  // letters with the description and is searched for position by position.

  lemma JpegImageDataLowerTail()
    ensures LowersFrom("JPEG image data", "jpeg image data", 8)
  {
  }

  lemma JpegImageDataLower()
    ensures LowersFrom("JPEG image data", "jpeg image data", 0)
  {
    JpegImageDataLowerTail();
  }

  lemma PngImageDataLowerTail()
    ensures LowersFrom("PNG image data", "png image data", 8)
  {
  }

  lemma PngImageDataLower()
    ensures LowersFrom("PNG image data", "png image data", 0)
  {
    PngImageDataLowerTail();
  }

  lemma PngImageHeaderLowerTail()
    ensures LowersFrom("PNG image header", "png image header", 8)
  {
  }

  lemma PngImageHeaderLower()
    ensures LowersFrom("PNG image header", "png image header", 0)
  {
    PngImageHeaderLowerTail();
  }

  lemma Mp3AudioLower()
    ensures LowersFrom("MP3 audio", "mp3 audio", 0)
  {
  }

  lemma Mp3AudioImageLetters()
    ensures LacksFrom("mp3 audio", IMAGE_KEYWORDS, "jngbtwg", 7, 0)
  {
  }

  lemma Mp4VideoLower()
    ensures LowersFrom("MP4 video", "mp4 video", 0)
  {
  }

  lemma Mp4VideoImageLetters()
    ensures LacksFrom("mp4 video", IMAGE_KEYWORDS, "jngbtwa", 7, 0)
  {
  }

  lemma Mp4VideoAudioLetters()
    ensures LacksFrom("mp4 video", AUDIO_KEYWORDS, "3wfgau", 6, 0)
  {
  }

  lemma PdfDocumentLower()
    ensures LowersFrom("PDF document", "pdf document", 0)
  {
  }

  lemma PdfDocumentImageLetters()
    ensures LacksFrom("pdf document", IMAGE_KEYWORDS, "jggbiwi", 7, 0)
  {
  }

  lemma PdfDocumentAudioLetters()
    ensures LacksFrom("pdf document", AUDIO_KEYWORDS, "3wlgaa", 6, 0)
  {
  }

  lemma PdfDocumentVideoLetters()
    ensures LacksFrom("pdf document", VIDEO_KEYWORDS, "4akwvv", 6, 0)
  {
  }

  lemma ZipArchiveLower()
    ensures LowersFrom("ZIP archive", "zip archive", 0)
  {
  }

  lemma ZipArchiveImageLetters()
    ensures LacksFrom("zip archive", IMAGE_KEYWORDS, "jngbtwm", 7, 0)
  {
  }

  lemma ZipArchiveLacksAac()
    ensures NoMatchFrom("zip archive", "aac", 0)
  {
  }

  lemma ZipArchiveAudioLetters()
    ensures LacksFrom("zip archive", AUDIO_KEYWORDS, "mwfo-u", 4, 0)
  {
  }

  lemma ZipArchiveLacksAvi()
    ensures NoMatchFrom("zip archive", "avi", 0)
  {
  }

  lemma ZipArchiveVideoLetters()
    ensures LacksFrom("zip archive", VIDEO_KEYWORDS, "m-mwmd", 1, 0)
  {
  }

  lemma ZipArchiveTextLetters()
    ensures LacksFrom("zip archive", TEXT_KEYWORDS, "ddttxt", 6, 0)
  {
  }

  lemma RandomDataLower()
    ensures LowersFrom("random data", "random data", 0)
  {
  }

  lemma RandomDataCompleteTail()
    ensures LacksFrom("random data", COMPLETE_KEYWORDS, "hjpgpzcuv", 9, 6)
  {
  }

  lemma RandomDataCompleteMiddle()
    ensures LacksFrom("random data", COMPLETE_KEYWORDS, "hjpgpzcuv", 9, 3)
  {
    RandomDataCompleteTail();
  }

  lemma RandomDataCompleteLetters()
    ensures LacksFrom("random data", COMPLETE_KEYWORDS, "hjpgpzcuv", 9, 0)
  {
    RandomDataCompleteMiddle();
  }

  lemma Id3TagLower()
    ensures LowersFrom("ID3 tag", "id3 tag", 0)
  {
  }

  lemma Id3TagImageLetters()
    ensures LacksFrom("id3 tag", IMAGE_KEYWORDS, "jpfbfwm", 7, 0)
  {
  }

  lemma Id3TagAudioLetters()
    ensures LacksFrom("id3 tag", AUDIO_KEYWORDS, "mwfocu", 6, 0)
  {
  }

  lemma Id3TagVideoLetters()
    ensures LacksFrom("id3 tag", VIDEO_KEYWORDS, "mvmwmv", 6, 0)
  {
  }

  lemma Id3TagTextLetters()
    ensures LacksFrom("id3 tag", TEXT_KEYWORDS, "poxrxh", 6, 0)
  {
  }

  lemma Id3TagArchiveLetters()
    ensures LacksFrom("id3 tag", ARCHIVE_KEYWORDS, "zrr7zr", 6, 0)
  {
  }

  lemma Id3TagExecutableLetters()
    ensures LacksFrom("id3 tag", EXECUTABLE_KEYWORDS, "xemx", 4, 0)
  {
  }

  lemma Id3TagCompleteTail()
    ensures LacksFrom("id3 tag", COMPLETE_KEYWORDS, "hjpfpzruv", 9, 6)
  {
  }

  lemma Id3TagCompleteMiddle()
    ensures LacksFrom("id3 tag", COMPLETE_KEYWORDS, "hjpfpzruv", 9, 3)
  {
    Id3TagCompleteTail();
  }

  lemma Id3TagCompleteLetters()
    ensures LacksFrom("id3 tag", COMPLETE_KEYWORDS, "hjpfpzruv", 9, 0)
  {
    Id3TagCompleteMiddle();
  }

  lemma Gif87aImageLower()
    ensures LowersFrom("GIF87a image", "gif87a image", 0)
  {
  }

  lemma Gif87aImageCompleteTail()
    ensures LacksFrom("gif87a image", COMPLETE_KEYWORDS, "hjp-pzruv", 3, 6)
  {
  }

  lemma Gif87aImageCompleteMiddle()
    ensures LacksFrom("gif87a image", COMPLETE_KEYWORDS, "hjp-pzruv", 3, 3)
  {
    Gif87aImageCompleteTail();
  }

  lemma Gif87aImageLacksGifImage()
    ensures NoMatchFrom("gif87a image", "gif image", 0)
  {
  }

  lemma Gif87aImageCompleteLetters()
    ensures LacksFrom("gif87a image", COMPLETE_KEYWORDS, "hjp-pzruv", 3, 0)
  {
    Gif87aImageCompleteMiddle();
  }

  lemma WebpImageLowerTail()
    ensures LowersFrom("WebP image (RIFF)", "webp image (riff)", 8)
  {
  }

  lemma WebpImageLower()
    ensures LowersFrom("WebP image (RIFF)", "webp image (riff)", 0)
  {
    WebpImageLowerTail();
  }

  lemma WebpImageCompleteTail()
    ensures LacksFrom("webp image (riff)", COMPLETE_KEYWORDS, "hjn-dzcuv", 3, 6)
  {
  }

  lemma WebpImageCompleteMiddle()
    ensures LacksFrom("webp image (riff)", COMPLETE_KEYWORDS, "hjn-dzcuv", 3, 3)
  {
    WebpImageCompleteTail();
  }

  lemma WebpImageLacksGifImage()
    ensures NoMatchFrom("webp image (riff)", "gif image", 0)
  {
  }

  lemma WebpImageCompleteLetters()
    ensures LacksFrom("webp image (riff)", COMPLETE_KEYWORDS, "hjn-dzcuv", 3, 0)
  {
    WebpImageCompleteMiddle();
  }

  lemma Mp4BoxLower()
    ensures LowersFrom("Mp4", "mp4", 0)
  {
  }

  lemma Mp4BoxCompleteTail()
    ensures LacksFrom("mp4", COMPLETE_KEYWORDS, "hjngdzrav", 9, 6)
  {
  }

  lemma Mp4BoxCompleteMiddle()
    ensures LacksFrom("mp4", COMPLETE_KEYWORDS, "hjngdzrav", 9, 3)
  {
    Mp4BoxCompleteTail();
  }

  lemma Mp4BoxCompleteLetters()
    ensures LacksFrom("mp4", COMPLETE_KEYWORDS, "hjngdzrav", 9, 0)
  {
    Mp4BoxCompleteMiddle();
  }

  lemma WebmMkvLower()
    ensures LowersFrom("Webm/mkv", "webm/mkv", 0)
  {
  }

  lemma WebmMkvCompleteTail()
    ensures LacksFrom("webm/mkv", COMPLETE_KEYWORDS, "hjpgpzrai", 9, 6)
  {
  }

  lemma WebmMkvCompleteMiddle()
    ensures LacksFrom("webm/mkv", COMPLETE_KEYWORDS, "hjpgpzrai", 9, 3)
  {
    WebmMkvCompleteTail();
  }

  lemma WebmMkvCompleteLetters()
    ensures LacksFrom("webm/mkv", COMPLETE_KEYWORDS, "hjpgpzrai", 9, 0)
  {
    WebmMkvCompleteMiddle();
  }

  lemma SevenZipLowerTail()
    ensures LowersFrom("7-Zip archive", "7-zip archive", 8)
  {
  }

  lemma SevenZipLower()
    ensures LowersFrom("7-Zip archive", "7-zip archive", 0)
  {
    SevenZipLowerTail();
  }

  // What the facts give: each description lower-cased, and which keyword
  // lists it mentions.

  lemma JpegImageDataLowered()
    ensures Lower("JPEG image data") == "jpeg image data"
  {
    JpegImageDataLower();
    LowerIs("JPEG image data", "jpeg image data");
  }

  lemma JpegImageDataKeywords()
    ensures MentionsAny("jpeg image data", IMAGE_KEYWORDS)
    ensures MentionsAny("jpeg image data", COMPLETE_KEYWORDS)
  {
    MentionedAt("jpeg image data", IMAGE_KEYWORDS, 0, 0);
    MentionedAt("jpeg image data", COMPLETE_KEYWORDS, 1, 0);
  }

  lemma PngImageDataLowered()
    ensures Lower("PNG image data") == "png image data"
  {
    PngImageDataLower();
    LowerIs("PNG image data", "png image data");
  }

  lemma PngImageDataKeywords()
    ensures MentionsAny("png image data", IMAGE_KEYWORDS)
  {
    MentionedAt("png image data", IMAGE_KEYWORDS, 1, 0);
  }

  lemma PngImageHeaderLowered()
    ensures Lower("PNG image header") == "png image header"
  {
    PngImageHeaderLower();
    LowerIs("PNG image header", "png image header");
  }

  lemma PngImageHeaderKeywords()
    ensures MentionsAny("png image header", COMPLETE_KEYWORDS)
  {
    MentionedAt("png image header", COMPLETE_KEYWORDS, 0, 10);
  }

  lemma Mp3AudioLowered()
    ensures Lower("MP3 audio") == "mp3 audio"
  {
    Mp3AudioLower();
    LowerIs("MP3 audio", "mp3 audio");
  }

  lemma Mp3AudioKeywords()
    ensures !MentionsAny("mp3 audio", IMAGE_KEYWORDS)
    ensures MentionsAny("mp3 audio", AUDIO_KEYWORDS)
  {
    Mp3AudioImageLetters();
    NotMentioned("mp3 audio", IMAGE_KEYWORDS, "jngbtwg", 7);
    MentionedAt("mp3 audio", AUDIO_KEYWORDS, 0, 0);
  }

  lemma Mp4VideoLowered()
    ensures Lower("MP4 video") == "mp4 video"
  {
    Mp4VideoLower();
    LowerIs("MP4 video", "mp4 video");
  }

  lemma Mp4VideoKeywords()
    ensures !MentionsAny("mp4 video", IMAGE_KEYWORDS)
    ensures !MentionsAny("mp4 video", AUDIO_KEYWORDS)
    ensures MentionsAny("mp4 video", VIDEO_KEYWORDS)
  {
    Mp4VideoImageLetters();
    Mp4VideoAudioLetters();
    NotMentioned("mp4 video", IMAGE_KEYWORDS, "jngbtwa", 7);
    NotMentioned("mp4 video", AUDIO_KEYWORDS, "3wfgau", 6);
    MentionedAt("mp4 video", VIDEO_KEYWORDS, 0, 0);
  }

  lemma PdfDocumentLowered()
    ensures Lower("PDF document") == "pdf document"
  {
    PdfDocumentLower();
    LowerIs("PDF document", "pdf document");
  }

  lemma PdfDocumentKeywords()
    ensures !MentionsAny("pdf document", IMAGE_KEYWORDS)
    ensures !MentionsAny("pdf document", AUDIO_KEYWORDS)
    ensures !MentionsAny("pdf document", VIDEO_KEYWORDS)
    ensures MentionsAny("pdf document", TEXT_KEYWORDS)
    ensures MentionsAny("pdf document", COMPLETE_KEYWORDS)
  {
    PdfDocumentImageLetters();
    PdfDocumentAudioLetters();
    PdfDocumentVideoLetters();
    NotMentioned("pdf document", IMAGE_KEYWORDS, "jggbiwi", 7);
    NotMentioned("pdf document", AUDIO_KEYWORDS, "3wlgaa", 6);
    NotMentioned("pdf document", VIDEO_KEYWORDS, "4akwvv", 6);
    MentionedAt("pdf document", TEXT_KEYWORDS, 0, 0);
    MentionedAt("pdf document", COMPLETE_KEYWORDS, 4, 0);
  }

  lemma ZipArchiveLowered()
    ensures Lower("ZIP archive") == "zip archive"
  {
    ZipArchiveLower();
    LowerIs("ZIP archive", "zip archive");
  }

  lemma ZipArchiveKeywords()
    ensures !MentionsAny("zip archive", IMAGE_KEYWORDS)
    ensures !MentionsAny("zip archive", AUDIO_KEYWORDS)
    ensures !MentionsAny("zip archive", VIDEO_KEYWORDS)
    ensures !MentionsAny("zip archive", TEXT_KEYWORDS)
    ensures MentionsAny("zip archive", ARCHIVE_KEYWORDS)
  {
    ZipArchiveImageLetters();
    ZipArchiveLacksAac();
    ZipArchiveAudioLetters();
    ZipArchiveLacksAvi();
    ZipArchiveVideoLetters();
    ZipArchiveTextLetters();
    NotMentioned("zip archive", IMAGE_KEYWORDS, "jngbtwm", 7);
    NotMentioned("zip archive", AUDIO_KEYWORDS, "mwfo-u", 4);
    NotMentioned("zip archive", VIDEO_KEYWORDS, "m-mwmd", 1);
    NotMentioned("zip archive", TEXT_KEYWORDS, "ddttxt", 6);
    MentionedAt("zip archive", ARCHIVE_KEYWORDS, 0, 0);
  }

  lemma RandomDataLowered()
    ensures Lower("random data") == "random data"
  {
    RandomDataLower();
    LowerIs("random data", "random data");
  }

  lemma RandomDataKeywords()
    ensures !MentionsAny("random data", COMPLETE_KEYWORDS)
  {
    RandomDataCompleteLetters();
    NotMentioned("random data", COMPLETE_KEYWORDS, "hjpgpzcuv", 9);
  }

  lemma Id3TagLowered()
    ensures Lower("ID3 tag") == "id3 tag"
  {
    Id3TagLower();
    LowerIs("ID3 tag", "id3 tag");
  }

  lemma Id3TagKeywords()
    ensures !MentionsAny("id3 tag", IMAGE_KEYWORDS)
    ensures !MentionsAny("id3 tag", AUDIO_KEYWORDS)
    ensures !MentionsAny("id3 tag", VIDEO_KEYWORDS)
    ensures !MentionsAny("id3 tag", TEXT_KEYWORDS)
    ensures !MentionsAny("id3 tag", ARCHIVE_KEYWORDS)
    ensures !MentionsAny("id3 tag", EXECUTABLE_KEYWORDS)
    ensures !MentionsAny("id3 tag", COMPLETE_KEYWORDS)
  {
    Id3TagImageLetters();
    Id3TagAudioLetters();
    Id3TagVideoLetters();
    Id3TagTextLetters();
    Id3TagArchiveLetters();
    Id3TagExecutableLetters();
    Id3TagCompleteLetters();
    NotMentioned("id3 tag", IMAGE_KEYWORDS, "jpfbfwm", 7);
    NotMentioned("id3 tag", AUDIO_KEYWORDS, "mwfocu", 6);
    NotMentioned("id3 tag", VIDEO_KEYWORDS, "mvmwmv", 6);
    NotMentioned("id3 tag", TEXT_KEYWORDS, "poxrxh", 6);
    NotMentioned("id3 tag", ARCHIVE_KEYWORDS, "zrr7zr", 6);
    NotMentioned("id3 tag", EXECUTABLE_KEYWORDS, "xemx", 4);
    NotMentioned("id3 tag", COMPLETE_KEYWORDS, "hjpfpzruv", 9);
  }

  lemma Gif87aImageLowered()
    ensures Lower("GIF87a image") == "gif87a image"
  {
    Gif87aImageLower();
    LowerIs("GIF87a image", "gif87a image");
  }

  lemma Gif87aImageKeywords()
    ensures !MentionsAny("gif87a image", COMPLETE_KEYWORDS)
  {
    Gif87aImageLacksGifImage();
    Gif87aImageCompleteLetters();
    NotMentioned("gif87a image", COMPLETE_KEYWORDS, "hjp-pzruv", 3);
  }

  lemma WebpImageLowered()
    ensures Lower("WebP image (RIFF)") == "webp image (riff)"
  {
    WebpImageLower();
    LowerIs("WebP image (RIFF)", "webp image (riff)");
  }

  lemma WebpImageKeywords()
    ensures !MentionsAny("webp image (riff)", COMPLETE_KEYWORDS)
  {
    WebpImageLacksGifImage();
    WebpImageCompleteLetters();
    NotMentioned("webp image (riff)", COMPLETE_KEYWORDS, "hjn-dzcuv", 3);
  }

  lemma Mp4BoxLowered()
    ensures Lower("Mp4") == "mp4"
  {
    Mp4BoxLower();
    LowerIs("Mp4", "mp4");
  }

  lemma Mp4BoxKeywords()
    ensures !MentionsAny("mp4", COMPLETE_KEYWORDS)
  {
    Mp4BoxCompleteLetters();
    NotMentioned("mp4", COMPLETE_KEYWORDS, "hjngdzrav", 9);
  }

  lemma WebmMkvLowered()
    ensures Lower("Webm/mkv") == "webm/mkv"
  {
    WebmMkvLower();
    LowerIs("Webm/mkv", "webm/mkv");
  }

  lemma WebmMkvKeywords()
    ensures !MentionsAny("webm/mkv", COMPLETE_KEYWORDS)
  {
    WebmMkvCompleteLetters();
    NotMentioned("webm/mkv", COMPLETE_KEYWORDS, "hjpgpzrai", 9);
  }

  lemma SevenZipLowered()
    ensures Lower("7-Zip archive") == "7-zip archive"
  {
    SevenZipLower();
    LowerIs("7-Zip archive", "7-zip archive");
  }

  lemma SevenZipKeywords()
    ensures MentionsAny("7-zip archive", COMPLETE_KEYWORDS)
  {
    MentionedAt("7-zip archive", COMPLETE_KEYWORDS, 5, 2);
  }

  // The verdicts.

  /** The categories the repository's tests expect. */
  lemma ExpectedCategories()
    ensures DetermineFileCategory("JPEG image data") == Image && DetermineFileCategory("PNG image data") == Image
    ensures DetermineFileCategory("MP3 audio") == Audio && DetermineFileCategory("MP4 video") == Video
    ensures DetermineFileCategory("PDF document") == TextDocument
    ensures DetermineFileCategory("ZIP archive") == Archive
  {
    CategoryCascade("JPEG image data");
    CategoryCascade("PNG image data");
    CategoryCascade("MP3 audio");
    CategoryCascade("MP4 video");
    CategoryCascade("PDF document");
    CategoryCascade("ZIP archive");
    JpegImageDataLowered();
    JpegImageDataKeywords();
    PngImageDataLowered();
    PngImageDataKeywords();
    Mp3AudioLowered();
    Mp3AudioKeywords();
    Mp4VideoLowered();
    Mp4VideoKeywords();
    PdfDocumentLowered();
    PdfDocumentKeywords();
    ZipArchiveLowered();
    ZipArchiveKeywords();
  }

  /** The complete-header verdicts the repository's tests expect. */
  lemma ExpectedCompleteHeaders()
    ensures IsCompleteFileSignature("JPEG image data") && IsCompleteFileSignature("PNG image header")
    ensures IsCompleteFileSignature("PDF document") && !IsCompleteFileSignature("random data")
  {
    JpegImageDataLowered();
    JpegImageDataKeywords();
    PngImageHeaderLowered();
    PngImageHeaderKeywords();
    PdfDocumentLowered();
    PdfDocumentKeywords();
    RandomDataLowered();
    RandomDataKeywords();
  }

  /** "ID3 tag", which the manual scan emits, falls through every keyword
      list and is no complete header. */
  lemma Id3TagDescription()
    ensures DetermineFileCategory("ID3 tag") == Other
    ensures !IsCompleteFileSignature("ID3 tag")
  {
    CategoryCascade("ID3 tag");
    Id3TagLowered();
    Id3TagKeywords();
  }

  /** The image descriptions the manual scan emits, "GIF87a image" and
      "WebP image (RIFF)", are no complete headers. */
  lemma ScanImageDescriptions()
    ensures !IsCompleteFileSignature("GIF87a image")
    ensures !IsCompleteFileSignature("WebP image (RIFF)")
  {
    Gif87aImageLowered();
    Gif87aImageKeywords();
    WebpImageLowered();
    WebpImageKeywords();
  }

  /** Of the container descriptions the manual scan emits, "Mp4" and
      "Webm/mkv" are no complete headers, while "7-Zip archive" is one
      ("zip archive" at position 2). */
  lemma ScanContainerDescriptions()
    ensures !IsCompleteFileSignature("Mp4") && !IsCompleteFileSignature("Webm/mkv")
    ensures IsCompleteFileSignature("7-Zip archive")
  {
    Mp4BoxLowered();
    Mp4BoxKeywords();
    WebmMkvLowered();
    WebmMkvKeywords();
    SevenZipLowered();
    SevenZipKeywords();
  }
}
