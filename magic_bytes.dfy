/** The byte-signature scanner (`MagicBytesAnalyzerWithPath::analyze`): the
    external binwalk results are merged with a conservative manual scan over a
    fixed table of complete-header magic numbers, stably sorted by offset,
    tallied into seven categories and turned into flags and findings. */
module MagicBytes {
  import opened Common

  // =====================================================================
  // Data model

  datatype Category = Image | Audio | Video | TextDocument | Archive | Executable | Other

  /** The `&str` that `determine_file_category` returns for each category. */
  function CategoryName(c: Category): string {
    match c
    case Image => "Image"
    case Audio => "Audio"
    case Video => "Video"
    case TextDocument => "Text/Document"
    case Archive => "Archive"
    case Executable => "Executable"
    case Other => "Other"
  }

  datatype EmbeddedFile = EmbeddedFile(offset: nat, description: string, fileType: string, confidence: string)

  datatype FormatSummary = FormatSummary(
    audio: nat, video: nat, image: nat, text: nat, archive: nat, executable: nat, other: nat)

  /** One result of the external binwalk scan: offset, signature name and
      its confidence byte. */
  datatype BinwalkSignature = BinwalkSignature(offset: nat, name: string, confidence: byte)

  datatype MagicBytesAnalysis = MagicBytesAnalysis(
    primaryFormat: string,
    expectedFormat: Option<string>,
    totalSignaturesFound: nat,
    embeddedFiles: seq<EmbeddedFile>,
    hasMultipleFormats: bool,
    hasSuspiciousData: bool,
    suspiciousFindings: seq<string>,
    formatSummary: FormatSummary)

  datatype MagicBytesError = AnalysisError(message: string)

  // =====================================================================
  // Keyword classification of signature descriptions

  const IMAGE_KEYWORDS: seq<string> := ["jpeg", "png", "gif", "bmp", "tiff", "webp", "image"]
  const AUDIO_KEYWORDS: seq<string> := ["mp3", "wav", "flac", "ogg", "aac", "audio"]
  const VIDEO_KEYWORDS: seq<string> := ["mp4", "avi", "mkv", "webm", "mov", "video"]
  const TEXT_KEYWORDS: seq<string> := ["pdf", "doc", "txt", "rtf", "xml", "html"]
  const ARCHIVE_KEYWORDS: seq<string> := ["zip", "rar", "tar", "7z", "gzip", "archive"]
  const EXECUTABLE_KEYWORDS: seq<string> := ["exe", "elf", "mach-o", "executable"]

  /** The categories in the order `determine_file_category` tries them. */
  const CATEGORY_TABLE: seq<(Category, seq<string>)> := [
    (Image, IMAGE_KEYWORDS), (Audio, AUDIO_KEYWORDS), (Video, VIDEO_KEYWORDS),
    (TextDocument, TEXT_KEYWORDS), (Archive, ARCHIVE_KEYWORDS), (Executable, EXECUTABLE_KEYWORDS)]

  predicate MentionsAny(text: string, keywords: seq<string>) {
    exists k :: k in keywords && Contains(text, k)
  }

  /** The category of the first table row one of whose keywords occurs. */
  function FirstMatchingCategory(text: string, table: seq<(Category, seq<string>)>): Category {
    if table == [] then Other
    else if MentionsAny(text, table[0].1) then table[0].0
    else FirstMatchingCategory(text, table[1..])
  }

  /** `determine_file_category`: the category of the first keyword list
      that the lower-cased description mentions. */
  function DetermineFileCategory(description: string): Category {
    FirstMatchingCategory(Lower(description), CATEGORY_TABLE)
  }

  /** The category is a first-match cascade over the lower-cased
      description, Image > Audio > Video > Text/Document > Archive >
      Executable > Other. */
  lemma CategoryCascade(description: string)
    ensures var c, d := DetermineFileCategory(description), Lower(description);
      var img, aud, vid := MentionsAny(d, IMAGE_KEYWORDS), MentionsAny(d, AUDIO_KEYWORDS), MentionsAny(d, VIDEO_KEYWORDS);
      var txt, arc, exe := MentionsAny(d, TEXT_KEYWORDS), MentionsAny(d, ARCHIVE_KEYWORDS), MentionsAny(d, EXECUTABLE_KEYWORDS);
      && (c == Image <==> img)
      && (c == Audio <==> !img && aud)
      && (c == Video <==> !img && !aud && vid)
      && (c == TextDocument <==> !img && !aud && !vid && txt)
      && (c == Archive <==> !img && !aud && !vid && !txt && arc)
      && (c == Executable <==> !img && !aud && !vid && !txt && !arc && exe)
  {
    CascadeUnrolled(Lower(description));
  }

  lemma CascadeUnrolled(d: string)
    ensures FirstMatchingCategory(d, CATEGORY_TABLE) ==
      if MentionsAny(d, IMAGE_KEYWORDS) then Image
      else if MentionsAny(d, AUDIO_KEYWORDS) then Audio
      else if MentionsAny(d, VIDEO_KEYWORDS) then Video
      else if MentionsAny(d, TEXT_KEYWORDS) then TextDocument
      else if MentionsAny(d, ARCHIVE_KEYWORDS) then Archive
      else if MentionsAny(d, EXECUTABLE_KEYWORDS) then Executable
      else Other
  {
    var t1 := CATEGORY_TABLE[1..];
    var t2 := t1[1..];
    var t3 := t2[1..];
    var t4 := t3[1..];
    var t5 := t4[1..];
    var t6 := t5[1..];
    assert CATEGORY_TABLE[0] == (Image, IMAGE_KEYWORDS);
    assert t1[0] == (Audio, AUDIO_KEYWORDS);
    assert t2[0] == (Video, VIDEO_KEYWORDS);
    assert t3[0] == (TextDocument, TEXT_KEYWORDS);
    assert t4[0] == (Archive, ARCHIVE_KEYWORDS);
    assert t5[0] == (Executable, EXECUTABLE_KEYWORDS);
    assert t6 == [];
    assert FirstMatchingCategory(d, t6) == Other;
    assert FirstMatchingCategory(d, t5) == if MentionsAny(d, EXECUTABLE_KEYWORDS) then Executable else Other;
    assert FirstMatchingCategory(d, t4) == if MentionsAny(d, ARCHIVE_KEYWORDS) then Archive else FirstMatchingCategory(d, t5);
    assert FirstMatchingCategory(d, t3) == if MentionsAny(d, TEXT_KEYWORDS) then TextDocument else FirstMatchingCategory(d, t4);
    assert FirstMatchingCategory(d, t2) == if MentionsAny(d, VIDEO_KEYWORDS) then Video else FirstMatchingCategory(d, t3);
    assert FirstMatchingCategory(d, t1) == if MentionsAny(d, AUDIO_KEYWORDS) then Audio else FirstMatchingCategory(d, t2);
  }

  /** Classification ignores case: a description and its upper-cased form
      fall into the same category and agree on being a complete header. */
  lemma ClassificationIgnoresCase(description: string)
    ensures DetermineFileCategory(Upper(description)) == DetermineFileCategory(description)
    ensures IsCompleteFileSignature(Upper(description)) == IsCompleteFileSignature(description)
  {
    LowerUpper(description);
  }

  const COMPLETE_KEYWORDS: seq<string> := [
    "header", "jpeg image", "png image", "gif image", "pdf document",
    "zip archive", "rar archive", "audio", "video"]

  /** `is_complete_file_signature`: the description names a whole file
      header rather than a fragment. */
  predicate IsCompleteFileSignature(description: string) {
    MentionsAny(Lower(description), COMPLETE_KEYWORDS)
  }

  // =====================================================================
  // The seven-way tally (`FormatSummary` and `categorize_file_type`)

  const EMPTY_SUMMARY := FormatSummary(0, 0, 0, 0, 0, 0, 0)

  function Count(s: FormatSummary, c: Category): nat {
    match c
    case Image => s.image
    case Audio => s.audio
    case Video => s.video
    case TextDocument => s.text
    case Archive => s.archive
    case Executable => s.executable
    case Other => s.other
  }

  function Total(s: FormatSummary): nat {
    s.audio + s.video + s.image + s.text + s.archive + s.executable + s.other
  }

  /** `categorize_file_type` for a category: one counter goes up by one. */
  function Increment(s: FormatSummary, c: Category): FormatSummary {
    match c
    case Image => s.(image := s.image + 1)
    case Audio => s.(audio := s.audio + 1)
    case Video => s.(video := s.video + 1)
    case TextDocument => s.(text := s.text + 1)
    case Archive => s.(archive := s.archive + 1)
    case Executable => s.(executable := s.executable + 1)
    case Other => s.(other := s.other + 1)
  }

  /** Counting an entry adds one to its category and to the total, and
      leaves the other six counters alone. */
  lemma IncrementCounts(s: FormatSummary, c: Category)
    ensures var t := Increment(s, c);
      && Count(t, c) == Count(s, c) + 1
      && (forall d :: d != c ==> Count(t, d) == Count(s, d))
      && Total(t) == Total(s) + 1
  {
  }

  /** The `saturating_sub(1)` correction applied to the primary's counter. */
  function SaturatingDecrement(s: FormatSummary, c: Category): FormatSummary {
    match c
    case Image => s.(image := SatSub(s.image, 1))
    case Audio => s.(audio := SatSub(s.audio, 1))
    case Video => s.(video := SatSub(s.video, 1))
    case TextDocument => s.(text := SatSub(s.text, 1))
    case Archive => s.(archive := SatSub(s.archive, 1))
    case Executable => s.(executable := SatSub(s.executable, 1))
    case Other => s.(other := SatSub(s.other, 1))
  }

  /** The correction takes one off its category's counter, never below
      zero, and leaves the other six alone. */
  lemma DecrementCounts(s: FormatSummary, c: Category)
    ensures var t := SaturatingDecrement(s, c);
      && Count(t, c) == SatSub(Count(s, c), 1)
      && (forall d :: d != c ==> Count(t, d) == Count(s, d))
  {
  }

  /** Two summaries with the same seven counts are the same summary. */
  lemma SummaryExt(s: FormatSummary, t: FormatSummary)
    requires forall c :: Count(s, c) == Count(t, c)
    ensures s == t
  {
    assert Count(s, Image) == Count(t, Image) && Count(s, Audio) == Count(t, Audio);
    assert Count(s, Video) == Count(t, Video) && Count(s, TextDocument) == Count(t, TextDocument);
    assert Count(s, Archive) == Count(t, Archive) && Count(s, Executable) == Count(t, Executable);
    assert Count(s, Other) == Count(t, Other);
  }

  /** Undoing the extra count of the primary restores the tally exactly:
      the decrement never saturates after an increment. */
  lemma DecrementUndoesIncrement(s: FormatSummary, c: Category)
    ensures SaturatingDecrement(Increment(s, c), c) == s
  {
    SummaryExt(SaturatingDecrement(Increment(s, c), c), s);
  }

  lemma IncrementCommutes(s: FormatSummary, a: Category, b: Category)
    ensures Increment(Increment(s, a), b) == Increment(Increment(s, b), a)
  {
    SummaryExt(Increment(Increment(s, a), b), Increment(Increment(s, b), a));
  }

  /** Every entry counted once, in list order. */
  function Tally(files: seq<EmbeddedFile>): FormatSummary {
    if files == [] then EMPTY_SUMMARY
    else Increment(Tally(files[..|files| - 1]), DetermineFileCategory(files[|files| - 1].description))
  }

  function CountOfCategory(files: seq<EmbeddedFile>, c: Category): nat {
    if files == [] then 0
    else CountOfCategory(files[..|files| - 1], c)
         + (if DetermineFileCategory(files[|files| - 1].description) == c then 1 else 0)
  }

  /** Each counter of the tally is the number of entries of its category. */
  lemma {:induction false} TallyCounts(files: seq<EmbeddedFile>, c: Category)
    ensures Count(Tally(files), c) == CountOfCategory(files, c)
    decreases |files|
  {
    if files != [] {
      TallyCounts(files[..|files| - 1], c);
    }
  }

  /** The seven counters sum to the number of entries. */
  lemma {:induction false} TallyTotal(files: seq<EmbeddedFile>)
    ensures Total(Tally(files)) == |files|
    decreases |files|
  {
    if files != [] {
      TallyTotal(files[..|files| - 1]);
    }
  }

  // =====================================================================
  // Binwalk results

  /** The confidence byte of a binwalk match as a label. */
  function ConfidenceLabel(confidence: byte): (level: string)
    ensures confidence < 100 ==> level == "low"
    ensures 100 <= confidence < 200 ==> level == "medium"
    ensures 200 <= confidence ==> level == "high"
  {
    if confidence < 100 then "low" else if confidence < 200 then "medium" else "high"
  }

  function BinwalkEntry(sig: BinwalkSignature): EmbeddedFile {
    EmbeddedFile(sig.offset, sig.name, CategoryName(DetermineFileCategory(sig.name)),
                 ConfidenceLabel(sig.confidence))
  }

  // =====================================================================
  // Merge and stable sort

  predicate HasOffset(files: seq<EmbeddedFile>, offset: nat) {
    exists f :: f in files && f.offset == offset
  }

  /** One step of the merge loop: a manual result is appended only if no
      entry already in the list has its offset. */
  function MergeOne(acc: seq<EmbeddedFile>, m: EmbeddedFile): seq<EmbeddedFile> {
    if HasOffset(acc, m.offset) then acc else acc + [m]
  }

  function MergeAll(acc: seq<EmbeddedFile>, manual: seq<EmbeddedFile>): seq<EmbeddedFile>
    decreases |manual|
  {
    if manual == [] then acc else MergeAll(MergeOne(acc, manual[0]), manual[1..])
  }

  /** The merge keeps every earlier entry, adds only manual results, never
      adds an offset that is already present, and drops a manual result
      only when its offset is already present. */
  lemma {:induction false} MergeAllProperties(acc: seq<EmbeddedFile>, manual: seq<EmbeddedFile>)
    ensures var r := MergeAll(acc, manual);
      && |acc| <= |r| && r[..|acc|] == acc
      && (forall j :: |acc| <= j < |r| ==> r[j] in manual && !HasOffset(r[..j], r[j].offset))
      && (forall m :: m in manual ==> HasOffset(r, m.offset))
    decreases |manual|
  {
    if manual != [] {
      var acc' := MergeOne(acc, manual[0]);
      MergeAllProperties(acc', manual[1..]);
      var r := MergeAll(acc', manual[1..]);
      assert r[..|acc|] == r[..|acc'|][..|acc|];
      assert HasOffset(acc', manual[0].offset) by {
        if !HasOffset(acc, manual[0].offset) {
          assert acc'[|acc|] == manual[0];
        }
      }
      forall f | f in acc' ensures f in r {
        var i :| 0 <= i < |acc'| && acc'[i] == f;
        assert r[..|acc'|][i] == f;
      }
      forall j | |acc| <= j < |r| ensures r[j] in manual && !HasOffset(r[..j], r[j].offset) {
        if j == |acc| && |acc'| > |acc| {
          assert r[j] == acc'[|acc|] == manual[0];
          assert r[..j] == acc;
        }
      }
    }
  }

  function FilterOffset(files: seq<EmbeddedFile>, offset: nat): seq<EmbeddedFile> {
    if files == [] then []
    else FilterOffset(files[..|files| - 1], offset)
         + (if files[|files| - 1].offset == offset then [files[|files| - 1]] else [])
  }

  predicate SortedByOffset(files: seq<EmbeddedFile>) {
    forall i, j :: 0 <= i < j < |files| ==> files[i].offset <= files[j].offset
  }

  /** Insert after every entry whose offset is not larger (keeps stability). */
  function InsertByOffset(sorted: seq<EmbeddedFile>, e: EmbeddedFile): seq<EmbeddedFile> {
    if sorted == [] then [e]
    else if sorted[|sorted| - 1].offset <= e.offset then sorted + [e]
    else InsertByOffset(sorted[..|sorted| - 1], e) + [sorted[|sorted| - 1]]
  }

  /** `sort_by_key(|r| r.offset)`, Rust's stable sort. */
  function SortByOffset(files: seq<EmbeddedFile>): seq<EmbeddedFile> {
    if files == [] then []
    else InsertByOffset(SortByOffset(files[..|files| - 1]), files[|files| - 1])
  }

  lemma {:induction false} InsertMultiset(sorted: seq<EmbeddedFile>, e: EmbeddedFile)
    ensures multiset(InsertByOffset(sorted, e)) == multiset(sorted) + multiset{e}
    decreases |sorted|
  {
    if sorted != [] && sorted[|sorted| - 1].offset > e.offset {
      var init, last := sorted[..|sorted| - 1], sorted[|sorted| - 1];
      assert sorted == init + [last];
      InsertMultiset(init, e);
    }
  }

  lemma {:induction false} InsertFilter(sorted: seq<EmbeddedFile>, e: EmbeddedFile, k: nat)
    ensures FilterOffset(InsertByOffset(sorted, e), k)
            == FilterOffset(sorted, k) + (if e.offset == k then [e] else [])
    decreases |sorted|
  {
    var r := InsertByOffset(sorted, e);
    if sorted == [] {
      assert r[..|r| - 1] == [];
    } else if sorted[|sorted| - 1].offset <= e.offset {
      assert r[..|r| - 1] == sorted;
    } else {
      var init := sorted[..|sorted| - 1];
      InsertFilter(init, e, k);
      assert r[..|r| - 1] == InsertByOffset(init, e);
    }
  }

  lemma {:induction false} InsertSorted(sorted: seq<EmbeddedFile>, e: EmbeddedFile)
    requires SortedByOffset(sorted)
    ensures SortedByOffset(InsertByOffset(sorted, e))
    decreases |sorted|
  {
    var r := InsertByOffset(sorted, e);
    if sorted != [] && sorted[|sorted| - 1].offset > e.offset {
      var init, last := sorted[..|sorted| - 1], sorted[|sorted| - 1];
      InsertSorted(init, e);
      InsertMultiset(init, e);
      var r' := InsertByOffset(init, e);
      assert r == r' + [last];
      forall i, j | 0 <= i < j < |r| ensures r[i].offset <= r[j].offset {
        if j == |r| - 1 {
          assert r[i] == r'[i];
          assert r[i] in multiset(r');
          if r[i] != e {
            assert r[i] in multiset(init);
            var a :| 0 <= a < |init| && init[a] == r[i];
            assert sorted[a] == r[i];
          }
        } else {
          assert r[i] == r'[i] && r[j] == r'[j];
        }
      }
    }
  }

  /** The stable sort: the result is ordered by offset and, for every
      offset, lists the entries with that offset in their original order
      (so, in particular, it is a permutation of the input). */
  lemma SortProperties(files: seq<EmbeddedFile>)
    ensures var r := SortByOffset(files);
      && SortedByOffset(r)
      && multiset(r) == multiset(files)
      && (forall k :: FilterOffset(r, k) == FilterOffset(files, k))
  {
    SortIsSorted(files);
    SortPermutes(files);
    forall k ensures FilterOffset(SortByOffset(files), k) == FilterOffset(files, k) {
      SortIsStable(files, k);
    }
  }

  lemma {:induction false} SortIsSorted(files: seq<EmbeddedFile>)
    ensures SortedByOffset(SortByOffset(files))
    decreases |files|
  {
    if files != [] {
      var init := files[..|files| - 1];
      SortIsSorted(init);
      InsertSorted(SortByOffset(init), files[|files| - 1]);
    }
  }

  lemma {:induction false} SortPermutes(files: seq<EmbeddedFile>)
    ensures multiset(SortByOffset(files)) == multiset(files)
    decreases |files|
  {
    if files != [] {
      var init := files[..|files| - 1];
      var last := files[|files| - 1];
      SortPermutes(init);
      InsertMultiset(SortByOffset(init), last);
      assert files == init + [last];
    }
  }

  lemma {:induction false} SortIsStable(files: seq<EmbeddedFile>, k: nat)
    ensures FilterOffset(SortByOffset(files), k) == FilterOffset(files, k)
    decreases |files|
  {
    if files != [] {
      var init := files[..|files| - 1];
      var last := files[|files| - 1];
      SortIsStable(init, k);
      InsertFilter(SortByOffset(init), last, k);
    }
  }

  // =====================================================================
  // The manual signature table and scan

  datatype ManualSignature = ManualSignature(magic: seq<byte>, description: string, shouldScan: bool)

  const RIFF_MAGIC: seq<byte> := [0x52, 0x49, 0x46, 0x46]
  const WAVE_TAG: seq<byte> := [0x57, 0x41, 0x56, 0x45]  // "WAVE"
  const AVI_TAG: seq<byte> := [0x41, 0x56, 0x49, 0x20]   // "AVI "
  const WEBP_TAG: seq<byte> := [0x57, 0x45, 0x42, 0x50]  // "WEBP"

  const MANUAL_SIGNATURES: seq<ManualSignature> := [
    ManualSignature(RIFF_MAGIC, "RIFF container", true),
    ManualSignature([0x49, 0x44, 0x33], "ID3 tag", true),
    ManualSignature([0x66, 0x4C, 0x61, 0x43], "FLAC audio", true),
    ManualSignature([0x4F, 0x67, 0x67, 0x53], "OGG audio", true),
    ManualSignature([0xFF, 0xD8, 0xFF, 0xE0], "JPEG image (JFIF)", true),
    ManualSignature([0xFF, 0xD8, 0xFF, 0xE1], "JPEG image (Exif)", true),
    ManualSignature([0x89, 0x50, 0x4E, 0x47, 0x0D, 0x0A, 0x1A, 0x0A], "PNG image", true),
    ManualSignature([0x47, 0x49, 0x46, 0x38, 0x37, 0x61], "GIF87a image", true),
    ManualSignature([0x47, 0x49, 0x46, 0x38, 0x39, 0x61], "GIF89a image", true),
    ManualSignature([0x25, 0x50, 0x44, 0x46, 0x2D], "PDF document", true),
    ManualSignature([0x50, 0x4B, 0x03, 0x04], "ZIP archive", true),
    ManualSignature([0x52, 0x61, 0x72, 0x21, 0x1A, 0x07], "RAR archive", true),
    ManualSignature([0x37, 0x7A, 0xBC, 0xAF, 0x27, 0x1C], "7-Zip archive", true),
    ManualSignature([0x1A, 0x45, 0xDF, 0xA3], "Webm/mkv", true),
    ManualSignature([0x66, 0x74, 0x79, 0x70], "Mp4", true)]

  /** Every magic number of the table is non-empty, so the scan advances. */
  predicate ValidSignature(sig: ManualSignature) { |sig.magic| > 0 }

  lemma ManualTableValid()
    ensures forall k :: 0 <= k < |MANUAL_SIGNATURES| ==> ValidSignature(MANUAL_SIGNATURES[k])
  {
  }

  /** `is_likely_real_file`: a match past offset 0 is believed when the four
      bytes before it are uniform zero or 0xFF padding, or when it is
      sector aligned. */
  predicate IsLikelyRealFile(data: seq<byte>, offset: nat, sigLen: nat)
    requires offset <= |data|
  {
    if offset == 0 then true
    else if offset >= 4 && (forall i :: offset - 4 <= i < offset ==> data[i] == 0x00) then true
    else if offset >= 4 && (forall i :: offset - 4 <= i < offset ==> data[i] == 0xFF) then true
    else offset % 512 == 0 || offset % 1024 == 0
  }

  /** The padding/alignment filter in closed form: the 1024 test adds
      nothing, and offsets 1 to 3 are never believed. */
  lemma IsLikelyRealFileIff(data: seq<byte>, offset: nat, sigLen: nat)
    requires offset <= |data|
    ensures IsLikelyRealFile(data, offset, sigLen) <==>
      || offset % 512 == 0
      || (offset >= 4 && data[offset - 4..offset] == [0x00, 0x00, 0x00, 0x00])
      || (offset >= 4 && data[offset - 4..offset] == [0xFF, 0xFF, 0xFF, 0xFF])
    ensures 1 <= offset <= 3 ==> !IsLikelyRealFile(data, offset, sigLen)
  {
    if offset >= 4 {
      UniformWindow(data, offset, 0x00);
      UniformWindow(data, offset, 0xFF);
    }
    AlignedTo512(offset);
  }

  /** The four bytes before `offset` all equal `b` exactly when they are
      `[b, b, b, b]`. */
  lemma UniformWindow(data: seq<byte>, offset: nat, b: byte)
    requires 4 <= offset <= |data|
    ensures (forall i :: offset - 4 <= i < offset ==> data[i] == b) <==> data[offset - 4..offset] == [b, b, b, b]
  {
    var w := data[offset - 4..offset];
    assert w[0] == data[offset - 4] && w[1] == data[offset - 3];
    assert w[2] == data[offset - 2] && w[3] == data[offset - 1];
  }

  lemma AlignedTo512(offset: nat)
    ensures offset % 1024 == 0 ==> offset % 512 == 0
  {
    if offset % 1024 == 0 {
      assert offset == 512 * (2 * (offset / 1024));
    }
  }

  /** What a signature match at `pos` contributes: a RIFF match is kept at
      any offset when bytes 8..12 name WAVE, AVI or WEBP, labelled "high";
      any other match only when it passes the padding/alignment filter,
      labelled "medium". */
  function MatchAt(data: seq<byte>, sig: ManualSignature, pos: nat): seq<EmbeddedFile>
    requires pos <= |data|
  {
    if Contains(sig.description, "RIFF") then
      if pos + 12 <= |data| then
        var riffType := data[pos + 8..pos + 12];
        if riffType == WAVE_TAG then [EmbeddedFile(pos, "WAV audio (RIFF/WAVE)", "Audio", "high")]
        else if riffType == AVI_TAG then [EmbeddedFile(pos, "AVI video (RIFF)", "Video", "high")]
        else if riffType == WEBP_TAG then [EmbeddedFile(pos, "WebP image (RIFF)", "Image", "high")]
        else []
      else []
    else if pos == 0 || IsLikelyRealFile(data, pos, |sig.magic|) then
      [EmbeddedFile(pos, sig.description, CategoryName(DetermineFileCategory(sig.description)), "medium")]
    else []
  }

  /** The scan of one signature from `pos` on: a match skips past the whole
      signature (`pos += sig.len()`), a mismatch moves one byte. */
  function ScanFrom(data: seq<byte>, sig: ManualSignature, pos: nat): seq<EmbeddedFile>
    requires ValidSignature(sig)
    decreases |data| + 1 - pos
  {
    if pos > SatSub(|data|, |sig.magic|) then []
    else if HasAt(data, sig.magic, pos) then
      MatchAt(data, sig, pos) + ScanFrom(data, sig, pos + |sig.magic|)
    else ScanFrom(data, sig, pos + 1)
  }

  function ScanTable(data: seq<byte>, table: seq<ManualSignature>): seq<EmbeddedFile>
    requires forall k :: 0 <= k < |table| ==> ValidSignature(table[k])
  {
    if table == [] then []
    else ScanTable(data, table[..|table| - 1])
         + (if table[|table| - 1].shouldScan then ScanFrom(data, table[|table| - 1], 0) else [])
  }

  /** `manual_signature_scan`, as a function of the buffer. */
  function ManualScan(data: seq<byte>): seq<EmbeddedFile> {
    ManualTableValid();
    ScanTable(data, MANUAL_SIGNATURES)
  }

  /** What a kept match of a signature is: the signature occurs at its
      offset, and a RIFF match is kept only with a WAVE/AVI/WEBP sub-type in
      bytes 8..12 (labelled "high"), any other only when the padding/alignment
      filter believes it (labelled "medium"). */
  ghost predicate GenuineMatch(data: seq<byte>, sig: ManualSignature, e: EmbeddedFile) {
    && OccursAt(data, sig.magic, e.offset)
    && (Contains(sig.description, "RIFF") ==>
          && e.offset + 12 <= |data|
          && data[e.offset + 8..e.offset + 12] in {WAVE_TAG, AVI_TAG, WEBP_TAG}
          && e.confidence == "high")
    && (!Contains(sig.description, "RIFF") ==>
          && IsLikelyRealFile(data, e.offset, |sig.magic|)
          && e.description == sig.description
          && e.confidence == "medium")
  }

  /** A match yields at most one entry, at the match position. */
  lemma MatchAtOffset(data: seq<byte>, sig: ManualSignature, pos: nat)
    requires pos <= |data|
    ensures |MatchAt(data, sig, pos)| <= 1
    ensures forall e :: e in MatchAt(data, sig, pos) ==> e.offset == pos
  {
  }

  lemma MatchAtGenuine(data: seq<byte>, sig: ManualSignature, pos: nat)
    requires pos <= |data| && OccursAt(data, sig.magic, pos)
    ensures forall e :: e in MatchAt(data, sig, pos) ==> GenuineMatch(data, sig, e)
  {
  }

  /** Every entry of the scan from `pos` lies at or after `pos`. */
  lemma {:induction false} ScanFromOffsets(data: seq<byte>, sig: ManualSignature, pos: nat)
    requires ValidSignature(sig)
    ensures forall e :: e in ScanFrom(data, sig, pos) ==> e.offset >= pos
    decreases |data| + 1 - pos
  {
    if pos > SatSub(|data|, |sig.magic|) {
    } else if HasAt(data, sig.magic, pos) {
      ScanFromOffsets(data, sig, pos + |sig.magic|);
      MatchAtOffset(data, sig, pos);
    } else {
      ScanFromOffsets(data, sig, pos + 1);
    }
  }

  /** The scan of one signature finds genuine matches only. */
  lemma {:induction false} ScanFromGenuine(data: seq<byte>, sig: ManualSignature, pos: nat)
    requires ValidSignature(sig)
    ensures forall e :: e in ScanFrom(data, sig, pos) ==> GenuineMatch(data, sig, e)
    decreases |data| + 1 - pos
  {
    if pos > SatSub(|data|, |sig.magic|) {
    } else if HasAt(data, sig.magic, pos) {
      ScanFromGenuine(data, sig, pos + |sig.magic|);
      HasAtIff(data, sig.magic, pos);
      MatchAtGenuine(data, sig, pos);
    } else {
      ScanFromGenuine(data, sig, pos + 1);
    }
  }

  /** Consecutive entries start at least `gap` apart. */
  predicate Spaced(r: seq<EmbeddedFile>, gap: nat) {
    forall i :: 0 <= i < |r| - 1 ==> r[i].offset + gap <= r[i + 1].offset
  }

  /** Consecutive spacing gives spacing between every pair. */
  lemma {:induction false} SpacedPairs(r: seq<EmbeddedFile>, gap: nat, i: nat, j: nat)
    requires Spaced(r, gap) && i < j < |r|
    ensures r[i].offset + gap <= r[j].offset
    decreases j - i
  {
    if i + 1 < j {
      SpacedPairs(r, gap, i + 1, j);
    }
  }

  lemma SpacedPrepend(m: seq<EmbeddedFile>, rest: seq<EmbeddedFile>, pos: nat, gap: nat)
    requires |m| <= 1 && (|m| == 1 ==> m[0].offset == pos)
    requires (|rest| > 0 ==> rest[0].offset >= pos + gap) && Spaced(rest, gap)
    ensures Spaced(m + rest, gap)
  {
    if |m| == 1 && |rest| > 0 {
      var r := m + rest;
      forall i | 0 <= i < |r| - 1 ensures r[i].offset + gap <= r[i + 1].offset {
        if i > 0 {
          assert r[i] == rest[i - 1] && r[i + 1] == rest[i];
        }
      }
    } else if |m| == 0 {
      assert m + rest == rest;
    }
  }

  /** Matches of one signature never overlap: each starts at least a
      signature length after the one before it. */
  lemma {:induction false} ScanFromSpaced(data: seq<byte>, sig: ManualSignature, pos: nat)
    requires ValidSignature(sig)
    ensures Spaced(ScanFrom(data, sig, pos), |sig.magic|)
    decreases |data| + 1 - pos
  {
    if pos > SatSub(|data|, |sig.magic|) {
    } else if HasAt(data, sig.magic, pos) {
      ScanFromSpaced(data, sig, pos + |sig.magic|);
      ScanFromOffsets(data, sig, pos + |sig.magic|);
      MatchAtOffset(data, sig, pos);
      var m, rest := MatchAt(data, sig, pos), ScanFrom(data, sig, pos + |sig.magic|);
      if |m| == 1 {
        assert m[0] in m;
      }
      if |rest| > 0 {
        assert rest[0] in rest;
      }
      SpacedPrepend(m, rest, pos, |sig.magic|);
      assert ScanFrom(data, sig, pos) == m + rest;
    } else {
      ScanFromSpaced(data, sig, pos + 1);
      assert ScanFrom(data, sig, pos) == ScanFrom(data, sig, pos + 1);
    }
  }

  // =====================================================================
  // Primary format at the start of the buffer

  const JPEG_MAGIC: seq<byte> := [0xFF, 0xD8, 0xFF]
  const PNG_MAGIC: seq<byte> := [0x89, 0x50, 0x4E, 0x47]
  const GIF_MAGIC: seq<byte> := [0x47, 0x49, 0x46, 0x38]
  const PDF_MAGIC: seq<byte> := [0x25, 0x50, 0x44, 0x46]
  const ZIP_MAGIC: seq<byte> := [0x50, 0x4B, 0x03, 0x04]
  const ID3_MAGIC: seq<byte> := [0x49, 0x44, 0x33]
  const FLAC_MAGIC: seq<byte> := [0x66, 0x4C, 0x61, 0x43]

  /** The checks after the RIFF one, in the order the source runs them. */
  function DetectNonRiff(bytes: seq<byte>): string {
    if StartsWith(bytes, JPEG_MAGIC) then "JPEG image"
    else if StartsWith(bytes, PNG_MAGIC) then "PNG image"
    else if StartsWith(bytes, GIF_MAGIC) then "GIF image"
    else if StartsWith(bytes, PDF_MAGIC) then "PDF document"
    else if StartsWith(bytes, ZIP_MAGIC) then "ZIP archive"
    else if StartsWith(bytes, ID3_MAGIC) then "MP3 audio (with ID3)"
    else if StartsWith(bytes, [0xFF, 0xFB]) || StartsWith(bytes, [0xFF, 0xF3])
         || StartsWith(bytes, [0xFF, 0xF2]) then "MP3 audio"
    else if StartsWith(bytes, FLAC_MAGIC) then "FLAC audio"
    else "UNKNOWN"
  }

  function RiffSubtype(tag: seq<byte>): string {
    if tag == WAVE_TAG then "WAV audio"
    else if tag == AVI_TAG then "AVI video"
    else if tag == WEBP_TAG then "WEBP image"
    else "RIFF container"
  }

  /** `detect_format_at_offset` as written: the RIFF branch guards the
      sub-type slice `data[offset + 8..offset + 12]` with `len > offset + 8`
      only, so a RIFF buffer of 9 to 11 bytes makes the slice go out of
      range (`None` is that panic). */
  function DetectFormatAtOffsetAsWritten(data: seq<byte>, offset: nat): Option<string> {
    if offset >= |data| || |data| < offset + 4 then Some("UNKNOWN")
    else if StartsWith(data[offset..], RIFF_MAGIC) then
      if |data| > offset + 8 then
        if offset + 12 <= |data| then Some(RiffSubtype(data[offset + 8..offset + 12]))
        else None
      else Some("RIFF container")
    else Some(DetectNonRiff(data[offset..]))
  }

  /** `detect_format_at_offset` with the sub-type read only when all four
      bytes 8..12 exist. */
  function DetectFormatAtOffset(data: seq<byte>, offset: nat): (format: string)
    ensures |data| < offset + 4 ==> format == "UNKNOWN"
  {
    if offset >= |data| || |data| < offset + 4 then "UNKNOWN"
    else if StartsWith(data[offset..], RIFF_MAGIC) then
      if offset + 12 <= |data| then RiffSubtype(data[offset + 8..offset + 12])
      else "RIFF container"
    else DetectNonRiff(data[offset..])
  }

  /** The as-written detector panics exactly on RIFF buffers with 9 to 11
      bytes from the offset, and agrees with the corrected one elsewhere. */
  lemma DetectFormatPanicExactly(data: seq<byte>, offset: nat)
    ensures DetectFormatAtOffsetAsWritten(data, offset).None? <==>
      (offset + 4 <= |data| && StartsWith(data[offset..], RIFF_MAGIC) && offset + 8 < |data| < offset + 12)
    ensures DetectFormatAtOffsetAsWritten(data, offset).Some? ==>
      DetectFormatAtOffsetAsWritten(data, offset).value == DetectFormatAtOffset(data, offset)
  {
  }

  /** A ten-byte buffer "RIFF" + six bytes: the as-written detector panics,
      the corrected one reports a bare RIFF container. */
  lemma DetectFormatRiffTenBytes()
    ensures DetectFormatAtOffsetAsWritten([0x52, 0x49, 0x46, 0x46, 0, 0, 0, 0, 0x57, 0x41], 0) == None
    ensures DetectFormatAtOffset([0x52, 0x49, 0x46, 0x46, 0, 0, 0, 0, 0x57, 0x41], 0) == "RIFF container"
  {
    var d: seq<byte> := [0x52, 0x49, 0x46, 0x46, 0, 0, 0, 0, 0x57, 0x41];
    assert d[0..][..4] == RIFF_MAGIC;
  }

  // =====================================================================
  // Findings

  function CompleteSignatureFinding(f: EmbeddedFile): string {
    "Complete file signature found at offset 0x" + HexUpper(f.offset) + ": " + f.description
  }

  predicate IsEmbeddedComplete(f: EmbeddedFile) {
    f.offset > 0 && IsCompleteFileSignature(f.description)
  }

  /** The complete-signature findings, in list order. */
  function CompleteFindings(files: seq<EmbeddedFile>): seq<string> {
    if files == [] then []
    else CompleteFindings(files[..|files| - 1])
         + (if IsEmbeddedComplete(files[|files| - 1]) then [CompleteSignatureFinding(files[|files| - 1])] else [])
  }

  predicate HasSuspiciousData(files: seq<EmbeddedFile>) {
    exists i :: 0 <= i < |files| && IsEmbeddedComplete(files[i])
  }

  /** Exactly as many complete-signature findings as embedded complete
      headers, so there is one iff the suspicious-data flag holds. */
  lemma CompleteFindingsIff(files: seq<EmbeddedFile>)
    ensures CompleteFindings(files) != [] <==> HasSuspiciousData(files)
  {
    if CompleteFindings(files) != [] {
      CompleteFindingsWitness(files);
    }
    if HasSuspiciousData(files) {
      var i :| 0 <= i < |files| && IsEmbeddedComplete(files[i]);
      CompleteFindingsAt(files, i);
    }
  }

  /** A finding names an entry that is a complete header. */
  lemma {:induction false} CompleteFindingsWitness(files: seq<EmbeddedFile>)
    requires CompleteFindings(files) != []
    ensures HasSuspiciousData(files)
    decreases |files|
  {
    var n := |files| - 1;
    if !IsEmbeddedComplete(files[n]) {
      var init := files[..n];
      CompleteFindingsWitness(init);
      var i :| 0 <= i < |init| && IsEmbeddedComplete(init[i]);
      assert files[i] == init[i];
    }
  }

  /** A complete header anywhere gives a finding. */
  lemma {:induction false} CompleteFindingsAt(files: seq<EmbeddedFile>, i: nat)
    requires i < |files| && IsEmbeddedComplete(files[i])
    ensures |CompleteFindings(files)| > 0
    decreases |files|
  {
    var n := |files| - 1;
    if i < n {
      var init := files[..n];
      assert init[i] == files[i];
      CompleteFindingsAt(init, i);
    }
  }

  /** The extension-mismatch rule: fires iff an extension is present, the
      primary is not "UNKNOWN" and the upper-cased primary does not contain
      the upper-cased extension. */
  function MismatchFindings(expected: Option<string>, primary: string): (r: seq<string>)
    ensures |r| <= 1
  {
    if expected.Some? && !Contains(Upper(primary), expected.value) && primary != "UNKNOWN" then
      ["Format mismatch: extension says " + expected.value + ", detected format is " + primary]
    else []
  }

  function MultipleFindings(count: nat): seq<string> {
    if count > 1 then ["Multiple file signatures detected (" + Decimal(count) + " total)"] else []
  }

  const POLYGLOT_FINDING := "POLYGLOT FILE DETECTED: Contains multiple media types (possible steganography)"

  predicate IsPolyglot(s: FormatSummary) {
    s.audio > 0 && s.image > 0 && (s.video > 0 || s.text > 0)
  }

  function PolyglotFindings(s: FormatSummary): seq<string> {
    if IsPolyglot(s) then [POLYGLOT_FINDING] else []
  }

  /** The primary format: the description of an offset-0 entry, otherwise
      whatever the file start looks like. */
  function PrimaryFormat(data: seq<byte>, files: seq<EmbeddedFile>): string {
    if files != [] && files[0].offset == 0 then files[0].description else DetectFormatAtOffset(data, 0)
  }

  /** The primary format as `analyze` computes it, with the as-written
      detector for the file start (`None` is its panic). */
  function PrimaryFormatAsWritten(data: seq<byte>, files: seq<EmbeddedFile>): Option<string> {
    if files != [] && files[0].offset == 0 then Some(files[0].description)
    else DetectFormatAtOffsetAsWritten(data, 0)
  }

  /** `analyze` panics when no entry lies at offset 0 and the file start
      makes the detector slice past the end. */
  predicate PrimaryPanics(data: seq<byte>, files: seq<EmbeddedFile>) {
    PrimaryFormatAsWritten(data, files).None?
  }

  /** The primary format panics exactly when no entry lies at offset 0 and
      the file is a "RIFF" header of 9 to 11 bytes; otherwise it is the
      corrected primary format. */
  lemma PrimaryPanicsExactly(data: seq<byte>, files: seq<EmbeddedFile>)
    ensures PrimaryPanics(data, files) <==>
      !(files != [] && files[0].offset == 0) && 4 <= |data| && StartsWith(data, RIFF_MAGIC) && 8 < |data| < 12
    ensures !PrimaryPanics(data, files) ==> PrimaryFormatAsWritten(data, files) == Some(PrimaryFormat(data, files))
  {
    DetectFormatPanicExactly(data, 0);
    assert data[0..] == data;
  }

  function ExpectedFormat(extension: Option<string>): Option<string> {
    if extension.Some? then Some(Upper(extension.value)) else None
  }

  /** The report built from the merged and sorted entry list. */
  function Report(data: seq<byte>, extension: Option<string>, files: seq<EmbeddedFile>): MagicBytesAnalysis {
    var expected := ExpectedFormat(extension);
    var primary := PrimaryFormat(data, files);
    var summary := Tally(files);
    MagicBytesAnalysis(
      primary, expected, |files|, files, |files| > 1, HasSuspiciousData(files),
      ReportFindings(expected, primary, files), summary)
  }

  /** The findings in the order `analyze` pushes them. */
  function ReportFindings(expected: Option<string>, primary: string, files: seq<EmbeddedFile>): seq<string> {
    CompleteFindings(files) + MismatchFindings(expected, primary) + MultipleFindings(|files|)
      + PolyglotFindings(Tally(files))
  }

  /** The flags of a report: the seven counters and the total both count
      every entry, several entries ⇔ the multiple-formats flag, and the
      suspicious-data flag ⇔ a complete-signature finding. */
  lemma ReportFlags(data: seq<byte>, extension: Option<string>, files: seq<EmbeddedFile>)
    ensures var r := Report(data, extension, files);
      && r.embeddedFiles == files
      && r.totalSignaturesFound == |files| == Total(r.formatSummary)
      && (r.hasMultipleFormats <==> |files| > 1)
      && (r.hasSuspiciousData <==> CompleteFindings(files) != [])
      && r.suspiciousFindings == ReportFindings(ExpectedFormat(extension), r.primaryFormat, files)
  {
    TallyTotal(files);
    CompleteFindingsIff(files);
  }

  /** The findings of a report come in the order complete signatures (in
      entry order), mismatch, "Multiple file signatures", polyglot. */
  lemma ReportFindingsOrder(expected: Option<string>, primary: string, files: seq<EmbeddedFile>)
    ensures var r, complete, mismatch := ReportFindings(expected, primary, files), CompleteFindings(files),
                                         MismatchFindings(expected, primary);
      && |r| == |complete| + |mismatch| + (if |files| > 1 then 1 else 0) + (if IsPolyglot(Tally(files)) then 1 else 0)
      && r[..|complete|] == complete
      && r[|complete|..|complete| + |mismatch|] == mismatch
  {
    var complete, mismatch := CompleteFindings(files), MismatchFindings(expected, primary);
    var multiple, polyglot := MultipleFindings(|files|), PolyglotFindings(Tally(files));
    FindingsInOrder(complete, mismatch, multiple, polyglot);
    assert |multiple| == if |files| > 1 then 1 else 0;
    assert |polyglot| == if IsPolyglot(Tally(files)) then 1 else 0;
  }

  /** After those come the "Multiple file signatures" finding, when there
      are several entries, and the polyglot finding last. */
  lemma ReportFindingsTail(expected: Option<string>, primary: string, files: seq<EmbeddedFile>)
    ensures var r, lead := ReportFindings(expected, primary, files),
                           |CompleteFindings(files)| + |MismatchFindings(expected, primary)|;
      && (|files| > 1 ==> lead < |r| && r[lead] == "Multiple file signatures detected (" + Decimal(|files|) + " total)")
      && (IsPolyglot(Tally(files)) ==> |r| > 0 && r[|r| - 1] == POLYGLOT_FINDING)
  {
    var complete, mismatch := CompleteFindings(files), MismatchFindings(expected, primary);
    var multiple, polyglot := MultipleFindings(|files|), PolyglotFindings(Tally(files));
    FindingsInOrder(complete, mismatch, multiple, polyglot);
  }

  /** Four finding lists joined: each occupies its own stretch, in order. */
  lemma FindingsInOrder(a: seq<string>, b: seq<string>, c: seq<string>, d: seq<string>)
    ensures var all := a + b + c + d;
      && |all| == |a| + |b| + |c| + |d|
      && all[..|a|] == a && all[|a|..|a| + |b|] == b
      && (|c| > 0 ==> all[|a| + |b|] == c[0])
      && (|d| > 0 ==> all[|all| - 1] == d[|d| - 1])
  {
    var all := a + b + c + d;
    assert all == a + (b + c + d);
    assert all[|a|..] == b + c + d;
    assert (b + c + d)[..|b|] == b;
  }

  /** Merging then sorting: the result is sorted by offset, a permutation
      of the merged list, which starts with the first list unchanged and
      has an entry at the offset of every merged candidate. */
  lemma MergedSorted(acc: seq<EmbeddedFile>, manual: seq<EmbeddedFile>)
    ensures var merged := MergeAll(acc, manual);
      var r := SortByOffset(merged);
      && SortedByOffset(r) && multiset(r) == multiset(merged)
      && |acc| <= |merged| && merged[..|acc|] == acc
      && (forall m :: m in manual ==> HasOffset(merged, m.offset))
  {
    SortProperties(MergeAll(acc, manual));
    MergeAllProperties(acc, manual);
  }

  /** The entries of an analysis are sorted by offset and are exactly the
      binwalk entries, in scan order, plus the manual results merged in. */
  lemma AnalysisEntries(data: seq<byte>, binwalk: seq<BinwalkSignature>)
    ensures var merged := MergeAll(BinwalkEntries(binwalk), ManualScan(data));
      var r := CombinedEntries(data, binwalk);
      && SortedByOffset(r) && multiset(r) == multiset(merged)
      && |binwalk| <= |merged| && merged[..|binwalk|] == BinwalkEntries(binwalk)
      && (forall m :: m in ManualScan(data) ==> HasOffset(merged, m.offset))
  {
    var acc, manual := BinwalkEntries(binwalk), ManualScan(data);
    MergedSorted(acc, manual);
  }

  /** The mismatch rule compares whole names: a `.jpg` file whose start is
      a JPEG header is reported as a mismatch. */
  lemma JpgIsMismatch()
    ensures MismatchFindings(ExpectedFormat(Some("jpg")), "JPEG image") != []
  {
    UpperJpg();
    NoJpgInJpegImage();
  }

  lemma UpperJpg()
    ensures Upper("jpg") == "JPG" && Upper("JPEG image") == "JPEG IMAGE"
  {
    UpperIs("jpg", "JPG");
    UpperIs("JPEG image", "JPEG IMAGE");
  }

  lemma NoJpgInJpegImage()
    ensures !Contains("JPEG IMAGE", "JPG")
  {
    var h := "JPEG IMAGE";
    ContainsIff(h, "JPG");
    forall i | 0 <= i && i + 3 <= |h| ensures !OccursAt(h, "JPG", i) {
      assert h[i..i + 3][0] == h[i] && h[i..i + 3][2] == h[i + 2];
      if i == 0 {
        assert h[2] == 'E';
      } else {
        assert h[i] != 'J';
      }
    }
  }

  /** A `.png` file with a PNG header is not a mismatch. */
  lemma PngIsNoMismatch()
    ensures MismatchFindings(ExpectedFormat(Some("png")), "PNG image") == []
  {
    UpperIs("png", "PNG");
    UpperIs("PNG image", "PNG IMAGE");
    assert HasAt("PNG IMAGE", "PNG", 0);
  }

  /** No extension, or an "UNKNOWN" primary, never gives a mismatch. */
  lemma NoMismatchWithoutEvidence(extension: Option<string>, primary: string)
    requires extension.None? || primary == "UNKNOWN"
    ensures MismatchFindings(ExpectedFormat(extension), primary) == []
  {
  }

  function BinwalkEntries(binwalk: seq<BinwalkSignature>): (r: seq<EmbeddedFile>)
    ensures |r| == |binwalk|
    ensures forall i :: 0 <= i < |binwalk| ==> r[i] == BinwalkEntry(binwalk[i])
  {
    if binwalk == [] then []
    else BinwalkEntries(binwalk[..|binwalk| - 1]) + [BinwalkEntry(binwalk[|binwalk| - 1])]
  }

  /** Binwalk entries first, manual results merged in, then sorted. */
  function CombinedEntries(data: seq<byte>, binwalk: seq<BinwalkSignature>): seq<EmbeddedFile> {
    SortByOffset(MergeAll(BinwalkEntries(binwalk), ManualScan(data)))
  }

  // =====================================================================
  // The analysis itself

  /** An offset that no signature's scan reports is absent from the table
      scan. */
  lemma {:induction false} ScanTableAvoids(data: seq<byte>, table: seq<ManualSignature>, o: nat)
    requires forall k :: 0 <= k < |table| ==> ValidSignature(table[k])
    requires forall k :: 0 <= k < |table| ==> forall e :: e in ScanFrom(data, table[k], 0) ==> e.offset != o
    ensures forall e :: e in ScanTable(data, table) ==> e.offset != o
    decreases |table|
  {
    if table != [] {
      var n := |table| - 1;
      var init := table[..n];
      assert forall k :: 0 <= k < n ==> init[k] == table[k];
      ScanTableAvoids(data, init, o);
    }
  }

  /** On a buffer shorter than 12 bytes the RIFF signature's scan keeps
      nothing: its sub-type check needs bytes 8..12. */
  lemma {:induction false} RiffScanShort(data: seq<byte>, pos: nat)
    requires |data| < 12
    ensures ValidSignature(MANUAL_SIGNATURES[0]) && ScanFrom(data, MANUAL_SIGNATURES[0], pos) == []
    decreases |data| + 1 - pos
  {
    ManualTableValid();
    var sig := MANUAL_SIGNATURES[0];
    assert HasAt(sig.description, "RIFF", 0);
    if pos <= SatSub(|data|, |sig.magic|) {
      if HasAt(data, sig.magic, pos) {
        RiffScanShort(data, pos + |sig.magic|);
        assert MatchAt(data, sig, pos) == [];
      } else {
        RiffScanShort(data, pos + 1);
      }
    }
  }

  /** Of the manual magic numbers only RIFF's begins with the bytes "RI". */
  lemma OnlyRiffBeginsRI()
    ensures forall k :: 1 <= k < |MANUAL_SIGNATURES| ==>
      |MANUAL_SIGNATURES[k].magic| >= 2 && (MANUAL_SIGNATURES[k].magic[0] != 0x52 || MANUAL_SIGNATURES[k].magic[1] != 0x49)
  {
  }

  /** A magic number that differs from the file in its first two bytes
      does not occur at offset 0. */
  lemma NotAtStart(data: seq<byte>, m: seq<byte>)
    requires |data| >= 2 && |m| >= 2 && (m[0] != data[0] || m[1] != data[1])
    ensures !OccursAt(data, m, 0)
  {
    if |m| <= |data| {
      assert data[0..|m|][0] == data[0] && data[0..|m|][1] == data[1];
    }
  }

  /** A file that starts with "RIFF" and is shorter than 12 bytes has no
      manual hit at offset 0: the RIFF check needs 12 bytes, and no other
      magic number starts with "RI". */
  lemma NoManualHitAtZero(data: seq<byte>)
    requires StartsWith(data, RIFF_MAGIC) && |data| < 12
    ensures forall e :: e in ManualScan(data) ==> e.offset != 0
  {
    ManualTableValid();
    var table := MANUAL_SIGNATURES;
    assert data[0] == 0x52 && data[1] == 0x49 by {
      assert data[..4] == RIFF_MAGIC;
    }
    RiffScanShort(data, 0);
    OnlyRiffBeginsRI();
    forall k | 0 <= k < |table| ensures forall e :: e in ScanFrom(data, table[k], 0) ==> e.offset != 0 {
      ScanFromGenuine(data, table[k], 0);
      if k > 0 {
        NotAtStart(data, table[k].magic);
      }
    }
    ScanTableAvoids(data, table, 0);
  }

  /** A file of 9 to 11 bytes that starts with "RIFF", scanned by a binwalk
      that reports nothing at offset 0, makes `analyze` panic in the
      detector. */
  lemma AnalyzeShortRiffPanics(data: seq<byte>, binwalk: seq<BinwalkSignature>)
    requires StartsWith(data, RIFF_MAGIC) && 8 < |data| < 12
    requires forall i :: 0 <= i < |binwalk| ==> binwalk[i].offset != 0
    ensures PrimaryPanics(data, CombinedEntries(data, binwalk))
  {
    var acc, manual := BinwalkEntries(binwalk), ManualScan(data);
    var merged := MergeAll(acc, manual);
    var files := SortByOffset(merged);
    MergeAllProperties(acc, manual);
    NoManualHitAtZero(data);
    forall e | e in merged ensures e.offset != 0 {
      var j :| 0 <= j < |merged| && merged[j] == e;
      if j < |acc| {
        assert merged[..|acc|][j] == acc[j];
      }
    }
    SortPermutes(merged);
    if files != [] {
      assert files[0] in multiset(merged);
    }
    PrimaryPanicsExactly(data, files);
  }

  /** The ten bytes "RIFF" 00 00 00 00 "WA" with no binwalk hit: `analyze`
      panics. */
  lemma AnalyzeRiffTenBytesPanics()
    ensures PrimaryPanics([0x52, 0x49, 0x46, 0x46, 0, 0, 0, 0, 0x57, 0x41],
                          CombinedEntries([0x52, 0x49, 0x46, 0x46, 0, 0, 0, 0, 0x57, 0x41], []))
  {
    var d: seq<byte> := [0x52, 0x49, 0x46, 0x46, 0, 0, 0, 0, 0x57, 0x41];
    assert d[..4] == RIFF_MAGIC;
    AnalyzeShortRiffPanics(d, []);
  }

  /** `MagicBytesAnalyzerWithPath::analyze` on the file's bytes, its
      extension and the binwalk results. */
  method Analyze(data: seq<byte>, extension: Option<string>, binwalk: seq<BinwalkSignature>)
    returns (r: Result<MagicBytesAnalysis, MagicBytesError>)
    ensures |data| == 0 ==> r == Err(AnalysisError("Empty file"))
    ensures |data| > 0 ==> (r.Panic? <==> PrimaryPanics(data, CombinedEntries(data, binwalk)))
    ensures |data| > 0 && !PrimaryPanics(data, CombinedEntries(data, binwalk)) ==>
      r == Ok(Report(data, extension, CombinedEntries(data, binwalk)))
  {
    if |data| == 0 {
      return Err(AnalysisError("Empty file"));
    }
    var expected := ExpectedFormat(extension);
    var allResults := CollectEntries(data, binwalk);
    var primary := PrimaryFormatAsWritten(data, allResults);
    if primary.None? {
      return Panic;
    }
    PrimaryPanicsExactly(data, allResults);
    var primaryFormat := primary.value;
    var summary, findings := SummarizeEntries(allResults);

    findings := findings + MismatchFindings(expected, primaryFormat);
    var hasMultipleFormats := |allResults| > 1;
    findings := findings + MultipleFindings(|allResults|);
    findings := findings + PolyglotFindings(summary);
    var hasSuspiciousData := AnySuspicious(allResults);
    r := Ok(MagicBytesAnalysis(primaryFormat, expected, |allResults|, allResults, hasMultipleFormats,
                               hasSuspiciousData, findings, summary));
  }

  /** Binwalk entries, then the manual results at fresh offsets, sorted. */
  method CollectEntries(data: seq<byte>, binwalk: seq<BinwalkSignature>) returns (all: seq<EmbeddedFile>)
    ensures all == CombinedEntries(data, binwalk)
  {
    all := [];
    var i := 0;
    while i < |binwalk|
      invariant 0 <= i <= |binwalk|
      invariant all == BinwalkEntries(binwalk[..i])
    {
      BinwalkStep(binwalk, i);
      all := all + [BinwalkEntry(binwalk[i])];
      i := i + 1;
    }
    assert binwalk[..|binwalk|] == binwalk;
    ghost var fromBinwalk := all;

    var manualResults := ManualSignatureScan(data);
    i := 0;
    while i < |manualResults|
      invariant 0 <= i <= |manualResults|
      invariant MergeAll(all, manualResults[i..]) == MergeAll(fromBinwalk, manualResults)
    {
      MergeStep(all, manualResults, i);
      var present := HasOffsetScan(all, manualResults[i].offset);
      if !present {
        all := all + [manualResults[i]];
      }
      i := i + 1;
    }
    assert manualResults[|manualResults|..] == [];
    all := SortByOffset(all);
  }

  lemma BinwalkStep(binwalk: seq<BinwalkSignature>, i: nat)
    requires i < |binwalk|
    ensures BinwalkEntries(binwalk[..i + 1]) == BinwalkEntries(binwalk[..i]) + [BinwalkEntry(binwalk[i])]
  {
    assert binwalk[..i + 1][..i] == binwalk[..i];
  }

  /** One manual result merged: it is appended unless its offset is taken. */
  lemma MergeStep(acc: seq<EmbeddedFile>, manual: seq<EmbeddedFile>, i: nat)
    requires i < |manual|
    ensures MergeAll(acc, manual[i..]) == MergeAll(MergeOne(acc, manual[i]), manual[i + 1..])
    ensures MergeOne(acc, manual[i]) == if HasOffset(acc, manual[i].offset) then acc else acc + [manual[i]]
  {
    assert manual[i..][1..] == manual[i + 1..];
  }

  /** The category tally and the complete-signature findings. The primary
      entry is counted once up front and once in the loop, and the
      saturating decrement afterwards takes the extra count off again. */
  method SummarizeEntries(files: seq<EmbeddedFile>) returns (summary: FormatSummary, findings: seq<string>)
    ensures summary == Tally(files)
    ensures findings == CompleteFindings(files)
  {
    summary := EMPTY_SUMMARY;
    findings := [];
    var hasPrimary := |files| > 0 && files[0].offset == 0;
    if hasPrimary {
      summary := Increment(summary, DetermineFileCategory(files[0].description));
    }
    var i := 0;
    while i < |files|
      invariant 0 <= i <= |files|
      invariant summary == LeadTally(files, i, hasPrimary)
      invariant findings == CompleteFindings(files[..i])
    {
      var result := files[i];
      LeadTallyStep(files, i, hasPrimary);
      summary := Increment(summary, DetermineFileCategory(result.description));
      if result.offset > 0 {
        if IsCompleteFileSignature(result.description) {
          findings := findings + [CompleteSignatureFinding(result)];
        }
      }
      i := i + 1;
    }
    LeadTallyEnd(files, hasPrimary);
    if hasPrimary {
      summary := SaturatingDecrement(summary, DetermineFileCategory(files[0].description));
    }
  }

  /** The tally after the first `i` entries, with the primary entry counted
      once more up front when there is one. */
  function LeadTally(files: seq<EmbeddedFile>, i: nat, hasPrimary: bool): FormatSummary
    requires i <= |files| && (hasPrimary ==> |files| > 0)
  {
    if hasPrimary then Increment(Tally(files[..i]), DetermineFileCategory(files[0].description))
    else Tally(files[..i])
  }

  lemma LeadTallyStep(files: seq<EmbeddedFile>, i: nat, hasPrimary: bool)
    requires i < |files| && (hasPrimary ==> |files| > 0)
    ensures LeadTally(files, i + 1, hasPrimary)
            == Increment(LeadTally(files, i, hasPrimary), DetermineFileCategory(files[i].description))
    ensures CompleteFindings(files[..i + 1]) == CompleteFindings(files[..i])
      + (if files[i].offset > 0 && IsCompleteFileSignature(files[i].description)
         then [CompleteSignatureFinding(files[i])] else [])
  {
    SummaryStep(files, i);
    if hasPrimary {
      IncrementCommutes(Tally(files[..i]), DetermineFileCategory(files[0].description),
                        DetermineFileCategory(files[i].description));
    }
  }

  /** After the loop: the lead count taken off again leaves the tally. */
  lemma LeadTallyEnd(files: seq<EmbeddedFile>, hasPrimary: bool)
    requires hasPrimary ==> |files| > 0
    ensures files[..|files|] == files
    ensures hasPrimary ==> SaturatingDecrement(LeadTally(files, |files|, hasPrimary),
                                               DetermineFileCategory(files[0].description)) == Tally(files)
    ensures !hasPrimary ==> LeadTally(files, |files|, hasPrimary) == Tally(files)
  {
    assert files[..|files|] == files;
    if hasPrimary {
      DecrementUndoesIncrement(Tally(files), DetermineFileCategory(files[0].description));
    }
  }

  /** The tally and the findings of one more entry. */
  lemma SummaryStep(files: seq<EmbeddedFile>, i: nat)
    requires i < |files|
    ensures Tally(files[..i + 1]) == Increment(Tally(files[..i]), DetermineFileCategory(files[i].description))
    ensures CompleteFindings(files[..i + 1]) == CompleteFindings(files[..i])
      + (if IsEmbeddedComplete(files[i]) then [CompleteSignatureFinding(files[i])] else [])
  {
    assert files[..i + 1][..i] == files[..i];
  }

  /** `has_suspicious_data`: some entry past offset 0 is a complete header. */
  method AnySuspicious(files: seq<EmbeddedFile>) returns (found: bool)
    ensures found == HasSuspiciousData(files)
  {
    found := false;
    var i := 0;
    while i < |files|
      invariant 0 <= i <= |files|
      invariant found == (CompleteFindings(files[..i]) != [])
    {
      SummaryStep(files, i);
      if files[i].offset > 0 && IsCompleteFileSignature(files[i].description) {
        found := true;
      }
      i := i + 1;
    }
    assert files[..|files|] == files;
    CompleteFindingsIff(files);
  }

  /** `all_results.iter().any(|r| r.offset == offset)`. */
  method HasOffsetScan(files: seq<EmbeddedFile>, offset: nat) returns (found: bool)
    ensures found == HasOffset(files, offset)
  {
    found := false;
    var i := 0;
    while i < |files|
      invariant 0 <= i <= |files|
      invariant found <==> exists j :: 0 <= j < i && files[j].offset == offset
    {
      if files[i].offset == offset {
        found := true;
      }
      i := i + 1;
    }
  }

  /** `manual_signature_scan`: each signature of the table in turn. */
  method ManualSignatureScan(data: seq<byte>) returns (results: seq<EmbeddedFile>)
    ensures results == ManualScan(data)
  {
    ManualTableValid();
    results := [];
    var k := 0;
    while k < |MANUAL_SIGNATURES|
      invariant 0 <= k <= |MANUAL_SIGNATURES|
      invariant results == ScanTable(data, MANUAL_SIGNATURES[..k])
    {
      var sig := MANUAL_SIGNATURES[k];
      ScanTableStep(data, MANUAL_SIGNATURES, k);
      if sig.shouldScan {
        var found := ScanSignature(data, sig);
        results := results + found;
      }
      k := k + 1;
    }
    assert MANUAL_SIGNATURES[..|MANUAL_SIGNATURES|] == MANUAL_SIGNATURES;
  }

  lemma ScanTableStep(data: seq<byte>, table: seq<ManualSignature>, k: nat)
    requires k < |table| && forall j :: 0 <= j < |table| ==> ValidSignature(table[j])
    ensures ScanTable(data, table[..k + 1]) == ScanTable(data, table[..k])
      + (if table[k].shouldScan then ScanFrom(data, table[k], 0) else [])
  {
    assert table[..k + 1][..k] == table[..k];
  }

  /** One signature searched across the whole buffer: a match skips past
      the signature, a mismatch moves one byte. */
  method ScanSignature(data: seq<byte>, sig: ManualSignature) returns (found: seq<EmbeddedFile>)
    requires ValidSignature(sig)
    ensures found == ScanFrom(data, sig, 0)
  {
    found := [];
    var pos := 0;
    while pos <= SatSub(|data|, |sig.magic|)
      invariant pos <= |data| + 1
      invariant found + ScanFrom(data, sig, pos) == ScanFrom(data, sig, 0)
      decreases |data| + 1 - pos
    {
      HasAtIff(data, sig.magic, pos);
      if StartsWith(data[pos..], sig.magic) {
        ScanMatchStep(data, sig, pos, found);
        found := found + MatchAt(data, sig, pos);
        pos := pos + |sig.magic|;
      } else {
        ScanMissStep(data, sig, pos, found);
        pos := pos + 1;
      }
    }
  }

  /** A match keeps `found + ScanFrom(pos)` at the scan from 0 once its
      entry is taken and the scan skips the signature. */
  lemma ScanMatchStep(data: seq<byte>, sig: ManualSignature, pos: nat, found: seq<EmbeddedFile>)
    requires ValidSignature(sig) && pos <= SatSub(|data|, |sig.magic|) && HasAt(data, sig.magic, pos)
    requires found + ScanFrom(data, sig, pos) == ScanFrom(data, sig, 0)
    ensures (found + MatchAt(data, sig, pos)) + ScanFrom(data, sig, pos + |sig.magic|) == ScanFrom(data, sig, 0)
  {
    var m, rest := MatchAt(data, sig, pos), ScanFrom(data, sig, pos + |sig.magic|);
    assert ScanFrom(data, sig, pos) == m + rest;
    assert (found + m) + rest == found + (m + rest);
  }

  /** A mismatch moves one byte on. */
  lemma ScanMissStep(data: seq<byte>, sig: ManualSignature, pos: nat, found: seq<EmbeddedFile>)
    requires ValidSignature(sig) && pos <= SatSub(|data|, |sig.magic|) && !HasAt(data, sig.magic, pos)
    requires found + ScanFrom(data, sig, pos) == ScanFrom(data, sig, 0)
    ensures found + ScanFrom(data, sig, pos + 1) == ScanFrom(data, sig, 0)
  {
  }
}

