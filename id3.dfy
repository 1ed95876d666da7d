/** The ID3 metadata analyser: what it records from a decoded tag and the
    suspicion rules it applies to comments, lyrics, pictures and private
    frames. The tag reader is abstracted to its output. */
module Id3 {
  import opened Common
  import opened MetadataRules

  /** The parts of a decoded tag that the analyser reads. Each frame carries
      its identifier and the `Debug` rendering of its content. */
  datatype Comment = Comment(lang: string, description: string, text: string)
  datatype Picture = Picture(pictureType: string, mimeType: string, description: string, data: seq<byte>)
  datatype Frame = Frame(id: string, debugContent: string)
  datatype Tag = Tag(
    title: Option<string>, artist: Option<string>, album: Option<string>, year: Option<int>,
    comments: seq<Comment>, lyrics: seq<string>, pictures: seq<Picture>, frames: seq<Frame>)

  /** What `Tag::read_from_path` gave: a tag or the `Debug` text of its
      error. */
  datatype TagRead = TagFound(tag: Tag) | TagUnreadable(debugError: string)

  datatype Id3AnalyzerError = Io(message: string) | Id3Error(message: string)

  datatype PictureInfo = PictureInfo(pictureType: string, mimeType: string, description: string, dataSize: nat)
  datatype PrivateFrame = PrivateFrame(owner: string, dataSize: nat, isBinary: bool)

  datatype Id3Data = Id3Data(
    title: Option<string>, artist: Option<string>, album: Option<string>, year: Option<int>,
    comments: seq<string>, lyrics: Option<string>, allFrames: map<string, string>,
    suspiciousFrames: seq<string>, pictures: seq<PictureInfo>, privateFrames: seq<PrivateFrame>)

  /** `Id3Data::new`. */
  function NewId3Data(): (d: Id3Data)
    ensures d.title.None? && d.artist.None? && d.album.None? && d.year.None? && d.lyrics.None?
    ensures d.comments == [] && d.allFrames == map[] && d.suspiciousFrames == []
    ensures d.pictures == [] && d.privateFrames == []
  {
    Id3Data(None, None, None, None, [], None, map[], [], [], [])
  }

  /** The placeholder `Analyzer` implementation, which needs no input. */
  function PlaceholderAnalyze(): (r: Result<Id3Data, Id3AnalyzerError>)
    ensures r == Ok(NewId3Data())
  {
    Ok(NewId3Data())
  }

  // ---------------------------------------------------------------------
  // Per-item rules

  const LARGE_COMMENT := 500
  const ENCODED_COMMENT := 50
  const LARGE_LYRICS := 10000
  const LARGE_PICTURE := 5000000
  const LARGE_PRIVATE := 1000

  function CommentLine(c: Comment): string {
    c.lang + " [" + c.description + "]: " + c.text
  }

  /** The flags a comment raises, in order: its size, then its encoding. */
  function CommentFlags(c: Comment): (flags: seq<string>)
    ensures |flags| <= 2
    ensures |flags| == (if Utf8Len(c.text) > LARGE_COMMENT then 1 else 0)
                     + (if IsPotentialBase64(c.text) && Utf8Len(c.text) > ENCODED_COMMENT then 1 else 0)
  {
    (if Utf8Len(c.text) > LARGE_COMMENT then ["Large comment field: " + Decimal(Utf8Len(c.text)) + " bytes"] else [])
    + (if IsPotentialBase64(c.text) && Utf8Len(c.text) > ENCODED_COMMENT
       then ["Comment contains potential encoded data"] else [])
  }

  function LyricsFlags(lyrics: string): seq<string> {
    if Utf8Len(lyrics) > LARGE_LYRICS then ["Unusually large lyrics: " + Decimal(Utf8Len(lyrics)) + " bytes"] else []
  }

  function PictureFlags(p: Picture): seq<string> {
    if |p.data| > LARGE_PICTURE then ["Large embedded picture: " + Decimal(|p.data| / 1000000) + " MB"] else []
  }

  function InfoOf(p: Picture): PictureInfo {
    PictureInfo(p.pictureType, p.mimeType, p.description, |p.data|)
  }

  predicate IsPrivate(f: Frame) { f.id == "PRIV" }

  function PrivateFlags(f: Frame): seq<string> {
    if IsPrivate(f) && Utf8Len(f.debugContent) > LARGE_PRIVATE
    then ["Large private frame: ~" + Decimal(Utf8Len(f.debugContent)) + " bytes"] else []
  }

  // ---------------------------------------------------------------------
  // The analysis as a function of the tag

  function CommentLines(cs: seq<Comment>): (lines: seq<string>)
    ensures |lines| == |cs|
    ensures forall i :: 0 <= i < |cs| ==> lines[i] == CommentLine(cs[i])
  {
    if cs == [] then [] else CommentLines(cs[..|cs| - 1]) + [CommentLine(cs[|cs| - 1])]
  }

  function AllCommentFlags(cs: seq<Comment>): (flags: seq<string>)
    ensures |flags| <= 2 * |cs|
  {
    if cs == [] then [] else AllCommentFlags(cs[..|cs| - 1]) + CommentFlags(cs[|cs| - 1])
  }

  function AllPictureFlags(ps: seq<Picture>): (flags: seq<string>)
    ensures |flags| <= |ps|
  {
    if ps == [] then [] else AllPictureFlags(ps[..|ps| - 1]) + PictureFlags(ps[|ps| - 1])
  }

  function PictureInfos(ps: seq<Picture>): (infos: seq<PictureInfo>)
    ensures |infos| == |ps|
    ensures forall i :: 0 <= i < |ps| ==> infos[i] == InfoOf(ps[i])
  {
    if ps == [] then [] else PictureInfos(ps[..|ps| - 1]) + [InfoOf(ps[|ps| - 1])]
  }

  function AllPrivateFlags(fs: seq<Frame>): (flags: seq<string>)
    ensures |flags| <= |fs|
  {
    if fs == [] then [] else AllPrivateFlags(fs[..|fs| - 1]) + PrivateFlags(fs[|fs| - 1])
  }

  /** The number of PRIV frames among fs. */
  function PrivateCount(fs: seq<Frame>): nat {
    if fs == [] then 0 else PrivateCount(fs[..|fs| - 1]) + (if IsPrivate(fs[|fs| - 1]) then 1 else 0)
  }

  function PrivateFrames(fs: seq<Frame>): (ps: seq<PrivateFrame>)
    ensures |ps| == PrivateCount(fs)
    ensures forall i :: 0 <= i < |ps| ==> ps[i].owner == "PRIV" && ps[i].isBinary
  {
    if fs == [] then []
    else
      var f := fs[|fs| - 1];
      PrivateFrames(fs[..|fs| - 1]) + (if IsPrivate(f) then [PrivateFrame("PRIV", Utf8Len(f.debugContent), true)] else [])
  }

  /** `all_frames`: each frame inserted under its identifier in turn. */
  function AllFrames(fs: seq<Frame>): map<string, string> {
    if fs == [] then map[] else AllFrames(fs[..|fs| - 1])[fs[|fs| - 1].id := fs[|fs| - 1].debugContent]
  }

  function FirstLyrics(t: Tag): Option<string> {
    if t.lyrics == [] then None else Some(t.lyrics[0])
  }

  function SuspiciousFrames(t: Tag): seq<string> {
    AllCommentFlags(t.comments)
    + (if t.lyrics == [] then [] else LyricsFlags(t.lyrics[0]))
    + AllPictureFlags(t.pictures)
    + AllPrivateFlags(t.frames)
  }

  function Id3Of(t: Tag): Id3Data {
    Id3Data(t.title, t.artist, t.album, t.year, CommentLines(t.comments), FirstLyrics(t),
            AllFrames(t.frames), SuspiciousFrames(t), PictureInfos(t.pictures), PrivateFrames(t.frames))
  }

  // ---------------------------------------------------------------------
  // The analyser

  /** `Id3AnalyzerWithPath::analyze` after the read: a reading error becomes
      `Id3Error`, otherwise the loops over comments, pictures and frames fill
      a fresh `Id3Data`. */
  method Analyze(read: TagRead) returns (r: Result<Id3Data, Id3AnalyzerError>)
    ensures read.TagUnreadable? ==> r == Err(Id3Error(read.debugError))
    ensures read.TagFound? ==> r == Ok(Id3Of(read.tag))
  {
    if read.TagUnreadable? {
      return Err(Id3Error(read.debugError));
    }
    var tag := read.tag;
    var data := NewId3Data();
    data := data.(title := tag.title, artist := tag.artist, album := tag.album, year := tag.year);
    var comments, suspicious := ScanComments(tag.comments);
    var lyrics: Option<string> := None;
    if |tag.lyrics| > 0 {
      var text := tag.lyrics[0];
      lyrics := Some(text);
      if Utf8Len(text) > LARGE_LYRICS {
        suspicious := suspicious + ["Unusually large lyrics: " + Decimal(Utf8Len(text)) + " bytes"];
      }
    }
    assert suspicious == AllCommentFlags(tag.comments) + (if tag.lyrics == [] then [] else LyricsFlags(tag.lyrics[0]));
    var pictures, pictureFlags := ScanPictures(tag.pictures);
    var privateFrames, allFrames, privateFlags := ScanFrames(tag.frames);
    data := data.(comments := comments, lyrics := lyrics, allFrames := allFrames,
                  suspiciousFrames := suspicious + pictureFlags + privateFlags,
                  pictures := pictures, privateFrames := privateFrames);
    return Ok(data);
  }

  /** The loop over `tag.comments()`. */
  method ScanComments(cs: seq<Comment>) returns (comments: seq<string>, suspicious: seq<string>)
    ensures comments == CommentLines(cs) && suspicious == AllCommentFlags(cs)
  {
    comments, suspicious := [], [];
    for i := 0 to |cs|
      invariant comments == CommentLines(cs[..i])
      invariant suspicious == AllCommentFlags(cs[..i])
    {
      var c := cs[i];
      comments := comments + [CommentLine(c)];
      if Utf8Len(c.text) > LARGE_COMMENT {
        suspicious := suspicious + ["Large comment field: " + Decimal(Utf8Len(c.text)) + " bytes"];
      }
      if IsPotentialBase64(c.text) && Utf8Len(c.text) > ENCODED_COMMENT {
        suspicious := suspicious + ["Comment contains potential encoded data"];
      }
      assert cs[..i + 1][..i] == cs[..i];
    }
    assert cs[..|cs|] == cs;
  }

  /** The loop over `tag.pictures()`. */
  method ScanPictures(ps: seq<Picture>) returns (pictures: seq<PictureInfo>, suspicious: seq<string>)
    ensures pictures == PictureInfos(ps) && suspicious == AllPictureFlags(ps)
  {
    pictures, suspicious := [], [];
    for i := 0 to |ps|
      invariant pictures == PictureInfos(ps[..i])
      invariant suspicious == AllPictureFlags(ps[..i])
    {
      var p := ps[i];
      if |p.data| > LARGE_PICTURE {
        suspicious := suspicious + ["Large embedded picture: " + Decimal(|p.data| / 1000000) + " MB"];
      }
      pictures := pictures + [InfoOf(p)];
      assert ps[..i + 1][..i] == ps[..i];
    }
    assert ps[..|ps|] == ps;
  }

  /** The loop over `tag.frames()`. */
  method ScanFrames(fs: seq<Frame>) returns (privateFrames: seq<PrivateFrame>, allFrames: map<string, string>,
                                              suspicious: seq<string>)
    ensures privateFrames == PrivateFrames(fs) && allFrames == AllFrames(fs) && suspicious == AllPrivateFlags(fs)
  {
    privateFrames, allFrames, suspicious := [], map[], [];
    for i := 0 to |fs|
      invariant privateFrames == PrivateFrames(fs[..i])
      invariant allFrames == AllFrames(fs[..i])
      invariant suspicious == AllPrivateFlags(fs[..i])
    {
      var f := fs[i];
      if f.id == "PRIV" {
        var contentLen := Utf8Len(f.debugContent);
        if contentLen > LARGE_PRIVATE {
          suspicious := suspicious + ["Large private frame: ~" + Decimal(contentLen) + " bytes"];
        }
        privateFrames := privateFrames + [PrivateFrame("PRIV", contentLen, true)];
      }
      allFrames := allFrames[f.id := f.debugContent];
      assert fs[..i + 1][..i] == fs[..i];
    }
    assert fs[..|fs|] == fs;
  }

  // ---------------------------------------------------------------------
  // Properties

  /** A comment both long and base64-like raises both flags, size first. */
  lemma LargeEncodedComment(c: Comment)
    requires Utf8Len(c.text) > LARGE_COMMENT && IsPotentialBase64(c.text)
    ensures CommentFlags(c) == ["Large comment field: " + Decimal(Utf8Len(c.text)) + " bytes",
                                "Comment contains potential encoded data"]
  {
  }

  /** Every frame identifier is a key of `all_frames`, and it maps to the
      content of the last frame bearing it. */
  lemma {:induction false} AllFramesKeepsLast(fs: seq<Frame>)
    ensures forall id :: id in AllFrames(fs) <==> exists j :: 0 <= j < |fs| && fs[j].id == id
    ensures forall j :: 0 <= j < |fs| && (forall k :: j < k < |fs| ==> fs[k].id != fs[j].id) ==>
      AllFrames(fs)[fs[j].id] == fs[j].debugContent
    decreases |fs|
  {
    if fs != [] {
      var init := fs[..|fs| - 1];
      AllFramesKeepsLast(init);
      forall id | id in AllFrames(fs) ensures exists j :: 0 <= j < |fs| && fs[j].id == id {
        if id != fs[|fs| - 1].id {
          var j :| 0 <= j < |init| && init[j].id == id;
          assert fs[j].id == id;
        }
      }
      forall id | exists j :: 0 <= j < |fs| && fs[j].id == id ensures id in AllFrames(fs) {
        var j :| 0 <= j < |fs| && fs[j].id == id;
        if j < |init| {
          assert init[j].id == id;
        }
      }
    }
  }

  /** Only the first lyrics frame is inspected: later ones change nothing. */
  lemma OnlyFirstLyrics(t: Tag, later: seq<string>)
    requires t.lyrics != []
    ensures Id3Of(t.(lyrics := [t.lyrics[0]] + later)) == Id3Of(t)
  {
  }

  /** A picture over five million bytes is flagged with its size in whole
      megabytes, at least 5; every picture is recorded. */
  lemma LargePictureFlag(p: Picture)
    requires |p.data| > LARGE_PICTURE
    ensures PictureFlags(p) == ["Large embedded picture: " + Decimal(|p.data| / 1000000) + " MB"]
    ensures |p.data| / 1000000 >= 5
    ensures PictureInfos([p]) == [InfoOf(p)]
  {
  }

  /** The private frames are exactly the PRIV frames, and the number of
      flags is bounded by the items inspected. */
  lemma {:induction false} FlagBounds(t: Tag)
    ensures |PrivateFrames(t.frames)| <= |t.frames|
    ensures |SuspiciousFrames(t)| <= 2 * |t.comments| + 1 + |t.pictures| + |t.frames|
  {
    PrivateCountBound(t.frames);
  }

  lemma {:induction false} PrivateCountBound(fs: seq<Frame>)
    ensures PrivateCount(fs) <= |fs|
    decreases |fs|
  {
    if fs != [] {
      PrivateCountBound(fs[..|fs| - 1]);
    }
  }
}
