/** The EXIF metadata analyser: the field map, the comment fields, the
    per-field suspicion rules and the thumbnail check. The EXIF reader is
    abstracted to the list of fields it yields. */
module Exif {
  import opened Common
  import opened MetadataRules

  datatype ExifTag = UserComment | ImageDescription | JpegInterchangeFormat | JpegInterchangeFormatLength
                   | OtherTag(number: nat)

  /** One field as the reader yields it: its tag, the tag's display name,
      the display form of its value, whether it sits in the primary image's
      directory, and its first value read as an unsigned integer, if any. */
  datatype ExifField = ExifField(tag: ExifTag, tagName: string, value: string, inPrimary: bool, firstUint: Option<nat>)

  /** The outcome of opening the file and reading its EXIF container. */
  datatype ExifRead = Fields(fields: seq<ExifField>) | OpenFailed(ioError: string) | ReadFailed(debugError: string)

  datatype ExifAnalyzerError = Io(message: string) | ExifError(message: string)

  datatype ExifData = ExifData(
    metadata: map<string, string>, hasThumbnail: bool, thumbnailSize: Option<nat>,
    suspiciousFields: seq<string>, commentFields: seq<string>)

  /** `ExifData::new`. */
  function NewExifData(): (d: ExifData)
    ensures d.metadata == map[] && !d.hasThumbnail && d.thumbnailSize.None?
    ensures d.suspiciousFields == [] && d.commentFields == []
  {
    ExifData(map[], false, None, [], [])
  }

  /** The placeholder `Analyzer` implementation, which needs no input. */
  function PlaceholderAnalyze(): (r: Result<ExifData, ExifAnalyzerError>)
    ensures r == Ok(NewExifData())
  {
    Ok(NewExifData())
  }

  const LARGE_VALUE := 1000
  const ENCODED_VALUE := 50

  predicate IsCommentTag(t: ExifTag) { t == UserComment || t == ImageDescription }

  /** The flags one field raises, in order: its size, then its encoding. */
  function FieldFlags(f: ExifField): (flags: seq<string>)
    ensures |flags| <= 2
    ensures (Utf8Len(f.value) > LARGE_VALUE) <==>
      flags != [] && flags[0] == f.tagName + ": unusually large (" + Decimal(Utf8Len(f.value)) + "+ bytes)"
  {
    (if Utf8Len(f.value) > LARGE_VALUE
     then [f.tagName + ": unusually large (" + Decimal(Utf8Len(f.value)) + "+ bytes)"] else [])
    + (if IsPotentialBase64(f.value) && Utf8Len(f.value) > ENCODED_VALUE
       then [f.tagName + ": potential encoded data"] else [])
  }

  function CommentLines(fs: seq<ExifField>): seq<string> {
    if fs == [] then []
    else
      var f := fs[|fs| - 1];
      CommentLines(fs[..|fs| - 1]) + (if IsCommentTag(f.tag) then [f.tagName + ": " + f.value] else [])
  }

  function AllFieldFlags(fs: seq<ExifField>): (flags: seq<string>)
    ensures |flags| <= 2 * |fs|
  {
    if fs == [] then [] else AllFieldFlags(fs[..|fs| - 1]) + FieldFlags(fs[|fs| - 1])
  }

  /** `metadata`: every field inserted under its tag name in turn. */
  function Metadata(fs: seq<ExifField>): map<string, string> {
    if fs == [] then map[] else Metadata(fs[..|fs| - 1])[fs[|fs| - 1].tagName := fs[|fs| - 1].value]
  }

  /** `get_field(tag, In::PRIMARY)`: the first field of the primary image
      with that tag. */
  function PrimaryField(fs: seq<ExifField>, tag: ExifTag): (r: Option<ExifField>)
    ensures r.None? <==> forall i :: 0 <= i < |fs| ==> !(fs[i].tag == tag && fs[i].inPrimary)
    ensures r.Some? ==> r.value in fs && r.value.tag == tag && r.value.inPrimary
  {
    if fs == [] then None
    else if fs[0].tag == tag && fs[0].inPrimary then Some(fs[0])
    else
      var r := PrimaryField(fs[1..], tag);
      assert forall i :: 1 <= i < |fs| ==> fs[i] == fs[1..][i - 1];
      r
  }

  /** The thumbnail check: a thumbnail exists when the primary image has
      an interchange-format field; its size is known when the length field
      is present too and holds an unsigned integer. */
  function Thumbnail(fs: seq<ExifField>): (t: (bool, Option<nat>))
    ensures t.0 <==> exists i :: 0 <= i < |fs| && fs[i].tag == JpegInterchangeFormat && fs[i].inPrimary
    ensures t.1.Some? <==> t.0 && PrimaryField(fs, JpegInterchangeFormatLength).Some?
                           && PrimaryField(fs, JpegInterchangeFormatLength).value.firstUint.Some?
    ensures t.1.Some? ==> t.1 == PrimaryField(fs, JpegInterchangeFormatLength).value.firstUint
  {
    if PrimaryField(fs, JpegInterchangeFormat).Some? then
      var size := PrimaryField(fs, JpegInterchangeFormatLength);
      (true, if size.Some? && size.value.firstUint.Some? then size.value.firstUint else None)
    else (false, None)
  }

  function ExifOf(fs: seq<ExifField>): ExifData {
    var thumbnail := Thumbnail(fs);
    ExifData(Metadata(fs), thumbnail.0, thumbnail.1, AllFieldFlags(fs), CommentLines(fs))
  }

  /** The field loop of `analyze`: every field goes into the metadata map,
      comment tags into the comment lines, and its flags are pushed. */
  method CollectFields(fs: seq<ExifField>) returns (metadata: map<string, string>, comments: seq<string>, suspicious: seq<string>)
    ensures metadata == Metadata(fs) && comments == CommentLines(fs) && suspicious == AllFieldFlags(fs)
  {
    metadata, comments, suspicious := map[], [], [];
    for i := 0 to |fs|
      invariant metadata == Metadata(fs[..i])
      invariant comments == CommentLines(fs[..i])
      invariant suspicious == AllFieldFlags(fs[..i])
    {
      var f := fs[i];
      FieldStep(fs, i);
      metadata := metadata[f.tagName := f.value];
      if f.tag == UserComment || f.tag == ImageDescription {
        comments := comments + [f.tagName + ": " + f.value];
      }
      suspicious := PushFieldFlags(f, suspicious);
    }
    assert fs[..|fs|] == fs;
  }

  /** The two flag checks of the field loop. */
  method PushFieldFlags(f: ExifField, flags: seq<string>) returns (suspicious: seq<string>)
    ensures suspicious == flags + FieldFlags(f)
  {
    suspicious := flags;
    if Utf8Len(f.value) > LARGE_VALUE {
      suspicious := suspicious + [f.tagName + ": unusually large (" + Decimal(Utf8Len(f.value)) + "+ bytes)"];
    }
    if IsPotentialBase64(f.value) && Utf8Len(f.value) > ENCODED_VALUE {
      suspicious := suspicious + [f.tagName + ": potential encoded data"];
    }
  }

  /** One more field: how the three collections grow. */
  lemma FieldStep(fs: seq<ExifField>, i: nat)
    requires i < |fs|
    ensures var f := fs[i];
      && Metadata(fs[..i + 1]) == Metadata(fs[..i])[f.tagName := f.value]
      && CommentLines(fs[..i + 1]) == CommentLines(fs[..i]) + (if IsCommentTag(f.tag) then [f.tagName + ": " + f.value] else [])
      && AllFieldFlags(fs[..i + 1]) == AllFieldFlags(fs[..i]) + FieldFlags(f)
  {
    assert fs[..i + 1][..i] == fs[..i];
  }

  /** `ExifAnalyzerWithPath::analyze` after the file is opened and read. */
  method Analyze(read: ExifRead) returns (r: Result<ExifData, ExifAnalyzerError>)
    ensures read.OpenFailed? ==> r == Err(Io(read.ioError))
    ensures read.ReadFailed? ==> r == Err(ExifError(read.debugError))
    ensures read.Fields? ==> r == Ok(ExifOf(read.fields))
  {
    if read.OpenFailed? {
      return Err(Io(read.ioError));
    } else if read.ReadFailed? {
      return Err(ExifError(read.debugError));
    }
    var fs := read.fields;
    var data := NewExifData();
    var metadata, comments, suspicious := CollectFields(fs);
    data := data.(metadata := metadata, suspiciousFields := suspicious, commentFields := comments);
    if PrimaryField(fs, JpegInterchangeFormat).Some? {
      data := data.(hasThumbnail := true);
      var sizeField := PrimaryField(fs, JpegInterchangeFormatLength);
      if sizeField.Some? {
        if sizeField.value.firstUint.Some? {
          data := data.(thumbnailSize := sizeField.value.firstUint);
        }
      }
    }
    return Ok(data);
  }

  // ---------------------------------------------------------------------
  // Properties

  /** Every tag name is a key of the map, and it maps to the value of the
      last field bearing that name. */
  lemma MetadataKeepsLast(fs: seq<ExifField>)
    ensures forall name :: name in Metadata(fs) <==> exists j :: 0 <= j < |fs| && fs[j].tagName == name
    ensures forall j :: 0 <= j < |fs| && (forall k :: j < k < |fs| ==> fs[k].tagName != fs[j].tagName) ==>
      Metadata(fs)[fs[j].tagName] == fs[j].value
  {
    MetadataKeys(fs);
    forall j | 0 <= j < |fs| && (forall k :: j < k < |fs| ==> fs[k].tagName != fs[j].tagName)
      ensures Metadata(fs)[fs[j].tagName] == fs[j].value
    {
      MetadataLast(fs, j);
    }
  }

  lemma {:induction false} MetadataKeys(fs: seq<ExifField>)
    ensures forall name :: name in Metadata(fs) <==> exists j :: 0 <= j < |fs| && fs[j].tagName == name
    decreases |fs|
  {
    if fs != [] {
      var init := fs[..|fs| - 1];
      MetadataKeys(init);
      forall name | name in Metadata(fs) ensures exists j :: 0 <= j < |fs| && fs[j].tagName == name {
        if name != fs[|fs| - 1].tagName {
          assert name in Metadata(init);
          var j :| 0 <= j < |init| && init[j].tagName == name;
          assert fs[j].tagName == name;
        }
      }
      forall name | exists j :: 0 <= j < |fs| && fs[j].tagName == name ensures name in Metadata(fs) {
        var j :| 0 <= j < |fs| && fs[j].tagName == name;
        if j < |init| {
          assert init[j].tagName == name;
        }
      }
    }
  }

  lemma {:induction false} MetadataLast(fs: seq<ExifField>, j: nat)
    requires j < |fs| && forall k :: j < k < |fs| ==> fs[k].tagName != fs[j].tagName
    ensures fs[j].tagName in Metadata(fs) && Metadata(fs)[fs[j].tagName] == fs[j].value
    decreases |fs|
  {
    var init := fs[..|fs| - 1];
    if j < |init| {
      assert init[j] == fs[j];
      assert forall k :: j < k < |init| ==> init[k] == fs[k];
      MetadataLast(init, j);
    }
  }

  /** The number of user-comment and image-description fields. */
  function CommentTagCount(fs: seq<ExifField>): nat {
    if fs == [] then 0 else CommentTagCount(fs[..|fs| - 1]) + (if IsCommentTag(fs[|fs| - 1].tag) then 1 else 0)
  }

  /** Exactly the user-comment and image-description fields add a line, and
      each line starts with the field's tag name. */
  lemma {:induction false} CommentFieldsExactly(fs: seq<ExifField>)
    ensures |CommentLines(fs)| == CommentTagCount(fs)
    ensures forall line :: line in CommentLines(fs) ==>
      exists j :: 0 <= j < |fs| && IsCommentTag(fs[j].tag) && line == fs[j].tagName + ": " + fs[j].value
    decreases |fs|
  {
    if fs != [] {
      var init := fs[..|fs| - 1];
      CommentFieldsExactly(init);
      forall line | line in CommentLines(fs)
        ensures exists j :: 0 <= j < |fs| && IsCommentTag(fs[j].tag) && line == fs[j].tagName + ": " + fs[j].value
      {
        if line in CommentLines(init) {
          var j :| 0 <= j < |init| && IsCommentTag(init[j].tag) && line == init[j].tagName + ": " + init[j].value;
          assert fs[j] == init[j];
        } else {
          assert fs[|fs| - 1].tagName + ": " + fs[|fs| - 1].value == line;
        }
      }
    }
  }

  /** A value both long and base64-like raises both flags, size first. */
  lemma LargeEncodedValue(f: ExifField)
    requires Utf8Len(f.value) > LARGE_VALUE && IsPotentialBase64(f.value)
    ensures FieldFlags(f) == [f.tagName + ": unusually large (" + Decimal(Utf8Len(f.value)) + "+ bytes)",
                              f.tagName + ": potential encoded data"]
  {
  }
}
