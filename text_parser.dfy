/** Text extraction: the statistics of `TextContent`, the choice of parser
    by file extension, the flag-driven RTF scanner, the printable-run
    extractor for binary documents and the empty-result rules of the RTF
    and legacy DOC parsers. */
module TextParser {
  import opened Common

  datatype TextParserError = Io(message: string) | Pdf(message: string) | Docx(message: string)
                           | Unsupported(message: string)

  // =====================================================================
  // Text statistics

  /** Unicode `White_Space`, the separator of `split_whitespace`. */
  predicate IsWhitespace(c: char) {
    || c == ' ' || c == '\t' || c == '\n' || c == '\r' || c == '\U{000B}' || c == '\U{000C}'
    || c == '\U{0085}' || c == '\U{00A0}' || c == '\U{1680}' || ('\U{2000}' <= c <= '\U{200A}')
    || c == '\U{2028}' || c == '\U{2029}' || c == '\U{202F}' || c == '\U{205F}' || c == '\U{3000}'
  }

  function Newlines(s: string): (n: nat)
    ensures n <= |s|
  {
    if s == [] then 0 else Newlines(s[..|s| - 1]) + (if s[|s| - 1] == '\n' then 1 else 0)
  }

  /** `lines().count()`: one line per line feed, plus an unterminated last
      line. */
  function LineCount(s: string): nat {
    Newlines(s) + (if s != [] && s[|s| - 1] != '\n' then 1 else 0)
  }

  /** `split_whitespace().count()`: the number of positions where a run of
      non-whitespace characters begins. */
  function WordCount(s: string): nat {
    if s == [] then 0
    else
      var init := s[..|s| - 1];
      WordCount(init) + (if !IsWhitespace(s[|s| - 1]) && (init == [] || IsWhitespace(init[|init| - 1])) then 1 else 0)
  }

  datatype TextContent = TextContent(
    content: string, byteSize: nat, lineCount: nat, charCount: nat, wordCount: nat, fileType: string)

  /** `TextContent::new`. */
  function NewTextContent(content: string, fileType: string): TextContent {
    TextContent(content, Utf8Len(content), LineCount(content), |content|, WordCount(content), fileType)
  }

  /** A text has no more lines than characters, is empty exactly when it has
      no lines, and words are separated, so at most every second character
      starts one; the byte size is at least the character count. */
  lemma {:induction false} TextStatisticsBounds(content: string, fileType: string)
    ensures var t := NewTextContent(content, fileType);
      && t.lineCount <= t.charCount <= t.byteSize
      && (t.lineCount == 0 <==> content == [])
      && 2 * t.wordCount <= t.charCount + 1
    decreases |content|
  {
    if content != [] {
      var init := content[..|content| - 1];
      TextStatisticsBounds(init, fileType);
      if |init| > 0 {
        var pre := init[..|init| - 1];
        assert init[..|init| - 1] == pre;
        WordCountStep(content);
      }
    }
  }

  /** A word ending at the last character means the previous one did not
      start one, which bounds the words by half the characters. */
  lemma {:induction false} WordCountStep(s: string)
    requires |s| >= 2
    ensures 2 * WordCount(s) <= |s| + 1
    decreases |s|
  {
    var init := s[..|s| - 1];
    var pre := init[..|init| - 1];
    if |init| >= 2 {
      WordCountStep(init);
    }
    if !IsWhitespace(s[|s| - 1]) && IsWhitespace(init[|init| - 1]) {
      if |pre| >= 2 {
        WordCountStep(pre);
      } else {
        assert WordCount(pre) <= 1;
      }
      assert WordCount(init) == WordCount(pre);
    } else if |init| < 2 {
      assert WordCount(init) <= 1;
    }
  }

  lemma {:induction false} NewlinesAppend(a: string, b: string)
    ensures Newlines(a + b) == Newlines(a) + Newlines(b)
    decreases |b|
  {
    if b == [] {
      assert a + b == a;
    } else {
      assert (a + b)[..|a + b| - 1] == a + b[..|b| - 1];
      NewlinesAppend(a, b[..|b| - 1]);
    }
  }

  lemma {:induction false} NoNewlines(s: string)
    requires forall i :: 0 <= i < |s| ==> s[i] != '\n'
    ensures Newlines(s) == 0
    decreases |s|
  {
    if s != [] {
      NoNewlines(s[..|s| - 1]);
    }
  }

  /** Two texts joined count their words separately, less one when the
      join falls inside a word. */
  lemma {:induction false} WordCountAppend(a: string, b: string)
    ensures WordCount(a + b) ==
      WordCount(a) + WordCount(b)
      - (if a != [] && b != [] && !IsWhitespace(a[|a| - 1]) && !IsWhitespace(b[0]) then 1 else 0)
    decreases |b|
  {
    if b == [] {
      assert a + b == a;
    } else {
      var b' := b[..|b| - 1];
      assert (a + b)[..|a + b| - 1] == a + b';
      WordCountAppend(a, b');
      if b' != [] {
        assert (a + b')[|a + b'| - 1] == b'[|b'| - 1];
        assert b'[0] == b[0];
      } else {
        assert b == [b[0]];
      }
    }
  }

  /** A non-empty text without whitespace is one word. */
  lemma {:induction false} SolidWord(s: string)
    requires s != [] && forall i :: 0 <= i < |s| ==> !IsWhitespace(s[i])
    ensures WordCount(s) == 1
    decreases |s|
  {
    if |s| > 1 {
      SolidWord(s[..|s| - 1]);
    } else {
      assert s[..0] == [];
    }
  }

  /** The statistics of a two-line, three-word text. */
  lemma StatisticsExample()
    ensures var t := NewTextContent("Hello World\nTest", "TXT");
      t.lineCount == 2 && t.wordCount == 3 && t.charCount == 16 && t.byteSize == 16
  {
    Utf8LenAscii("Hello World\nTest");
    ExampleLines();
    ExampleWords();
  }

  lemma ExampleLines()
    ensures LineCount("Hello World\nTest") == 2
  {
    var w1, w2, w3 := "Hello", "World", "Test";
    assert "Hello World\nTest" == w1 + " " + w2 + "\n" + w3;
    NoNewlines(w1); NoNewlines(w2); NoNewlines(w3);
    assert Newlines(" ") == 0 && Newlines("\n") == 1;
    NewlinesAppend(w1, " ");
    NewlinesAppend(w1 + " ", w2);
    NewlinesAppend(w1 + " " + w2, "\n");
    NewlinesAppend(w1 + " " + w2 + "\n", w3);
  }

  lemma ExampleWords()
    ensures WordCount("Hello World\nTest") == 3
  {
    var w1, w2, w3 := "Hello", "World", "Test";
    assert "Hello World\nTest" == w1 + " " + w2 + "\n" + w3;
    SolidWord(w1); SolidWord(w2); SolidWord(w3);
    assert WordCount(" ") == 0 && WordCount("\n") == 0;
    WordCountAppend(w1, " ");
    WordCountAppend(w1 + " ", w2);
    WordCountAppend(w1 + " " + w2, "\n");
    WordCountAppend(w1 + " " + w2 + "\n", w3);
  }

  // =====================================================================
  // Dispatch by extension

  datatype TextFormat = PdfText | DocxText | DocText | RtfText | OdtText | PlainText(extension: string)

  /** `parse_path`: the lower-cased extension (empty when the path has
      none) picks the PDF, DOCX, DOC, RTF or ODT parser; anything else is
      read as plain text. */
  function ParserFor(extension: string): (f: TextFormat)
    ensures Lower(extension) == "pdf" <==> f == PdfText
    ensures Lower(extension) == "docx" <==> f == DocxText
    ensures Lower(extension) == "doc" <==> f == DocText
    ensures Lower(extension) == "rtf" <==> f == RtfText
    ensures Lower(extension) == "odt" <==> f == OdtText
    ensures f.PlainText? <==> Lower(extension) !in ["pdf", "docx", "doc", "rtf", "odt"]
    ensures f.PlainText? ==> f.extension == Lower(extension)
  {
    var e := Lower(extension);
    if e == "pdf" then PdfText
    else if e == "docx" then DocxText
    else if e == "doc" then DocText
    else if e == "rtf" then RtfText
    else if e == "odt" then OdtText
    else PlainText(e)
  }

  /** The choice ignores the case of the extension. */
  lemma DispatchIgnoresCase(extension: string)
    ensures ParserFor(Upper(extension)) == ParserFor(extension)
  {
    LowerUpper(extension);
  }

  /** The file-type label each parser gives its content; plain text is
      labelled with the upper-cased extension. */
  function FileTypeLabel(f: TextFormat): string {
    match f
    case PdfText => "PDF"
    case DocxText => "DOCX"
    case DocText => "DOC (partial)"
    case RtfText => "RTF"
    case OdtText => "ODT"
    case PlainText(e) => Upper(e)
  }

  // =====================================================================
  // RTF

  datatype RtfState = RtfState(inControlWord: bool, inHex: bool, braceDepth: int, skipGroup: bool)

  const RTF_START := RtfState(false, false, 0, false)

  predicate IsHexDigit(c: char) {
    ('0' <= c <= '9') || ('a' <= c <= 'f') || ('A' <= c <= 'F')
  }

  function Min(a: nat, b: nat): nat { if a <= b then a else b }

  /** The look-ahead of the skip-group test, `chars.clone().take(10)`. */
  const RTF_LOOKAHEAD: nat := 10

  /** A look-ahead long enough for `\stylesheet`, the longest destination
      word (eleven characters). */
  const CORRECTED_LOOKAHEAD: nat := 11

  /** The skip-group test on the first `window` characters after `{`. */
  predicate OpensSkipGroupWithin(rest: string, window: nat) {
    var ahead := rest[..Min(window, |rest|)];
    StartsWith(ahead, "\\fonttbl") || StartsWith(ahead, "\\colortbl")
    || StartsWith(ahead, "\\stylesheet") || StartsWith(ahead, "\\info")
  }

  /** The skip-group test as written: the ten-character look-ahead is
      compared with the four destination words, so `\stylesheet`, eleven
      characters long, can never match. */
  predicate OpensSkipGroupAsWritten(rest: string) {
    OpensSkipGroupWithin(rest, RTF_LOOKAHEAD)
  }

  /** The skip-group test on the text after `{` itself. */
  predicate OpensSkipGroup(rest: string) {
    StartsWith(rest, "\\fonttbl") || StartsWith(rest, "\\colortbl")
    || StartsWith(rest, "\\stylesheet") || StartsWith(rest, "\\info")
  }

  /** A stylesheet group is never skipped as written, and is skipped by the
      corrected test; the two tests agree on every other text. */
  lemma StylesheetLookahead(rest: string)
    ensures StartsWith(rest, "\\stylesheet") ==> !OpensSkipGroupAsWritten(rest) && OpensSkipGroup(rest)
    ensures !StartsWith(rest, "\\stylesheet") ==> (OpensSkipGroupAsWritten(rest) <==> OpensSkipGroup(rest))
  {
    var ahead := rest[..Min(10, |rest|)];
    if StartsWith(rest, "\\stylesheet") {
      assert rest[1] == 's';
      assert !StartsWith(ahead, "\\fonttbl") && !StartsWith(ahead, "\\colortbl") && !StartsWith(ahead, "\\info") by {
        if |ahead| >= 2 {
          assert ahead[1] == 's';
        }
      }
    } else {
      PrefixOfLookahead(rest, "\\fonttbl", RTF_LOOKAHEAD);
      PrefixOfLookahead(rest, "\\colortbl", RTF_LOOKAHEAD);
      PrefixOfLookahead(rest, "\\info", RTF_LOOKAHEAD);
    }
  }

  /** A word no longer than the window is a prefix of the look-ahead
      exactly when it is a prefix of the whole rest. */
  lemma PrefixOfLookahead(rest: string, word: string, window: nat)
    requires |word| <= window
    ensures StartsWith(rest[..Min(window, |rest|)], word) <==> StartsWith(rest, word)
  {
    var ahead := rest[..Min(window, |rest|)];
    if |word| <= |rest| {
      assert ahead[..|word|] == rest[..|word|];
    }
  }

  /** With the eleven-character look-ahead the test is the intended one. */
  lemma CorrectedLookahead(rest: string)
    ensures OpensSkipGroupWithin(rest, CORRECTED_LOOKAHEAD) <==> OpensSkipGroup(rest)
  {
    PrefixOfLookahead(rest, "\\fonttbl", CORRECTED_LOOKAHEAD);
    PrefixOfLookahead(rest, "\\colortbl", CORRECTED_LOOKAHEAD);
    PrefixOfLookahead(rest, "\\stylesheet", CORRECTED_LOOKAHEAD);
    PrefixOfLookahead(rest, "\\info", CORRECTED_LOOKAHEAD);
  }

  /** The text `extract_rtf_plain_text` emits from position i on, in state
      `st`, when the skip-group test looks `window` characters ahead: the
      program is `window == RTF_LOOKAHEAD`. Match arms in the source's
      order: braces, backslash, a space or line end closing a control word,
      the hex escape's digits, and plain text. */
  function RtfFrom(s: string, i: nat, st: RtfState, window: nat): (r: string)
    requires i <= |s|
    ensures |r| <= |s| - i
    decreases |s| - i
  {
    if i == |s| then ""
    else
      var ch := s[i];
      if ch == '{' then
        RtfFrom(s, i + 1, st.(braceDepth := st.braceDepth + 1,
                              skipGroup := st.skipGroup || OpensSkipGroupWithin(s[i + 1..], window)), window)
      else if ch == '}' then
        var depth := st.braceDepth - 1;
        RtfFrom(s, i + 1, st.(braceDepth := depth, skipGroup := if depth == 0 then false else st.skipGroup,
                              inControlWord := false), window)
      else if ch == '\\' then
        if st.skipGroup then RtfFrom(s, i + 1, st, window)
        else if i + 1 < |s| && (s[i + 1] == '\\' || s[i + 1] == '{' || s[i + 1] == '}') then
          [s[i + 1]] + RtfFrom(s, i + 2, st.(inControlWord := false), window)
        else if i + 1 < |s| && s[i + 1] == '\'' then
          RtfFrom(s, i + 2, st.(inHex := true, inControlWord := false), window)
        else RtfFrom(s, i + 1, st.(inControlWord := true), window)
      else if (ch == ' ' || ch == '\n' || ch == '\r') && st.inControlWord then
        RtfFrom(s, i + 1, st.(inControlWord := false), window)
      else if st.inHex then
        var pair := IsHexDigit(ch) && i + 1 < |s| && IsHexDigit(s[i + 1]);
        RtfFrom(s, if pair then i + 2 else i + 1, st.(inHex := false), window)
      else if !st.inControlWord && !st.skipGroup && st.braceDepth > 0 then
        [ch] + RtfFrom(s, i + 1, st, window)
      else RtfFrom(s, i + 1, st, window)
  }

  /** `extract_rtf_plain_text`, consuming the characters with a one-character
      look-ahead. */
  method ExtractRtfPlainText(content: string) returns (result: string)
    ensures result == RtfFrom(content, 0, RTF_START, RTF_LOOKAHEAD)
    ensures |result| <= |content|
  {
    result := "";
    var st := RTF_START;
    var i := 0;
    while i < |content|
      invariant 0 <= i <= |content|
      invariant result + RtfFrom(content, i, st, RTF_LOOKAHEAD) == RtfFrom(content, 0, RTF_START, RTF_LOOKAHEAD)
      decreases |content| - i
    {
      var emitted, next, st' := RtfStep(content, i, st);
      result := result + emitted;
      i, st := next, st';
    }
  }

  /** The test after `{`: the next ten characters, `take(10)`, compared
      with the four destination words. */
  method LookaheadOpensSkipGroup(content: string, next: nat) returns (opens: bool)
    requires next <= |content|
    ensures opens == OpensSkipGroupWithin(content[next..], RTF_LOOKAHEAD)
  {
    var ahead := content[next..][..Min(RTF_LOOKAHEAD, |content| - next)];
    opens := StartsWith(ahead, "\\fonttbl") || StartsWith(ahead, "\\colortbl")
             || StartsWith(ahead, "\\stylesheet") || StartsWith(ahead, "\\info");
  }

  /** One pass of the scanner's loop: the character at i and, in the arms
      that peek, the one after it. */
  method RtfStep(content: string, i: nat, st: RtfState) returns (emitted: string, next: nat, st': RtfState)
    requires i < |content|
    ensures i < next <= |content|
    ensures emitted + RtfFrom(content, next, st', RTF_LOOKAHEAD) == RtfFrom(content, i, st, RTF_LOOKAHEAD)
  {
    var inControlWord, inHex, braceDepth, skipGroup := st.inControlWord, st.inHex, st.braceDepth, st.skipGroup;
    emitted := "";
    var ch := content[i];
    next := i + 1;
    if ch == '{' {
      braceDepth := braceDepth + 1;
      var opens := LookaheadOpensSkipGroup(content, next);
      if opens {
        skipGroup := true;
      }
      assert RtfFrom(content, i, st, RTF_LOOKAHEAD)
          == RtfFrom(content, next, RtfState(inControlWord, inHex, braceDepth, skipGroup), RTF_LOOKAHEAD);
    } else if ch == '}' {
      braceDepth := braceDepth - 1;
      if braceDepth == 0 {
        skipGroup := false;
      }
      inControlWord := false;
      assert RtfFrom(content, i, st, RTF_LOOKAHEAD)
          == RtfFrom(content, next, RtfState(inControlWord, inHex, braceDepth, skipGroup), RTF_LOOKAHEAD);
    } else if ch == '\\' {
      if !skipGroup {
        inControlWord := true;
        if next < |content| {
          var peek := content[next];
          if peek == '\\' || peek == '{' || peek == '}' {
            emitted := [peek];
            next := next + 1;
            inControlWord := false;
          } else if peek == '\'' {
            next := next + 1;
            inHex := true;
            inControlWord := false;
          }
        }
      }
    } else if (ch == ' ' || ch == '\n' || ch == '\r') && inControlWord {
      inControlWord := false;
    } else if inHex {
      if IsHexDigit(ch) && next < |content| && IsHexDigit(content[next]) {
        next := next + 1;
      }
      inHex := false;
    } else if !inControlWord && !skipGroup && braceDepth > 0 {
      emitted := [ch];
    }
    st' := RtfState(inControlWord, inHex, braceDepth, skipGroup);
  }

  /** The group `{\stylesheet x}` inside an open group, as a test input. */
  const STYLESHEET_SAMPLE: string := "{{\\stylesheet x}y}"

  /** Text that does not start with a backslash opens no skipped group. */
  lemma NoBackslashNoSkip(rest: string, window: nat)
    requires 0 < |rest| && 0 < window && rest[0] != '\\'
    ensures !OpensSkipGroupWithin(rest, window)
  {
    var ahead := rest[..Min(window, |rest|)];
    assert ahead[0] == rest[0];
    forall word | word in ["\\fonttbl", "\\colortbl", "\\stylesheet", "\\info"]
      ensures !StartsWith(ahead, word)
    {
      assert word[0] == '\\';
    }
  }

  lemma StylesheetSampleLookahead()
    ensures !OpensSkipGroupWithin(STYLESHEET_SAMPLE[1..], RTF_LOOKAHEAD)
    ensures !OpensSkipGroupWithin(STYLESHEET_SAMPLE[2..], RTF_LOOKAHEAD)
  {
    NoBackslashNoSkip(STYLESHEET_SAMPLE[1..], RTF_LOOKAHEAD);
    var short := STYLESHEET_SAMPLE[2..][..RTF_LOOKAHEAD];
    assert short == "\\styleshee";
    assert short[..8] != "\\fonttbl" by { assert short[..8][1] == 's'; }
    assert short[..9] != "\\colortbl" by { assert short[..9][1] == 's'; }
    assert short[..5] != "\\info" by { assert short[..5][1] == 's'; }
  }

  lemma StylesheetSampleCorrectedLookahead()
    ensures !OpensSkipGroupWithin(STYLESHEET_SAMPLE[1..], CORRECTED_LOOKAHEAD)
    ensures OpensSkipGroupWithin(STYLESHEET_SAMPLE[2..], CORRECTED_LOOKAHEAD)
  {
    NoBackslashNoSkip(STYLESHEET_SAMPLE[1..], CORRECTED_LOOKAHEAD);
    assert STYLESHEET_SAMPLE[2..][..CORRECTED_LOOKAHEAD] == "\\stylesheet";
  }


  /** The program does not skip the stylesheet group of `{{\stylesheet x}y}`:
      the control word ends at the space, then "x" and "y" reach the text. */
  lemma StylesheetGroupText()
    ensures RtfFrom(STYLESHEET_SAMPLE, 0, RTF_START, RTF_LOOKAHEAD) == "xy"
  {
    var s, w := STYLESHEET_SAMPLE, RTF_LOOKAHEAD;
    StylesheetSampleLookahead();
    StylesheetWordAsWritten();
    assert RtfFrom(s, 2, RtfState(false, false, 2, false), w) == "xy";
    assert RtfFrom(s, 1, RtfState(false, false, 1, false), w) == "xy";
  }

  lemma StylesheetWordAsWritten()
    ensures RtfFrom(STYLESHEET_SAMPLE, 3, RtfState(true, false, 2, false), RTF_LOOKAHEAD) == "xy"
  {
    var s, w := STYLESHEET_SAMPLE, RTF_LOOKAHEAD;
    var word := RtfState(true, false, 2, false);
    StylesheetTailAsWritten();
    assert RtfFrom(s, 12, word, w) == "xy";
    assert RtfFrom(s, 11, word, w) == "xy";
    assert RtfFrom(s, 10, word, w) == "xy";
    assert RtfFrom(s, 9, word, w) == "xy";
    assert RtfFrom(s, 8, word, w) == "xy";
    assert RtfFrom(s, 7, word, w) == "xy";
    assert RtfFrom(s, 6, word, w) == "xy";
    assert RtfFrom(s, 5, word, w) == "xy";
    assert RtfFrom(s, 4, word, w) == "xy";
  }

  lemma StylesheetTailAsWritten()
    ensures RtfFrom(STYLESHEET_SAMPLE, 13, RtfState(true, false, 2, false), RTF_LOOKAHEAD) == "xy"
  {
    var s, w := STYLESHEET_SAMPLE, RTF_LOOKAHEAD;
    var d1, d2 := RtfState(false, false, 1, false), RtfState(false, false, 2, false);
    assert RtfFrom(s, 17, d1, w) == "";
    assert RtfFrom(s, 16, d1, w) == "y";
    assert RtfFrom(s, 15, d2, w) == "y";
    assert RtfFrom(s, 14, d2, w) == "xy";
  }

  /** With the corrected look-ahead the stylesheet group of
      `{{\stylesheet x}y}` is skipped, and the skip lasts until depth 0, so
      nothing is emitted. */
  lemma StylesheetGroupSkipped()
    ensures RtfFrom(STYLESHEET_SAMPLE, 0, RTF_START, CORRECTED_LOOKAHEAD) == ""
  {
    var s, w := STYLESHEET_SAMPLE, CORRECTED_LOOKAHEAD;
    StylesheetSampleCorrectedLookahead();
    StylesheetWordSkipped();
    assert RtfFrom(s, 2, RtfState(false, false, 2, true), w) == "";
    assert RtfFrom(s, 1, RtfState(false, false, 1, false), w) == "";
  }

  lemma StylesheetWordSkipped()
    ensures RtfFrom(STYLESHEET_SAMPLE, 3, RtfState(false, false, 2, true), CORRECTED_LOOKAHEAD) == ""
  {
    var s, w := STYLESHEET_SAMPLE, CORRECTED_LOOKAHEAD;
    var s2 := RtfState(false, false, 2, true);
    StylesheetTailSkipped();
    assert RtfFrom(s, 12, s2, w) == "";
    assert RtfFrom(s, 11, s2, w) == "";
    assert RtfFrom(s, 10, s2, w) == "";
    assert RtfFrom(s, 9, s2, w) == "";
    assert RtfFrom(s, 8, s2, w) == "";
    assert RtfFrom(s, 7, s2, w) == "";
    assert RtfFrom(s, 6, s2, w) == "";
    assert RtfFrom(s, 5, s2, w) == "";
    assert RtfFrom(s, 4, s2, w) == "";
  }

  lemma StylesheetTailSkipped()
    ensures RtfFrom(STYLESHEET_SAMPLE, 13, RtfState(false, false, 2, true), CORRECTED_LOOKAHEAD) == ""
  {
    var s, w := STYLESHEET_SAMPLE, CORRECTED_LOOKAHEAD;
    var s1, s2 := RtfState(false, false, 1, true), RtfState(false, false, 2, true);
    assert RtfFrom(s, 17, s1, w) == "";
    assert RtfFrom(s, 16, s1, w) == "";
    assert RtfFrom(s, 15, s2, w) == "";
    assert RtfFrom(s, 14, s2, w) == "";
  }


  /** `\\`, `\{` and `\}` outside a skipped group emit the escaped
      character itself, at any brace depth. */
  lemma EscapeEmitsLiteral(s: string, i: nat, st: RtfState, window: nat)
    requires i + 1 < |s| && s[i] == '\\' && (s[i + 1] == '\\' || s[i + 1] == '{' || s[i + 1] == '}')
    requires !st.skipGroup
    ensures RtfFrom(s, i, st, window) == [s[i + 1]] + RtfFrom(s, i + 2, st.(inControlWord := false), window)
  {
  }

  /** `\'` followed by two hex digits consumes all four characters and
      emits nothing. */
  lemma HexEscapeConsumesTwoDigits(s: string, i: nat, st: RtfState, window: nat)
    requires i + 3 < |s| && s[i] == '\\' && s[i + 1] == '\'' && IsHexDigit(s[i + 2]) && IsHexDigit(s[i + 3])
    requires !st.skipGroup
    ensures RtfFrom(s, i, st, window) == RtfFrom(s, i + 4, st.(inHex := false, inControlWord := false), window)
  {
    var st1 := st.(inHex := true, inControlWord := false);
    assert RtfFrom(s, i, st, window) == RtfFrom(s, i + 2, st1, window);
    assert RtfFrom(s, i + 2, st1, window) == RtfFrom(s, i + 4, st1.(inHex := false), window);
  }

  function BraceDelta(c: char): int {
    if c == '{' then 1 else if c == '}' then -1 else 0
  }

  /** Starting at depth d, the brace depth stays at least 1 over all of t. */
  predicate StaysOpen(t: string, d: int)
    decreases |t|
  {
    t == [] || (d + BraceDelta(t[0]) >= 1 && StaysOpen(t[1..], d + BraceDelta(t[0])))
  }

  /** Inside a skipped group nothing is emitted for as long as the depth
      stays above 0: a font table nested inside `{\rtf1 …}` silences all
      text up to the closing brace of the document. */
  lemma {:induction false} SkipGroupSilent(s: string, i: nat, st: RtfState, window: nat)
    requires i <= |s| && st.skipGroup && st.braceDepth >= 1 && StaysOpen(s[i..], st.braceDepth)
    ensures RtfFrom(s, i, st, window) == ""
    decreases |s| - i
  {
    if i < |s| {
      var ch := s[i];
      assert s[i..][0] == ch && s[i..][1..] == s[i + 1..];
      var d := st.braceDepth + BraceDelta(ch);
      if ch == '{' {
        SkipGroupSilent(s, i + 1, st.(braceDepth := d, skipGroup := true), window);
      } else if ch == '}' {
        SkipGroupSilent(s, i + 1, st.(braceDepth := d, inControlWord := false), window);
      } else if ch == '\\' {
        SkipGroupSilent(s, i + 1, st, window);
      } else if (ch == ' ' || ch == '\n' || ch == '\r') && st.inControlWord {
        SkipGroupSilent(s, i + 1, st.(inControlWord := false), window);
      } else if st.inHex {
        if IsHexDigit(ch) && i + 1 < |s| && IsHexDigit(s[i + 1]) {
          assert s[i + 1..][0] == s[i + 1] && s[i + 1..][1..] == s[i + 2..];
          SkipGroupSilent(s, i + 2, st.(inHex := false), window);
        } else {
          SkipGroupSilent(s, i + 1, st.(inHex := false), window);
        }
      } else {
        SkipGroupSilent(s, i + 1, st, window);
      }
    }
  }

  /** Before any `{` and without escapes, text is never emitted: plain
      characters need a positive brace depth. */
  lemma {:induction false} NothingOutsideGroups(s: string, i: nat, st: RtfState, window: nat)
    requires i <= |s| && st.braceDepth <= 0
    requires forall j :: i <= j < |s| ==> s[j] != '{' && s[j] != '\\'
    ensures RtfFrom(s, i, st, window) == ""
    decreases |s| - i
  {
    if i < |s| {
      var ch := s[i];
      if ch == '}' {
        var depth := st.braceDepth - 1;
        NothingOutsideGroups(s, i + 1, st.(braceDepth := depth, skipGroup := if depth == 0 then false else st.skipGroup,
                                           inControlWord := false), window);
      } else if (ch == ' ' || ch == '\n' || ch == '\r') && st.inControlWord {
        NothingOutsideGroups(s, i + 1, st.(inControlWord := false), window);
      } else if st.inHex {
        if IsHexDigit(ch) && i + 1 < |s| && IsHexDigit(s[i + 1]) {
          NothingOutsideGroups(s, i + 2, st.(inHex := false), window);
        } else {
          NothingOutsideGroups(s, i + 1, st.(inHex := false), window);
        }
      } else {
        NothingOutsideGroups(s, i + 1, st, window);
      }
    }
  }

  predicate AllWhitespace(s: string) {
    forall i :: 0 <= i < |s| ==> IsWhitespace(s[i])
  }

  /** `parse_rtf` on the decoded file: whitespace-only text is the error
      "No text found in RTF file". */
  method ParseRtf(content: string) returns (r: Result<TextContent, TextParserError>)
    ensures AllWhitespace(RtfFrom(content, 0, RTF_START, RTF_LOOKAHEAD)) <==> r == Err(Unsupported("No text found in RTF file"))
    ensures r.Ok? ==> r.value == NewTextContent(RtfFrom(content, 0, RTF_START, RTF_LOOKAHEAD), "RTF")
  {
    var text := ExtractRtfPlainText(content);
    if AllWhitespace(text) {
      return Err(Unsupported("No text found in RTF file"));
    }
    return Ok(NewTextContent(text, "RTF"));
  }

  // =====================================================================
  // Printable runs of binary documents

  /** Bytes that extend a run: printable ASCII, line feed, carriage return,
      tab, and every byte from 128 up. */
  predicate Kept(b: int) {
    (32 <= b <= 126) || b == 10 || b == 13 || b == 9 || b >= 128
  }

  /** The text `extract_strings_from_binary` emits from position i on with
      the run `current` collected so far. A byte is pushed as the `char` of
      the same value, and the run's length is its UTF-8 byte length. */
  function StringsFrom(bytes: seq<byte>, i: nat, current: string): string
    requires i <= |bytes|
    decreases |bytes| - i
  {
    if i == |bytes| then (if Utf8Len(current) > 3 then current else "")
    else if Kept(bytes[i]) then StringsFrom(bytes, i + 1, current + [bytes[i] as char])
    else (if Utf8Len(current) > 3 then current + " " else "") + StringsFrom(bytes, i + 1, "")
  }

  method ExtractStringsFromBinary(bytes: seq<byte>) returns (result: string)
    ensures result == StringsFrom(bytes, 0, "")
  {
    result := "";
    var current := "";
    var i := 0;
    while i < |bytes|
      invariant 0 <= i <= |bytes|
      invariant result + StringsFrom(bytes, i, current) == StringsFrom(bytes, 0, "")
    {
      var b := bytes[i];
      if (32 <= b <= 126) || b == 10 || b == 13 || b == 9 {
        current := current + [b as char];
      } else if b >= 128 {
        current := current + [b as char];
      } else {
        if Utf8Len(current) > 3 {
          result := result + current + " ";
        }
        current := "";
      }
      i := i + 1;
    }
    if Utf8Len(current) > 3 {
      result := result + current;
    }
  }

  predicate AllKept(s: string) {
    forall j :: 0 <= j < |s| ==> (s[j] as int) < 256 && Kept(s[j] as int)
  }

  /** The extract consists of kept bytes only: the separator is a space,
      itself a kept byte. */
  lemma {:induction false} StringsAreKept(bytes: seq<byte>, i: nat, current: string)
    requires i <= |bytes| && AllKept(current)
    ensures AllKept(StringsFrom(bytes, i, current))
    decreases |bytes| - i
  {
    if i < |bytes| {
      if Kept(bytes[i]) {
        StringsAreKept(bytes, i + 1, current + [bytes[i] as char]);
      } else {
        StringsAreKept(bytes, i + 1, "");
      }
    }
  }

  /** Two high bytes alone are four UTF-8 bytes long and form an emitted
      run, while three printable ASCII bytes are too short. */
  lemma RunLengthCountsBytes(b1: byte, b2: byte, a1: byte, a2: byte, a3: byte)
    requires b1 >= 128 && b2 >= 128
    requires 32 <= a1 <= 126 && 32 <= a2 <= 126 && 32 <= a3 <= 126
    ensures StringsFrom([b1, b2], 0, "") == [b1 as char, b2 as char]
    ensures StringsFrom([a1, a2, a3], 0, "") == ""
  {
    var high: seq<byte> := [b1, b2];
    var c1, c2 := b1 as char, b2 as char;
    assert [c1] + [c2] == [c1, c2];
    assert [c1, c2][..1] == [c1] && [c1][..0] == [];
    assert Utf8Len([c1, c2]) == 4;
    assert "" + [c1] == [c1] && Kept(high[0]);
    assert StringsFrom(high, 0, "") == StringsFrom(high, 1, [c1]);
    assert StringsFrom(high, 1, [c1]) == StringsFrom(high, 2, [c1, c2]);
    var low: seq<byte> := [a1, a2, a3];
    var d1, d2, d3 := a1 as char, a2 as char, a3 as char;
    assert [d1] + [d2] == [d1, d2] && [d1, d2] + [d3] == [d1, d2, d3];
    Utf8LenAscii([d1, d2, d3]);
    assert "" + [d1] == [d1] && Kept(low[0]);
    assert StringsFrom(low, 0, "") == StringsFrom(low, 1, [d1]);
    assert StringsFrom(low, 1, [d1]) == StringsFrom(low, 2, [d1, d2]);
    assert StringsFrom(low, 2, [d1, d2]) == StringsFrom(low, 3, [d1, d2, d3]);
  }

  /** `parse_doc`: an empty extract is the error naming the external
      tools. */
  method ParseDoc(bytes: seq<byte>) returns (r: Result<TextContent, TextParserError>)
    ensures StringsFrom(bytes, 0, "") == [] <==>
      r == Err(Unsupported("Legacy .doc format requires external tool (antiword/catdoc)"))
    ensures r.Ok? ==> r.value == NewTextContent(StringsFrom(bytes, 0, ""), "DOC (partial)")
  {
    var text := ExtractStringsFromBinary(bytes);
    if text == [] {
      return Err(Unsupported("Legacy .doc format requires external tool (antiword/catdoc)"));
    }
    return Ok(NewTextContent(text, "DOC (partial)"));
  }
}
