/** The base64 heuristic that both metadata analysers apply to text fields
    (ID3 comments and EXIF values carry identical copies of it). */
module MetadataRules {
  import opened Common

  /** `is_ascii_alphanumeric() || '+' || '/' || '='`. */
  predicate IsBase64Char(c: char) {
    ('A' <= c <= 'Z') || ('a' <= c <= 'z') || ('0' <= c <= '9') || c == '+' || c == '/' || c == '='
  }

  /** The number of characters of s in the base64 alphabet. */
  function Base64Count(s: string): (n: nat)
    ensures n <= |s|
  {
    if s == [] then 0 else Base64Count(s[..|s| - 1]) + (if IsBase64Char(s[|s| - 1]) then 1 else 0)
  }

  /** `is_potential_base64`: false below four bytes; otherwise the count of
      alphabet characters divided by the byte length must exceed 0.9.
      Characters are counted but bytes divide, so text outside ASCII counts
      against the rule twice. */
  predicate IsPotentialBase64(s: string) {
    Utf8Len(s) >= 4 && 10 * Base64Count(s) > 9 * Utf8Len(s)
  }

  lemma {:induction false} Base64CountAppend(a: string, b: string)
    ensures Base64Count(a + b) == Base64Count(a) + Base64Count(b)
    decreases |b|
  {
    if b == [] {
      assert a + b == a;
    } else {
      assert (a + b)[..|a + b| - 1] == a + b[..|b| - 1];
      Base64CountAppend(a, b[..|b| - 1]);
    }
  }

  lemma {:induction false} AllBase64Count(s: string)
    requires forall i :: 0 <= i < |s| ==> IsBase64Char(s[i])
    ensures Base64Count(s) == |s|
    decreases |s|
  {
    if s != [] {
      AllBase64Count(s[..|s| - 1]);
    }
  }

  /** The count of characters outside ASCII. */
  function NonAscii(s: string): (n: nat)
    ensures n <= |s|
  {
    if s == [] then 0 else NonAscii(s[..|s| - 1]) + (if (s[|s| - 1] as int) < 0x80 then 0 else 1)
  }

  /** Each character outside ASCII is outside the alphabet and adds at
      least one extra byte. */
  lemma {:induction false} NonAsciiBounds(s: string)
    ensures Base64Count(s) + NonAscii(s) <= |s|
    ensures |s| + NonAscii(s) <= Utf8Len(s)
    decreases |s|
  {
    if s != [] {
      NonAsciiBounds(s[..|s| - 1]);
    }
  }

  /** A flagged text has at least four alphabet characters and fewer than
      one character in nineteen outside ASCII. */
  lemma FlaggedTextIsMostlyAscii(s: string)
    requires IsPotentialBase64(s)
    ensures Base64Count(s) >= 4 && |s| >= 4
    ensures 19 * NonAscii(s) < |s|
  {
    NonAsciiBounds(s);
  }

  /** On ASCII text the rule reads: at least four characters, and fewer
      than a tenth of them outside the alphabet. */
  lemma AsciiRule(s: string)
    requires forall i :: 0 <= i < |s| ==> (s[i] as int) < 0x80
    ensures IsPotentialBase64(s) <==> |s| >= 4 && 10 * (|s| - Base64Count(s)) < |s|
  {
    Utf8LenAscii(s);
  }

  /** Text drawn from the alphabet alone, four characters or more, is
      flagged. */
  lemma AlphabetTextFlagged(s: string)
    requires |s| >= 4
    requires forall i :: 0 <= i < |s| ==> IsBase64Char(s[i])
    ensures IsPotentialBase64(s)
  {
    AllBase64Count(s);
    Utf8LenAscii(s);
  }

  /** The rule as coded on the test strings: a base64 word is flagged,
      "abc" is too short, and "Hello World" (ten alphabet characters in
      eleven bytes) is flagged as well. */
  lemma Base64Examples()
    ensures IsPotentialBase64("SGVsbG8gV29ybGQ=")
    ensures IsPotentialBase64("dGVzdGluZzEyMzQ1Njc4OTA=")
    ensures !IsPotentialBase64("abc")
    ensures IsPotentialBase64("Hello World")
  {
    AlphabetTextFlagged("SGVsbG8gV29ybGQ=");
    AlphabetTextFlagged("dGVzdGluZzEyMzQ1Njc4OTA=");
    Utf8LenAscii("abc");
    var hello, world := "Hello", "World";
    assert "Hello World" == hello + " " + world;
    AllBase64Count(hello);
    AllBase64Count(world);
    assert Base64Count(" ") == 0;
    Base64CountAppend(hello, " ");
    Base64CountAppend(hello + " ", world);
    Utf8LenAscii("Hello World");
  }
}
