/** Shared vocabulary of the StegaScan model: failure-compatible wrappers,
    bytes, ASCII case mapping, substring search, UTF-8 lengths, number
    formatting and the RGBA pixel grid that every image analyser consumes. */
module Common {

  datatype Option<+T> = None | Some(value: T)

  /** The `Result` of a Rust operation; `Panic` stands for a run that aborts
      (integer underflow, division by zero, an out-of-range slice). */
  datatype Result<+T, +E> = Ok(value: T) | Err(error: E) | Panic

  type byte = x: int | 0 <= x < 256

  /** One least-significant bit, as `pixel[channel] & 1` produces it. */
  type Bit = x: int | 0 <= x < 2

  /** An `f64` result of the analysers, computed exactly; `NaN` is the value
      Rust produces for `0.0 / 0.0`, and it compares false with everything. */
  datatype Score = Num(value: real) | NaN

  /** `score > threshold` on an `f64` that may be NaN. */
  predicate Exceeds(s: Score, threshold: real) {
    s.Num? && s.value > threshold
  }

  function AddScore(a: Score, b: Score): Score {
    if a.Num? && b.Num? then Num(a.value + b.value) else NaN
  }

  /** `a / b`; only the `0.0 / 0.0` case of a zero divisor arises here. */
  function Divide(a: real, b: real): (s: Score)
    requires b != 0.0 || a == 0.0
    ensures s.NaN? <==> b == 0.0
  {
    if b == 0.0 then NaN else Num(a / b)
  }

  // ---------------------------------------------------------------------
  // ASCII case mapping (Rust's `to_lowercase` / `to_uppercase` on ASCII text)

  function LowerChar(c: char): (r: char)
    ensures 'A' <= c <= 'Z' ==> r as int == c as int + 32
    ensures !('A' <= c <= 'Z') ==> r == c
  {
    if 'A' <= c <= 'Z' then (c as int + 32) as char else c
  }

  function UpperChar(c: char): (r: char)
    ensures 'a' <= c <= 'z' ==> r as int == c as int - 32
    ensures !('a' <= c <= 'z') ==> r == c
  {
    if 'a' <= c <= 'z' then (c as int - 32) as char else c
  }

  function Lower(s: string): (r: string)
    ensures |r| == |s|
    ensures forall i :: 0 <= i < |s| ==> r[i] == LowerChar(s[i])
  {
    if s == [] then [] else [LowerChar(s[0])] + Lower(s[1..])
  }

  function Upper(s: string): (r: string)
    ensures |r| == |s|
    ensures forall i :: 0 <= i < |s| ==> r[i] == UpperChar(s[i])
  {
    if s == [] then [] else [UpperChar(s[0])] + Upper(s[1..])
  }

  /** t is the lower-cased form of s from position i on, checked one
      position at a time (so it evaluates on literals). */
  predicate LowersFrom(s: string, t: string, i: nat)
    requires |s| == |t|
    decreases |s| - i
  {
    i >= |s| || (LowerChar(s[i]) == t[i] && LowersFrom(s, t, i + 1))
  }

  lemma {:induction false} LowersFromAt(s: string, t: string, k: nat, i: nat)
    requires |s| == |t| && k <= i < |s| && LowersFrom(s, t, k)
    ensures LowerChar(s[i]) == t[i]
    decreases i - k
  {
    if k < i {
      LowersFromAt(s, t, k + 1, i);
    }
  }

  lemma LowerIs(s: string, t: string)
    requires |s| == |t| && LowersFrom(s, t, 0)
    ensures Lower(s) == t
  {
    forall i | 0 <= i < |s| ensures Lower(s)[i] == t[i] {
      LowersFromAt(s, t, 0, i);
    }
  }

  /** t is the upper-cased form of s from position i on, checked one
      position at a time. */
  predicate UppersFrom(s: string, t: string, i: nat)
    requires |s| == |t|
    decreases |s| - i
  {
    i >= |s| || (UpperChar(s[i]) == t[i] && UppersFrom(s, t, i + 1))
  }

  lemma {:induction false} UppersFromAt(s: string, t: string, k: nat, i: nat)
    requires |s| == |t| && k <= i < |s| && UppersFrom(s, t, k)
    ensures UpperChar(s[i]) == t[i]
    decreases i - k
  {
    if k < i {
      UppersFromAt(s, t, k + 1, i);
    }
  }

  lemma UpperIs(s: string, t: string)
    requires |s| == |t| && UppersFrom(s, t, 0)
    ensures Upper(s) == t
  {
    forall i | 0 <= i < |s| ensures Upper(s)[i] == t[i] {
      UppersFromAt(s, t, 0, i);
    }
  }

  /** Upper-casing first does not change the lower-cased form. */
  lemma {:induction false} LowerUpper(s: string)
    ensures Lower(Upper(s)) == Lower(s)
  {
    var a, b := Lower(Upper(s)), Lower(s);
    forall i | 0 <= i < |s| ensures a[i] == b[i] {
      assert LowerChar(UpperChar(s[i])) == LowerChar(s[i]);
    }
  }

  // ---------------------------------------------------------------------
  // Prefixes and substrings

  predicate StartsWith<T(==)>(s: seq<T>, prefix: seq<T>) {
    |prefix| <= |s| && s[..|prefix|] == prefix
  }

  /** `haystack.contains(needle)`: some position holds the needle. */
  predicate Contains<T(==)>(haystack: seq<T>, needle: seq<T>) {
    exists i :: 0 <= i <= |haystack| && HasAt(haystack, needle, i)
  }

  predicate OccursAt<T(==)>(haystack: seq<T>, needle: seq<T>, i: int) {
    0 <= i && i + |needle| <= |haystack| && haystack[i..i + |needle|] == needle
  }

  /** The element-by-element search agrees with the slice definition of a
      substring. */
  lemma ContainsIff<T>(haystack: seq<T>, needle: seq<T>)
    ensures Contains(haystack, needle) <==> exists i :: OccursAt(haystack, needle, i)
  {
    forall i | 0 <= i <= |haystack| ensures HasAt(haystack, needle, i) <==> OccursAt(haystack, needle, i) {
      HasAtIff(haystack, needle, i);
    }
  }

  /** Index-wise comparison of `needle[j..]` with the text at `i + j`; on
      string literals it evaluates position by position. */
  predicate MatchesFrom<T(==)>(haystack: seq<T>, needle: seq<T>, i: nat, j: nat)
    requires i + |needle| <= |haystack| && j <= |needle|
    decreases |needle| - j
  {
    j == |needle| || (haystack[i + j] == needle[j] && MatchesFrom(haystack, needle, i, j + 1))
  }

  /** The needle sits at position i, compared element by element. */
  predicate HasAt<T(==)>(haystack: seq<T>, needle: seq<T>, i: nat) {
    i + |needle| <= |haystack| && MatchesFrom(haystack, needle, i, 0)
  }

  /** The element-by-element test is `haystack[i..].starts_with(needle)`. */
  lemma HasAtIff<T>(haystack: seq<T>, needle: seq<T>, i: nat)
    requires i <= |haystack|
    ensures HasAt(haystack, needle, i) <==> StartsWith(haystack[i..], needle)
    ensures HasAt(haystack, needle, i) <==> OccursAt(haystack, needle, i)
  {
    if i + |needle| <= |haystack| {
      MatchesFromIff(haystack, needle, i, 0);
      assert haystack[i..][..|needle|] == haystack[i..i + |needle|];
    }
  }

  /** No position from i on holds the needle. */
  predicate NoMatchFrom<T(==)>(haystack: seq<T>, needle: seq<T>, i: nat)
    decreases |haystack| - i
  {
    i + |needle| > |haystack| || (!MatchesFrom(haystack, needle, i, 0) && NoMatchFrom(haystack, needle, i + 1))
  }

  lemma {:induction false} MatchesFromIff<T>(haystack: seq<T>, needle: seq<T>, i: nat, j: nat)
    requires i + |needle| <= |haystack| && j <= |needle|
    ensures MatchesFrom(haystack, needle, i, j) <==> haystack[i + j..i + |needle|] == needle[j..]
    decreases |needle| - j
  {
    if j < |needle| {
      MatchesFromIff(haystack, needle, i, j + 1);
      assert haystack[i + j..i + |needle|] == [haystack[i + j]] + haystack[i + j + 1..i + |needle|];
      assert needle[j..] == [needle[j]] + needle[j + 1..];
    }
  }

  lemma {:induction false} NoMatchFromAt<T>(haystack: seq<T>, needle: seq<T>, k: nat, i: nat)
    requires k <= i && i + |needle| <= |haystack| && NoMatchFrom(haystack, needle, k)
    ensures !OccursAt(haystack, needle, i)
    decreases i - k
  {
    if k < i {
      NoMatchFromAt(haystack, needle, k + 1, i);
    } else {
      MatchesFromIff(haystack, needle, i, 0);
    }
  }

  /** The position-by-position check decides non-containment. */
  lemma NoMatchNotContains<T>(haystack: seq<T>, needle: seq<T>)
    requires NoMatchFrom(haystack, needle, 0)
    ensures !Contains(haystack, needle)
  {
    ContainsIff(haystack, needle);
    forall i | OccursAt(haystack, needle, i) ensures false {
      NoMatchFromAt(haystack, needle, 0, i);
    }
  }

  // ---------------------------------------------------------------------
  // UTF-8: Rust's `str::len` counts bytes, `chars().count()` counts scalars

  function Utf8CharLen(c: char): (n: nat)
    ensures 1 <= n <= 4
    ensures n == 1 <==> (c as int) < 0x80
  {
    if (c as int) < 0x80 then 1
    else if (c as int) < 0x800 then 2
    else if (c as int) < 0x10000 then 3
    else 4
  }

  function Utf8Len(s: string): (n: nat)
    ensures |s| <= n <= 4 * |s|
  {
    if s == [] then 0 else Utf8Len(s[..|s| - 1]) + Utf8CharLen(s[|s| - 1])
  }

  lemma {:induction false} Utf8LenAppend(a: string, b: string)
    ensures Utf8Len(a + b) == Utf8Len(a) + Utf8Len(b)
    decreases |b|
  {
    if b == [] {
      assert a + b == a;
    } else {
      assert (a + b)[..|a + b| - 1] == a + b[..|b| - 1];
      Utf8LenAppend(a, b[..|b| - 1]);
    }
  }

  /** A string of ASCII characters is as many bytes long as it has characters. */
  lemma {:induction false} Utf8LenAscii(s: string)
    requires forall i :: 0 <= i < |s| ==> (s[i] as int) < 0x80
    ensures Utf8Len(s) == |s|
    decreases |s|
  {
    if s != [] {
      Utf8LenAscii(s[..|s| - 1]);
    }
  }

  // ---------------------------------------------------------------------
  // Number formatting: `{}` and `{:X}`

  function DigitChar(d: nat): (c: char)
    requires d < 16
  {
    if d < 10 then ('0' as int + d) as char else ('A' as int + d - 10) as char
  }

  function NatToString(n: nat, base: nat): (s: string)
    requires 2 <= base <= 16
    ensures |s| >= 1
    decreases n
  {
    if n < base then [DigitChar(n)] else NatToString(n / base, base) + [DigitChar(n % base)]
  }

  function Decimal(n: nat): string { NatToString(n, 10) }

  function HexUpper(n: nat): string { NatToString(n, 16) }

  // ---------------------------------------------------------------------
  // Rust's saturating subtraction on unsigned integers

  function SatSub(a: nat, b: nat): (r: nat)
    ensures a >= b ==> r == a - b
    ensures a < b ==> r == 0
  {
    if a >= b then a - b else 0
  }

  // ---------------------------------------------------------------------
  // Decoded RGBA images (the `image` crate's `RgbaImage`), row-major

  datatype Rgba = Rgba(r: byte, g: byte, b: byte, a: byte)

  /** `pixel[channel]` for the four channels R, G, B, A. */
  function Channel(p: Rgba, c: nat): byte
    requires c < 4
  {
    if c == 0 then p.r else if c == 1 then p.g else if c == 2 then p.b else p.a
  }

  datatype RgbaImage = RgbaImage(width: nat, height: nat, pixels: seq<Rgba>) {
    predicate WellFormed() { |pixels| == width * height }
  }

  /** `image.get_pixel(x, y)`. */
  function PixelAt(img: RgbaImage, x: nat, y: nat): Rgba
    requires img.WellFormed() && x < img.width && y < img.height
  {
    RowMajorBound(x, y, img.width, img.height);
    img.pixels[y * img.width + x]
  }

  lemma RowMajorBound(x: nat, y: nat, w: nat, h: nat)
    requires x < w && y < h
    ensures y * w + x < w * h
  {
    assert y * w + x < y * w + w == (y + 1) * w <= h * w;
  }
}
