/** Rust strings as their UTF-8 bytes: validity, white space, decimal numbers. */
module Text {
  import opened Basics

  type i8 = x: int | -0x80 <= x < 0x80
  type i16 = x: int | -0x8000 <= x < 0x8000

  /** The bytes of an ASCII literal. */
  function Ascii(t: string): (r: bytes)
    requires forall i | 0 <= i < |t| :: t[i] < '\U{80}'
    ensures |r| == |t|
    ensures forall i | 0 <= i < |t| :: r[i] == t[i] as int < 0x80
  {
    seq(|t|, i requires 0 <= i < |t| => (t[i] as int) as byte)
  }

  predicate StartsWith(s: bytes, w: bytes) {
    |w| <= |s| && s[..|w|] == w
  }

  // ---------- UTF-8 ----------

  predicate Continues(b: byte) { 0x80 <= b < 0xC0 }

  /** The length of the well-formed character at the start of `s`, 0 when there is none
      (Table 3-7 of the Unicode Standard). */
  function CharLength(s: bytes): (n: nat)
    ensures n <= |s|
  {
    if |s| == 0 then 0
    else if s[0] < 0x80 then 1
    else if |s| >= 2 && 0xC2 <= s[0] < 0xE0 && Continues(s[1]) then 2
    else if |s| >= 3 && 0xE0 <= s[0] < 0xF0 && Continues(s[1]) && Continues(s[2])
            && (s[0] == 0xE0 ==> s[1] >= 0xA0) && (s[0] == 0xED ==> s[1] < 0xA0) then 3
    else if |s| >= 4 && 0xF0 <= s[0] < 0xF5 && Continues(s[1]) && Continues(s[2]) && Continues(s[3])
            && (s[0] == 0xF0 ==> s[1] >= 0x90) && (s[0] == 0xF4 ==> s[1] < 0x90) then 4
    else 0
  }

  predicate Utf8(s: bytes) {
    |s| == 0 || (CharLength(s) > 0 && Utf8(s[CharLength(s)..]))
  }

  lemma {:induction false} Utf8Concat(a: bytes, b: bytes)
    requires Utf8(a) && Utf8(b)
    ensures Utf8(a + b)
  {
    if |a| == 0 {
      assert a + b == b;
    } else {
      var n := CharLength(a);
      assert CharLength(a + b) == n;
      assert (a + b)[n..] == a[n..] + b;
      Utf8Concat(a[n..], b);
    }
  }

  lemma {:induction false} AsciiIsUtf8(s: bytes)
    requires forall i | 0 <= i < |s| :: s[i] < 0x80
    ensures Utf8(s)
  {
    if |s| > 0 {
      AsciiIsUtf8(s[1..]);
    }
  }

  /** `str` slicing panics unless both ends fall between characters. */
  predicate IsBoundary(s: bytes, i: nat) {
    i == 0 || i == |s| || (i < |s| && !Continues(s[i]))
  }

  // ---------- white space ----------

  /** The length of the white-space character at `p`, 0 when there is none. */
  function SpaceAt(s: bytes, p: nat): (n: nat)
    requires p <= |s|
    ensures p + n <= |s|
  {
    if p == |s| then 0
    else if s[p] == 0x20 || 0x09 <= s[p] <= 0x0D then 1
    else if p + 2 <= |s| && s[p] == 0xC2 && (s[p + 1] == 0x85 || s[p + 1] == 0xA0) then 2
    else if p + 3 <= |s| && IsWideSpace(s[p], s[p + 1], s[p + 2]) then 3
    else 0
  }

  /** U+1680, U+2000 to U+200A, U+2028, U+2029, U+202F, U+205F and U+3000. */
  predicate IsWideSpace(a: byte, b: byte, c: byte) {
    || (a == 0xE1 && b == 0x9A && c == 0x80)
    || (a == 0xE2 && b == 0x80 && (0x80 <= c <= 0x8A || c == 0xA8 || c == 0xA9 || c == 0xAF))
    || (a == 0xE2 && b == 0x81 && c == 0x9F)
    || (a == 0xE3 && b == 0x80 && c == 0x80)
  }

  function SkipSpaces(s: bytes, p: nat): (q: nat)
    requires p <= |s|
    ensures p <= q <= |s|
    decreases |s| - p
  {
    if SpaceAt(s, p) == 0 then p else SkipSpaces(s, p + SpaceAt(s, p))
  }

  /** The length of the white-space character that ends `s`, 0 when there is none. */
  function SpaceBefore(s: bytes): (n: nat)
    ensures n <= |s|
  {
    if |s| >= 1 && SpaceAt(s, |s| - 1) == 1 then 1
    else if |s| >= 2 && SpaceAt(s, |s| - 2) == 2 then 2
    else if |s| >= 3 && SpaceAt(s, |s| - 3) == 3 then 3
    else 0
  }

  function TrimEnd(s: bytes): bytes {
    if SpaceBefore(s) == 0 then s else TrimEnd(s[..|s| - SpaceBefore(s)])
  }

  function Trim(s: bytes): bytes {
    TrimEnd(s[SkipSpaces(s, 0)..])
  }

  // ---------- numbers ----------

  predicate IsDigit(b: byte) { 0x30 <= b <= 0x39 }

  ghost predicate AllDigits(s: bytes) {
    forall i | 0 <= i < |s| :: IsDigit(s[i])
  }

  function Digits(n: nat): (r: bytes)
    ensures |r| > 0 && AllDigits(r)
  {
    if n < 10 then [0x30 + n] else Digits(n / 10) + [0x30 + n % 10]
  }

  /** The number the digits spell; None unless every byte is a digit. */
  function DigitsValue(s: bytes): Option<nat> {
    if |s| == 0 then Some(0)
    else match DigitsValue(s[..|s| - 1])
      case None => None
      case Some(v) => if IsDigit(s[|s| - 1]) then Some(10 * v + (s[|s| - 1] - 0x30)) else None
  }

  /** `str::parse` of an unsigned type with largest value `max`: a plus sign is allowed. */
  function ParseUnsigned(s: bytes, max: nat): Option<nat> {
    var digits := if |s| > 1 && s[0] == 0x2B then s[1..] else s;
    if |digits| == 0 then None
    else match DigitsValue(digits)
      case None => None
      case Some(v) => if v <= max then Some(v) else None
  }

  lemma {:induction false} DigitsRoundTrip(n: nat)
    ensures DigitsValue(Digits(n)) == Some(n)
  {
    var d := Digits(n);
    if n >= 10 {
      DigitsRoundTrip(n / 10);
      assert d[..|d| - 1] == Digits(n / 10);
    } else {
      assert d[..0] == [];
    }
  }

  lemma ParseDigits(n: nat, max: nat)
    requires n <= max
    ensures ParseUnsigned(Digits(n), max) == Some(n)
  {
    DigitsRoundTrip(n);
    assert IsDigit(Digits(n)[0]);
  }

  function SignedDigits(n: int): bytes {
    if n < 0 then [0x2D] + Digits(-n) else Digits(n)
  }
}
