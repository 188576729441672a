/** Characters behind the bytes: what UTF-8, white space and slicing of strings mean in terms of code points. */
module Characters {
  import opened Basics
  import opened Text

  /** Unicode scalar values. */
  type Scalar = c: nat | c < 0xD800 || 0xE000 <= c < 0x11_0000

  /** A continuation byte holding the last six bits. */
  function Tail(c: nat): byte { 0x80 + c % 0x40 }

  /** UTF-8 of a scalar value (section 3 of RFC 3629). */
  function Encode(c: Scalar): (r: bytes)
    ensures |r| > 0
  {
    var d: nat := c / 0x40;
    var e: nat := d / 0x40;
    if c < 0x80 then [c]
    else if c < 0x800 then [0xC0 + d, Tail(c)]
    else if c < 0x1_0000 then [0xE0 + e, Tail(d), Tail(c)]
    else
      assert c < 0x11_0000 && d < 0x4400 && e < 0x110;
      [0xF0 + e / 0x40, Tail(e), Tail(d), Tail(c)]
  }

  function EncodeAll(cs: seq<Scalar>): bytes {
    if |cs| == 0 then [] else Encode(cs[0]) + EncodeAll(cs[1..])
  }

  /** The character at the start of a string. */
  lemma First(s: bytes) returns (c: Scalar)
    requires CharLength(s) > 0
    ensures Encode(c) == s[..CharLength(s)]
  {
    hide Encode;
    var n := CharLength(s);
    if n == 1 {
      c := One(s[0]);
    } else if n == 2 {
      c := Two(s[0], s[1]);
    } else if n == 3 {
      c := Three(s[0], s[1], s[2]);
    } else {
      c := Four(s[0], s[1], s[2], s[3]);
    }
  }

  lemma One(a: byte) returns (c: Scalar)
    requires a < 0x80
    ensures Encode(c) == [a]
  {
    c := a as nat;
  }

  lemma Two(a: byte, b: byte) returns (v: Scalar)
    requires 0xC2 <= a < 0xE0 && Continues(b)
    ensures Encode(v) == [a, b]
  {
    var w: int := (a - 0xC0) * 0x40 + (b - 0x80);
    v := w;
    assert v / 0x40 == a - 0xC0 && v % 0x40 == b - 0x80;
  }

  lemma Three(a: byte, b: byte, c: byte) returns (v: Scalar)
    requires 0xE0 <= a < 0xF0 && Continues(b) && Continues(c)
    requires (a == 0xE0 ==> b >= 0xA0) && (a == 0xED ==> b < 0xA0)
    ensures Encode(v) == [a, b, c]
  {
    var d := (a - 0xE0) * 0x40 + (b - 0x80);
    var w: int := d * 0x40 + (c - 0x80);
    v := w;
    assert v / 0x40 == d && v % 0x40 == c - 0x80;
    assert d / 0x40 == a - 0xE0 && d % 0x40 == b - 0x80;
  }

  lemma Four(a: byte, b: byte, c: byte, e: byte) returns (v: Scalar)
    requires 0xF0 <= a < 0xF5 && Continues(b) && Continues(c) && Continues(e)
    requires (a == 0xF0 ==> b >= 0x90) && (a == 0xF4 ==> b < 0x90)
    ensures Encode(v) == [a, b, c, e]
  {
    var f := (a - 0xF0) * 0x40 + (b - 0x80);
    var d := f * 0x40 + (c - 0x80);
    var w: int := d * 0x40 + (e - 0x80);
    v := w;
    assert v / 0x40 == d && v % 0x40 == e - 0x80;
    assert d / 0x40 == f && d % 0x40 == c - 0x80;
    assert f / 0x40 == a - 0xF0 && f % 0x40 == b - 0x80;
  }

  lemma EncodedLength(c: Scalar, rest: bytes)
    ensures CharLength(Encode(c) + rest) == |Encode(c)|
  {
    var d: nat := c / 0x40;
    var e: nat := d / 0x40;
    var s := Encode(c) + rest;
    assert c == 0x40 * d + c % 0x40 && d == 0x40 * e + d % 0x40;
    assert c < 0x11_0000 && d < 0x4400 && e < 0x110;
    if 0x800 <= c < 0x1_0000 {
      assert s[0] == 0xE0 + e && s[1] == Tail(d);
      assert e == 0 ==> d >= 0x20;
      assert e == 13 ==> d % 0x40 < 0x20;
    } else if c >= 0x1_0000 {
      assert e / 0x40 < 5;
      assert e == 0x40 * (e / 0x40) + e % 0x40;
      assert s[0] == 0xF0 + e / 0x40 && s[1] == Tail(e);
      assert e / 0x40 == 0 ==> e >= 0x10;
      assert e / 0x40 == 4 ==> e % 0x40 < 0x10;
    }
  }

  /** A string is UTF-8 exactly when it is the encoding of scalar values. */
  lemma Utf8IsEncoded(s: bytes)
    ensures Utf8(s) <==> exists cs: seq<Scalar> :: s == EncodeAll(cs)
  {
    if Utf8(s) {
      var cs := Decoded(s);
      assert s == EncodeAll(cs);
    }
    if exists cs: seq<Scalar> :: s == EncodeAll(cs) {
      var cs: seq<Scalar> :| s == EncodeAll(cs);
      EncodedIsUtf8(cs);
    }
  }

  lemma {:induction false} Decoded(s: bytes) returns (cs: seq<Scalar>)
    requires Utf8(s)
    ensures s == EncodeAll(cs)
    decreases |s|
  {
    hide CharLength, Encode;
    if |s| == 0 {
      cs := [];
    } else {
      var n := CharLength(s);
      var more := Decoded(s[n..]);
      var c := First(s);
      cs := [c] + more;
      assert cs[1..] == more && s == s[..n] + s[n..];
    }
  }

  lemma {:induction false} EncodedIsUtf8(cs: seq<Scalar>)
    ensures Utf8(EncodeAll(cs))
    decreases |cs|
  {
    hide CharLength, Encode;
    if |cs| > 0 {
      var rest := EncodeAll(cs[1..]);
      EncodedLength(cs[0], rest);
      EncodedIsUtf8(cs[1..]);
      assert EncodeAll(cs)[|Encode(cs[0])|..] == rest;
    }
  }

  // ---------- white space ----------

  /** The characters with the property White_Space. */
  predicate White(c: Scalar) {
    || 0x09 <= c <= 0x0D || c == 0x20 || c == 0x85 || c == 0xA0 || c == 0x1680 || 0x2000 <= c <= 0x200A
    || c == 0x2028 || c == 0x2029 || c == 0x202F || c == 0x205F || c == 0x3000
  }

  /** White space is recognised by the character that stands there. */
  lemma SpaceIsWhite(s: bytes, p: nat, c: Scalar)
    requires Holds(s, p, Encode(c))
    ensures p <= |s| && SpaceAt(s, p) == if White(c) then |Encode(c)| else 0
  {
    hide Holds, Encode, White;
    var w := Encode(c);
    HoldsInside(s, p, w);
    HoldsAt(s, p, w);
    assert s[p + 0] == w[0];
    if c < 0x80 {
      WhiteOne(c);
    } else if c < 0x800 {
      WhiteTwo(c);
      assert s[p + 1] == w[1];
    } else if c < 0x1_0000 {
      WhiteThree(c);
      assert s[p + 1] == w[1] && s[p + 2] == w[2];
    } else {
      WhiteFour(c);
    }
  }

  lemma HoldsAt(s: bytes, p: nat, w: bytes)
    requires Holds(s, p, w)
    ensures p + |w| <= |s| && forall k: nat | k < |w| :: s[p + k] == w[k]
  {
    assert forall k: nat | k < |w| :: s[p..p + |w|][k] == w[k];
  }

  lemma WhiteOne(c: Scalar)
    requires c < 0x80
    ensures Encode(c) == [c] && (White(c) <==> c == 0x20 || 0x09 <= c <= 0x0D)
  {
  }

  lemma WhiteTwo(c: Scalar)
    requires 0x80 <= c < 0x800
    ensures |Encode(c)| == 2 && 0xC2 <= Encode(c)[0] < 0xE0
    ensures White(c) <==> Encode(c)[0] == 0xC2 && Encode(c)[1] in {0x85, 0xA0}
  {
  }

  lemma WhiteThree(c: Scalar)
    requires 0x800 <= c < 0x1_0000
    ensures |Encode(c)| == 3 && 0xE0 <= Encode(c)[0] < 0xF0
    ensures White(c) <==> IsWideSpace(Encode(c)[0], Encode(c)[1], Encode(c)[2])
  {
    var d: nat := c / 0x40;
    var e: nat := d / 0x40;
    assert c == 0x40 * d + c % 0x40 && d == 0x40 * e + d % 0x40;
  }

  lemma WhiteFour(c: Scalar)
    requires 0x1_0000 <= c
    ensures |Encode(c)| == 4 && 0xF0 <= Encode(c)[0] && !White(c)
  {
  }

  ghost predicate AllWhite(cs: seq<Scalar>) { forall c | c in cs :: White(c) }

  /** No white space stands at either end. */
  ghost predicate Bare(s: bytes) {
    forall c: Scalar | White(c) ::
      var w := Encode(c);
      !StartsWith(s, w) && !(|w| <= |s| && s[|s| - |w|..] == w)
  }

  lemma SpaceChar(s: bytes, p: nat) returns (c: Scalar)
    requires p <= |s| && SpaceAt(s, p) > 0
    ensures White(c) && Encode(c) == s[p..p + SpaceAt(s, p)]
  {
    hide White, Encode;
    var n := SpaceAt(s, p);
    var t := s[p..p + n];
    assert t[0] == s[p];
    assert n > 1 ==> t[1] == s[p + 1];
    assert n > 2 ==> t[2] == s[p + 2];
    assert CharLength(t) == n;
    c := First(t);
    assert t[..n] == t;
    SpaceIsWhite(s, p, c);
  }

  lemma {:induction false} EncodeMore(cs: seq<Scalar>, c: Scalar)
    ensures EncodeAll(cs + [c]) == EncodeAll(cs) + Encode(c)
  {
    hide Encode;
    if |cs| == 0 {
      assert cs + [c] == [c] && [c][1..] == [] && EncodeAll([]) == [];
      assert EncodeAll([c]) == Encode(c) + EncodeAll([]);
    } else {
      EncodeMore(cs[1..], c);
      assert (cs + [c])[1..] == cs[1..] + [c];
    }
  }

  lemma {:induction false} FrontWhite(s: bytes, p: nat) returns (cs: seq<Scalar>)
    requires p <= |s|
    ensures AllWhite(cs) && EncodeAll(cs) == s[p..SkipSpaces(s, p)]
    ensures SpaceAt(s, SkipSpaces(s, p)) == 0
    decreases |s| - p
  {
    hide SpaceAt, Encode, White;
    var n := SpaceAt(s, p);
    if n == 0 {
      cs := [];
      assert EncodeAll([]) == [];
    } else {
      var c := SpaceChar(s, p);
      var more := FrontWhite(s, p + n);
      cs := [c] + more;
      assert cs[1..] == more;
      var q := SkipSpaces(s, p);
      assert s[p..q] == s[p..p + n] + s[p + n..q];
    }
  }

  lemma BeforeIsSpace(s: bytes)
    ensures SpaceBefore(s) > 0 ==> SpaceAt(s, |s| - SpaceBefore(s)) == SpaceBefore(s)
  {
    hide SpaceAt;
  }

  lemma TrimEndStep(s: bytes)
    ensures TrimEnd(s) == if SpaceBefore(s) == 0 then s else TrimEnd(s[..|s| - SpaceBefore(s)])
  {
    hide SpaceBefore;
  }

  lemma {:induction false} BackWhite(s: bytes) returns (cs: seq<Scalar>)
    ensures AllWhite(cs) && s == TrimEnd(s) + EncodeAll(cs)
    ensures SpaceBefore(TrimEnd(s)) == 0
    decreases |s|
  {
    hide SpaceAt, SpaceBefore, TrimEnd, Encode, White;
    TrimEndStep(s);
    var n := SpaceBefore(s);
    if n == 0 {
      cs := [];
      assert EncodeAll([]) == [];
    } else {
      var t := s[..|s| - n];
      BeforeIsSpace(s);
      var c := SpaceChar(s, |s| - n);
      var less := BackWhite(t);
      cs := less + [c];
      EncodeMore(less, c);
      assert s == t + s[|s| - n..|s| - n + n];
    }
  }

  lemma NoSpaceEnds(s: bytes, t: bytes)
    requires SpaceAt(s + t, 0) == 0 && SpaceBefore(s) == 0
    ensures Bare(s)
  {
    hide SpaceAt, SpaceBefore, Encode, White;
    forall c: Scalar | White(c)
      ensures !StartsWith(s, Encode(c))
      ensures !(|Encode(c)| <= |s| && s[|s| - |Encode(c)|..] == Encode(c))
    {
      var w := Encode(c);
      if StartsWith(s, w) {
        assert (s + t)[0..0 + |w|] == s[..|w|];
        SpaceIsWhite(s + t, 0, c);
        assert false;
      }
      if |w| <= |s| && s[|s| - |w|..] == w {
        var p: nat := |s| - |w|;
        assert s[p..p + |w|] == s[p..];
        SpaceIsWhite(s, p, c);
        SpaceEnds(s, |w|);
        assert false;
      }
    }
  }

  lemma SpaceEnds(s: bytes, n: nat)
    requires 0 < n <= |s| && SpaceAt(s, |s| - n) == n
    ensures SpaceBefore(s) != 0
  {
  }

  /** Trimming takes away exactly the white space at both ends. */
  lemma TrimIsBare(s: bytes) returns (front: seq<Scalar>, back: seq<Scalar>)
    ensures AllWhite(front) && AllWhite(back)
    ensures s == EncodeAll(front) + Trim(s) + EncodeAll(back)
    ensures Bare(Trim(s))
  {
    hide SpaceAt, SpaceBefore, Encode, EncodeAll, Bare, White;
    front := FrontWhite(s, 0);
    var q := SkipSpaces(s, 0);
    var t := s[q..];
    back := BackWhite(t);
    assert s == s[0..q] + t;
    SpaceShift(s, q);
    NoSpaceEnds(Trim(s), EncodeAll(back));
  }

  lemma SpaceShift(s: bytes, q: nat)
    requires q <= |s|
    ensures SpaceAt(s[q..], 0) == SpaceAt(s, q)
  {
  }

  // ---------- slices ----------

  /** A place is a boundary exactly when what stands before it is UTF-8. */
  lemma {:induction false} BoundaryIsUtf8(s: bytes, i: nat)
    requires Utf8(s) && i <= |s|
    ensures IsBoundary(s, i) <==> Utf8(s[..i])
    decreases |s|
  {
    hide CharLength;
    if i > 0 {
      var n := CharLength(s);
      CharLengthCut(s, i);
      if i >= n {
        BoundaryIsUtf8(s[n..], i - n);
        var t := s[n..i];
        assert s[..i][n..] == t;
        assert s[n..][..i - n] == t;
        CharLengthCut(s, n);
      }
    }
  }

  lemma CharLengthCut(s: bytes, i: nat)
    requires 0 < i <= |s| && CharLength(s) > 0
    ensures i < CharLength(s) ==> CharLength(s[..i]) == 0 && Continues(s[i])
    ensures i >= CharLength(s) ==> CharLength(s[..i]) == CharLength(s)
    ensures CharLength(s[i..]) > 0 ==> i < |s| && !Continues(s[i])
  {
  }
}
