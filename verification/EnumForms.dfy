/** Enum names as people write them: white space around every part, quotes and backslashes escaped. */
module EnumForms {
  import opened Basics
  import opened Text
  import opened Characters
  import opened TypeNames
  import opened TypeNameRoundTrip

  /** A backslash before every quote and every backslash. */
  function Escaped(name: bytes): bytes {
    if |name| == 0 then []
    else (if name[0] == 0x27 || name[0] == 0x5C then [0x5C, name[0]] else [name[0]]) + Escaped(name[1..])
  }

  /** An item with the white space before its name, its equals sign, its value, and after it. */
  datatype Loose = Loose(item: Item, front: seq<Scalar>, left: seq<Scalar>, right: seq<Scalar>, back: seq<Scalar>)

  ghost predicate Spaced(l: Loose) {
    AllWhite(l.front) && AllWhite(l.left) && AllWhite(l.right) && AllWhite(l.back)
  }

  function LooseBytes(l: Loose): bytes {
    EncodeAll(l.front)
    + ([0x27] + (Escaped(l.item.name)
                 + ([0x27] + (EncodeAll(l.left)
                              + ([0x3D] + (EncodeAll(l.right)
                                           + (SignedDigits(l.item.value) + EncodeAll(l.back))))))))
  }

  /** The items with commas between them. */
  function LooseItems(ls: seq<Loose>): bytes
    requires |ls| > 0
  {
    if |ls| == 1 then LooseBytes(ls[0]) else LooseBytes(ls[0]) + ([0x2C] + LooseItems(ls[1..]))
  }

  function Items(ls: seq<Loose>): (r: seq<Item>)
    ensures |r| == |ls|
  {
    seq(|ls|, i requires 0 <= i < |ls| => ls[i].item)
  }

  // ---------- parts ----------

  lemma {:induction false} SkipsWhite(s: bytes, p: nat, cs: seq<Scalar>)
    requires AllWhite(cs) && Holds(s, p, EncodeAll(cs))
    requires var q := p + |EncodeAll(cs)|; q < |s| && 0x20 < s[q] < 0x80
    ensures p <= |s| && SkipSpaces(s, p) == p + |EncodeAll(cs)|
    decreases |cs|
  {
    hide Holds, White, Encode, SpaceAt;
    if |cs| == 0 {
      SkipNone(s, p);
    } else {
      HoldsSplit(s, p, Encode(cs[0]), EncodeAll(cs[1..]));
      SpaceIsWhite(s, p, cs[0]);
      SkipsWhite(s, p + |Encode(cs[0])|, cs[1..]);
    }
  }

  lemma {:induction false} EscapedWord(s: bytes, p: nat, name: bytes)
    requires Holds(s, p, Escaped(name) + [0x27])
    ensures p <= |s| && WordTail(s, p) == Hit(name, p + |Escaped(name)| + 1)
    decreases |name|
  {
    hide Holds, WordTail;
    HoldsInside(s, p, Escaped(name) + [0x27]);
    if |name| == 0 {
      assert Escaped(name) + [0x27] == [0x27];
      HoldsFirst(s, p, [0x27]);
      WordEnds(s, p);
    } else {
      var rest := Escaped(name[1..]) + [0x27];
      var first := if name[0] == 0x27 || name[0] == 0x5C then [0x5C, name[0]] else [name[0]];
      assert Escaped(name) + [0x27] == first + rest;
      HoldsSplit(s, p, first, rest);
      HoldsFirst(s, p, first);
      if |first| == 2 {
        assert first == [0x5C] + [name[0]];
        HoldsSplit(s, p, [0x5C], [name[0]]);
        HoldsFirst(s, p + 1, [name[0]]);
      }
      EscapedWord(s, p + |first|, name[1..]);
      WordGoesOn(s, p, name[0], |first|);
      assert [name[0]] + name[1..] == name;
    }
  }

  lemma WordEnds(s: bytes, p: nat)
    requires p < |s| && s[p] == 0x27
    ensures WordTail(s, p) == Hit([], p + 1)
  {
  }

  lemma WordGoesOn(s: bytes, p: nat, b: byte, n: nat)
    requires p + n <= |s|
    requires (n == 1 && s[p] == b && b != 0x27 && b != 0x5C) || (n == 2 && s[p] == 0x5C && s[p + 1] == b)
    ensures WordTail(s, p + n).Hit? ==>
              WordTail(s, p) == Hit([b] + WordTail(s, p + n).value, WordTail(s, p + n).pos)
  {
  }

  /** Where the parts of an item stand. */
  lemma LooseParts(s: bytes, p: nat, l: Loose)
    requires Holds(s, p, LooseBytes(l))
    ensures var a := p + |EncodeAll(l.front)|;
            var b := a + 1 + |Escaped(l.item.name)| + 1;
            var c := b + |EncodeAll(l.left)|;
            var d := c + 1 + |EncodeAll(l.right)|;
            var e := d + |SignedDigits(l.item.value)|;
            && Holds(s, p, EncodeAll(l.front)) && Holds(s, a, [0x27]) && Holds(s, a + 1, Escaped(l.item.name) + [0x27])
            && Holds(s, b, EncodeAll(l.left)) && Holds(s, c, [0x3D]) && Holds(s, c + 1, EncodeAll(l.right))
            && Holds(s, d, SignedDigits(l.item.value)) && Holds(s, e, EncodeAll(l.back))
            && p + |LooseBytes(l)| == e + |EncodeAll(l.back)|
  {
    hide Holds, EncodeAll, Escaped, SignedDigits;
    var g0, g1, g2, g3 := EncodeAll(l.front), EncodeAll(l.left), EncodeAll(l.right), EncodeAll(l.back);
    var name, value := Escaped(l.item.name), SignedDigits(l.item.value);
    var t5 := value + g3;
    var t4 := g2 + t5;
    var t3 := g1 + ([0x3D] + t4);
    HoldsSplit(s, p, g0, [0x27] + (name + ([0x27] + t3)));
    var a := p + |g0|;
    HoldsSplit(s, a, [0x27], name + ([0x27] + t3));
    assert name + ([0x27] + t3) == (name + [0x27]) + t3;
    HoldsSplit(s, a + 1, name + [0x27], t3);
    var b := a + 1 + |name| + 1;
    HoldsSplit(s, b, g1, [0x3D] + t4);
    var c := b + |g1|;
    HoldsSplit(s, c, [0x3D], t4);
    HoldsSplit(s, c + 1, g2, t5);
    HoldsSplit(s, c + 1 + |g2|, value, g3);
  }

  lemma FirstOfNumber(v: i16)
    ensures |SignedDigits(v)| > 0 && 0x20 < SignedDigits(v)[0] < 0x80
  {
    assert v >= 0 ==> IsDigit(SignedDigits(v)[0]);
  }

  /** The byte after a number is white space, a comma or a parenthesis. */
  lemma AfterNumber(s: bytes, p: nat, cs: seq<Scalar>)
    requires AllWhite(cs) && Holds(s, p, EncodeAll(cs))
    requires var q := p + |EncodeAll(cs)|; q < |s| && (s[q] == 0x2C || s[q] == 0x29)
    ensures p < |s| && !IsDigit(s[p])
  {
    hide Holds, Encode;
    if |cs| > 0 {
      HoldsSplit(s, p, Encode(cs[0]), EncodeAll(cs[1..]));
      HoldsFirst(s, p, Encode(cs[0]));
      WhiteIsNoDigit(cs[0]);
      HoldsInside(s, p, EncodeAll(cs));
    }
  }

  lemma WhiteIsNoDigit(c: Scalar)
    requires White(c)
    ensures !IsDigit(Encode(c)[0])
  {
  }

  lemma LoosePair(s: bytes, p: nat, l: Loose)
    requires Spaced(l) && Holds(s, p, LooseBytes(l))
    requires var end := p + |LooseBytes(l)|; end < |s| && (s[end] == 0x2C || s[end] == 0x29)
    ensures Pair(s, p) == Hit(l.item, p + |LooseBytes(l)|)
  {
    hide Holds, EncodeAll, Escaped, SignedDigits, AllWhite, WordTail, Integer, SkipSpaces, LooseBytes;
    LooseParts(s, p, l);
    var a := p + |EncodeAll(l.front)|;
    var b := a + 1 + |Escaped(l.item.name)| + 1;
    var c := b + |EncodeAll(l.left)|;
    var d := c + 1 + |EncodeAll(l.right)|;
    var e := d + |SignedDigits(l.item.value)|;
    HoldsFirst(s, a, [0x27]);
    HoldsFirst(s, c, [0x3D]);
    FirstOfNumber(l.item.value);
    HoldsFirst(s, d, SignedDigits(l.item.value));
    SkipsWhite(s, p, l.front);
    EscapedWord(s, a + 1, l.item.name);
    SkipsWhite(s, b, l.left);
    SkipsWhite(s, c + 1, l.right);
    AfterNumber(s, e, l.back);
    IntegerPrinted(s, d, l.item.value);
    SkipsWhite(s, e, l.back);
  }

  ghost predicate AllSpaced(ls: seq<Loose>) { forall l | l in ls :: Spaced(l) }

  lemma {:induction false} LoosePairs(s: bytes, p: nat, ls: seq<Loose>)
    requires |ls| > 0 && AllSpaced(ls) && Holds(s, p, LooseItems(ls))
    requires var end := p + |LooseItems(ls)|; end < |s| && s[end] == 0x29
    ensures Pairs(s, p) == Hit(Items(ls), p + |LooseItems(ls)|)
    decreases |ls|
  {
    hide Holds, Pair, LooseBytes, Spaced;
    HoldsInside(s, p, LooseItems(ls));
    if |ls| == 1 {
      LoosePair(s, p, ls[0]);
      assert Items(ls) == [ls[0].item];
    } else {
      var first, rest := LooseBytes(ls[0]), LooseItems(ls[1..]);
      HoldsSplit(s, p, first, [0x2C] + rest);
      HoldsSplit(s, p + |first|, [0x2C], rest);
      HoldsFirst(s, p + |first|, [0x2C]);
      LoosePair(s, p, ls[0]);
      LoosePairs(s, p + |first| + 1, ls[1..]);
      assert Items(ls) == [ls[0].item] + Items(ls[1..]);
    }
  }

  // ---------- the whole name ----------

  function LooseEnum(size: EnumSize, ls: seq<Loose>, before: seq<Scalar>, after: seq<Scalar>): bytes
    requires |ls| > 0
  {
    EncodeAll(before) + (EnumName(size) + (EncodeAll(after) + ([0x28] + (LooseItems(ls) + [0x29]))))
  }

  /** The value as a signed byte. */
  function Byte(v: int): int { if v % 256 < 128 then v % 256 else v % 256 - 256 }

  /** Where the parts of the name stand. */
  lemma EnumPartsStand(size: EnumSize, ls: seq<Loose>, before: seq<Scalar>, after: seq<Scalar>)
    requires |ls| > 0
    ensures var s, w := LooseEnum(size, ls, before, after), EnumName(size);
            var p := |EncodeAll(before)|;
            var q := p + |w| + |EncodeAll(after)|;
            && Holds(s, 0, EncodeAll(before)) && Holds(s, p, w) && Holds(s, p + |w|, EncodeAll(after))
            && q < |s| && s[q] == 0x28 && Holds(s, q + 1, LooseItems(ls))
            && q + 1 + |LooseItems(ls)| + 1 == |s| && s[|s| - 1] == 0x29
  {
    hide Holds, EncodeAll, LooseItems, EnumName;
    var s, w := LooseEnum(size, ls, before, after), EnumName(size);
    var b, a, items := EncodeAll(before), EncodeAll(after), LooseItems(ls);
    assert Holds(s, 0, s) by { WholeHolds(s); }
    HoldsSplit(s, 0, b, w + (a + ([0x28] + (items + [0x29]))));
    HoldsSplit(s, |b|, w, a + ([0x28] + (items + [0x29])));
    HoldsSplit(s, |b| + |w|, a, [0x28] + (items + [0x29]));
    var q := |b| + |w| + |a|;
    HoldsSplit(s, q, [0x28], items + [0x29]);
    HoldsSplit(s, q + 1, items, [0x29]);
    HoldsFirst(s, q, [0x28]);
    HoldsFirst(s, q + 1 + |items|, [0x29]);
  }

  lemma LooseParsed(size: EnumSize, ls: seq<Loose>, before: seq<Scalar>, after: seq<Scalar>)
    requires |ls| > 0 && AllSpaced(ls) && AllWhite(before) && AllWhite(after)
    ensures ParseEnum(size, LooseEnum(size, ls, before, after))
         == Some(if size.E8? then NarrowItems(Items(ls)) else Items(ls))
  {
    hide Holds, EncodeAll, SkipSpaces, Pairs, LooseItems, LooseEnum, EnumName, AllWhite, AllSpaced;
    hide NarrowItems, Items, StartsWith;
    var s, w := LooseEnum(size, ls, before, after), EnumName(size);
    var p := |EncodeAll(before)|;
    var q := p + |w| + |EncodeAll(after)|;
    EnumPartsStand(size, ls, before, after);
    EnumNames();
    HoldsFirst(s, p, w);
    SkipsWhite(s, 0, before);
    SkipsWhite(s, p + |w|, after);
    StartsThere(s, p, w);
    LoosePairs(s, q + 1, ls);
    SkipFirst(s, q + 1);
  }

  /** White space may stand before the name, before the parenthesis and around the parts of every item, and names may
      hold escaped quotes and backslashes: the items are read as they are, the values of an `Enum8` as signed bytes. */
  lemma LooseEnumReads(size: EnumSize, ls: seq<Loose>, before: seq<Scalar>, after: seq<Scalar>)
    requires |ls| > 0 && AllSpaced(ls) && AllWhite(before) && AllWhite(after)
    ensures var r := ParseEnum(size, LooseEnum(size, ls, before, after));
            && r.Some? && |r.value| == |ls|
            && forall i | 0 <= i < |ls| ::
                 && r.value[i].name == ls[i].item.name
                 && r.value[i].value == if size.E8? then Byte(ls[i].item.value) else ls[i].item.value
  {
    hide ParseEnum, LooseEnum, AllWhite, AllSpaced, Byte, WrapI8;
    LooseParsed(size, ls, before, after);
    forall i | 0 <= i < |ls| ensures WrapI8(ls[i].item.value) == Byte(ls[i].item.value) {
      ByteIsWrapped(ls[i].item.value);
    }
  }

  lemma ByteIsWrapped(v: int)
    ensures WrapI8(v) == Byte(v)
  {
  }

  lemma {:induction false} SkipTwice(s: bytes, p: nat)
    requires p <= |s|
    ensures SkipSpaces(s, SkipSpaces(s, p)) == SkipSpaces(s, p)
    decreases |s| - p
  {
    hide SpaceAt;
    if SpaceAt(s, p) > 0 {
      SkipTwice(s, p + SpaceAt(s, p));
    }
  }

  lemma SkipFirst(s: bytes, p: nat)
    requires p <= |s|
    ensures Pairs(s, SkipSpaces(s, p)) == Pairs(s, p)
  {
    hide SkipSpaces, Pair, Token;
    SamePair(s, p);
  }

  lemma SamePair(s: bytes, p: nat)
    requires p <= |s|
    ensures Pair(s, SkipSpaces(s, p)) == Pair(s, p)
  {
    hide SkipSpaces, WordTail, Integer, Token;
    SkipTwice(s, p);
  }

  lemma WholeHolds(s: bytes)
    ensures Holds(s, 0, s)
  {
  }

  lemma StartsThere(s: bytes, p: nat, w: bytes)
    requires Holds(s, p, w)
    ensures p <= |s| && StartsWith(s[p..], w)
  {
    assert s[p..][..|w|] == s[p..p + |w|];
  }
}
