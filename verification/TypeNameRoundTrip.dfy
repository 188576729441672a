/** `load_data` on a printed type name: it gives that type back exactly for the printable types. */
module TypeNameRoundTrip {
  import opened Basics
  import opened Text
  import opened TypeNames

  /** No quote and no backslash. */
  predicate Clean(name: bytes) {
    0x27 !in name && 0x5C !in name
  }

  /** Enum8 values are `i8` in the source. */
  predicate WellTyped(t: SqlType) {
    match t
    case Nullable(inner) => WellTyped(inner)
    case Array(inner) => WellTyped(inner)
    case Enum(size, items) => size.E8? ==> forall i | 0 <= i < |items| :: -0x80 <= items[i].value < 0x80
    case _ => true
  }

  /** The types whose printed name is read back as the same type. */
  predicate Printable(t: SqlType) {
    match t
    case Scalar(_) => true
    case String => true
    case FixedString(_) => true
    case Nullable(inner) => !inner.Nullable? && Printable(inner)
    case Array(inner) => Printable(inner)
    case Decimal(precision, scale) => scale <= precision <= 18
    case Enum(_, items) => |items| > 0 && forall i | 0 <= i < |items| :: Clean(items[i].name)
  }

  // ---------- quoted words ----------

  lemma {:induction false} CleanWord(s: bytes, p: nat, name: bytes)
    requires Holds(s, p, name + [0x27]) && Clean(name)
    ensures WordTail(s, p) == Hit(name, p + |name| + 1)
    decreases |name|
  {
    var w := name + [0x27];
    assert s[p] == s[p..p + |w|][0] == w[0];
    if |name| > 0 {
      assert s[p] == name[0] && name[0] in name;
      assert w == [name[0]] + (name[1..] + [0x27]);
      HoldsSplit(s, p, [name[0]], name[1..] + [0x27]);
      CleanWord(s, p + 1, name[1..]);
      assert [name[0]] + name[1..] == name;
    }
  }

  /** Once an escape has put the reader `d` bytes ahead, with only backslashes skipped, the name
      can only be read as itself if it goes on with backslashes for ever. */
  lemma {:induction false} NoBackslashRun(s: bytes, q: nat, d: nat, u: bytes)
    requires 1 <= d <= q <= |s| && Holds(s, q - d, u + [0x27])
    requires forall j | q - d <= j < q :: s[j] == 0x5C
    requires WordTail(s, q).Hit? && WordTail(s, q).value == u
    ensures false
    decreases |u|
  {
    hide Holds;
    HoldsSplit(s, q - d, u, [0x27]);
    HoldsFirst(s, q - d + |u|, [0x27]);
    assert |u| >= d;
    HoldsFirst(s, q - d, u + [0x27]);
    assert s[q] == 0x5C && s[q + 1] == 0x5C;
    assert u + [0x27] == [u[0]] + (u[1..] + [0x27]);
    HoldsSplit(s, q - d, [u[0]], u[1..] + [0x27]);
    NoBackslashRun(s, q + 2, d + 1, u[1..]);
  }

  /** A quoted name that is read as itself has nothing in it that needs an escape. */
  lemma {:induction false} WordExact(s: bytes, p: nat, name: bytes)
    requires Holds(s, p, name + [0x27])
    requires WordTail(s, p).Hit? && WordTail(s, p).value == name
    ensures Clean(name) && WordTail(s, p).pos == p + |name| + 1
    decreases |name|
  {
    var w := name + [0x27];
    assert s[p] == s[p..p + |w|][0] == w[0];
    if |name| > 0 {
      assert w == [name[0]] + (name[1..] + [0x27]);
      HoldsSplit(s, p, [name[0]], name[1..] + [0x27]);
      if name[0] == 0x5C {
        NoBackslashRun(s, p + 2, 1, name[1..]);
      } else {
        WordExact(s, p + 1, name[1..]);
      }
    }
  }

  // ---------- numbers ----------

  lemma {:induction false} DigitsEndAt(s: bytes, p: nat, digits: bytes)
    requires Holds(s, p, digits) && AllDigits(digits)
    requires p + |digits| < |s| && !IsDigit(s[p + |digits|])
    ensures DigitsEnd(s, p) == p + |digits|
    decreases |digits|
  {
    if |digits| > 0 {
      assert s[p] == s[p..p + |digits|][0] == digits[0];
      assert digits == [digits[0]] + digits[1..];
      HoldsSplit(s, p, [digits[0]], digits[1..]);
      DigitsEndAt(s, p + 1, digits[1..]);
    }
  }

  lemma IntegerPrinted(s: bytes, p: nat, v: i16)
    requires Holds(s, p, SignedDigits(v))
    requires p + |SignedDigits(v)| < |s| && !IsDigit(s[p + |SignedDigits(v)|])
    ensures Integer(s, p) == Hit(v, p + |SignedDigits(v)|)
    ensures 0x20 < s[p] < 0x80
  {
    hide Digits, DigitsValue, DigitsEnd;
    var w := SignedDigits(v);
    assert s[p] == s[p..p + |w|][0] == w[0];
    var n: int := v;
    if n < 0 {
      HoldsSplit(s, p, [0x2D], Digits(-n));
      DigitsEndAt(s, p + 1, Digits(-n));
      DigitsRoundTrip(-n);
    } else {
      assert IsDigit(w[0]);
      DigitsEndAt(s, p, Digits(v));
      DigitsRoundTrip(v);
    }
  }

  // ---------- enum items ----------

  /** Where the parts of a printed item stand. */
  lemma ItemParts(s: bytes, p: nat, item: Item)
    requires Holds(s, p, PrintItem(item))
    ensures p < |s| && s[p] == 0x27
    ensures Holds(s, p + 1, item.name + [0x27])
    ensures var q := p + 1 + |item.name| + 1;
            q + 3 <= |s| && s[q] == 0x20 && s[q + 1] == 0x3D && s[q + 2] == 0x20
            && Holds(s, q + 3, SignedDigits(item.value))
            && q + 3 + |SignedDigits(item.value)| == p + |PrintItem(item)|
  {
    var name, v := item.name, SignedDigits(item.value);
    assert PrintItem(item) == [0x27] + ((name + [0x27]) + ([0x20, 0x3D, 0x20] + v));
    HoldsSplit(s, p, [0x27], (name + [0x27]) + ([0x20, 0x3D, 0x20] + v));
    HoldsSplit(s, p + 1, name + [0x27], [0x20, 0x3D, 0x20] + v);
    var q := p + 1 + |name| + 1;
    HoldsSplit(s, q, [0x20, 0x3D, 0x20], v);
    assert s[p] == s[p..p + 1][0];
    assert s[q] == s[q..q + 3][0] && s[q + 1] == s[q..q + 3][1] && s[q + 2] == s[q..q + 3][2];
  }

  lemma SkipNone(s: bytes, p: nat)
    requires p < |s| && 0x20 < s[p] < 0x80
    ensures SkipSpaces(s, p) == p
  {
  }

  lemma SkipOne(s: bytes, p: nat)
    requires p + 1 < |s| && s[p] == 0x20 && 0x20 < s[p + 1] < 0x80
    ensures SkipSpaces(s, p) == p + 1
  {
    assert SpaceAt(s, p) == 1;
    SkipNone(s, p + 1);
  }

  lemma PairClean(s: bytes, p: nat, item: Item)
    requires Holds(s, p, PrintItem(item)) && Clean(item.name)
    requires var end := p + |PrintItem(item)|; end < |s| && (s[end] == 0x2C || s[end] == 0x29)
    ensures Pair(s, p) == Hit(item, p + |PrintItem(item)|)
  {
    hide WordTail, Integer, Holds, SignedDigits, PrintItem, SkipSpaces, SpaceAt;
    ItemParts(s, p, item);
    CleanWord(s, p + 1, item.name);
    var q, end := p + 1 + |item.name| + 1, p + |PrintItem(item)|;
    IntegerPrinted(s, q + 3, item.value);
    SkipNone(s, p);
    SkipOne(s, q);
    SkipOne(s, q + 2);
    SkipNone(s, end);
  }

  lemma PairExact(s: bytes, p: nat, item: Item)
    requires Holds(s, p, PrintItem(item))
    requires Pair(s, p).Hit? && Pair(s, p).value.name == item.name
    ensures Clean(item.name)
  {
    hide PrintItem, Holds, SkipSpaces, WordTail, Integer;
    ItemParts(s, p, item);
    SkipNone(s, p);
    WordExact(s, p + 1, item.name);
  }

  /** The first item, the comma, the other items. */
  lemma ItemsParts(s: bytes, p: nat, items: seq<Item>)
    requires |items| > 1 && Holds(s, p, PrintItems(items))
    ensures Holds(s, p, PrintItem(items[0]))
    ensures var q := p + |PrintItem(items[0])|;
            q < |s| && s[q] == 0x2C && Holds(s, q + 1, PrintItems(items[1..]))
            && q + 1 + |PrintItems(items[1..])| == p + |PrintItems(items)|
  {
    hide PrintItem, Holds;
    var first, rest := PrintItem(items[0]), PrintItems(items[1..]);
    assert PrintItems(items) == first + ([0x2C] + rest);
    HoldsSplit(s, p, first, [0x2C] + rest);
    HoldsSplit(s, p + |first|, [0x2C], rest);
    HoldsFirst(s, p + |first|, [0x2C]);
  }

  ghost predicate AllClean(items: seq<Item>) {
    forall i | 0 <= i < |items| :: Clean(items[i].name)
  }

  lemma {:induction false} PairsClean(s: bytes, p: nat, items: seq<Item>)
    requires |items| > 0 && Holds(s, p, PrintItems(items)) && AllClean(items)
    requires var end := p + |PrintItems(items)|; end < |s| && s[end] == 0x29
    ensures Pairs(s, p) == Hit(items, p + |PrintItems(items)|)
    decreases |items|
  {
    hide PrintItem, Pair;
    if |items| == 1 {
      PairClean(s, p, items[0]);
      assert [items[0]] == items;
    } else {
      ItemsParts(s, p, items);
      PairClean(s, p, items[0]);
      PairsClean(s, p + |PrintItem(items[0])| + 1, items[1..]);
      assert [items[0]] + items[1..] == items;
    }
  }

  ghost predicate SameNames(a: seq<Item>, b: seq<Item>) {
    |a| == |b| && forall i | 0 <= i < |a| :: a[i].name == b[i].name
  }

  lemma {:induction false} PairsExact(s: bytes, p: nat, items: seq<Item>)
    requires |items| > 0 && Holds(s, p, PrintItems(items))
    requires Pairs(s, p).Hit? && SameNames(Pairs(s, p).value, items)
    ensures AllClean(items)
    decreases |items|
  {
    hide PrintItem, Pair;
    var parsed := Pairs(s, p).value;
    assert parsed[0] == Pair(s, p).value;
    if |items| == 1 {
      PairExact(s, p, items[0]);
    } else {
      ItemsParts(s, p, items);
      PairExact(s, p, items[0]);
      PairClean(s, p, items[0]);
      var q := p + |PrintItem(items[0])| + 1;
      assert parsed[1..] == Pairs(s, q).value;
      assert forall i | 0 <= i < |items| - 1 :: parsed[1..][i] == parsed[i + 1];
      PairsExact(s, q, items[1..]);
      assert forall i | 0 < i < |items| :: items[i] == items[1..][i - 1];
    }
  }

  // ---------- one level of a name ----------

  /** `head(inner)`, the form of every name with parameters. */
  function Call(head: bytes, inner: bytes): bytes {
    head + [0x28] + inner + [0x29]
  }

  lemma CallIsNoScalar(head: bytes, inner: bytes)
    ensures ScalarOf(Call(head, inner)) == None && !IsStringName(Call(head, inner))
  {
    assert Call(head, inner)[|head|] == 0x28;
    NoScalarHasParen(Call(head, inner), |head|);
  }

  lemma CallInside(head: bytes, inner: bytes)
    ensures StartsWith(Call(head, inner), head)
    ensures (|inner| > 0 ==> !Continues(inner[0])) ==> Inside(Call(head, inner), |head| + 1) == Found(inner)
  {
    var name := Call(head, inner);
    assert name[..|head|] == head;
    assert name[|head| + 1..|name| - 1] == inner;
    assert name[|name| - 1] == 0x29;
    assert |inner| > 0 ==> name[|head| + 1] == inner[0];
  }

  lemma OtherStart(s: bytes, w: bytes)
    requires |s| > 0 && |w| > 0 && s[0] != w[0]
    ensures !StartsWith(s, w)
  {
    assert |w| <= |s| ==> s[..|w|][0] == s[0];
  }

  /** The first byte of a printed type, and when the word `Nullable` stands at its front. */
  lemma PrintStart(t: SqlType)
    ensures !Continues(Print(t)[0])
    ensures StartsWith(Print(t), Ascii("Nullable")) <==> t.Nullable?
  {
    hide PrintItems, Digits;
    var w := Ascii("Nullable");
    assert w[0] == 0x4E && w[1] == 0x75;
    match t
    case Nullable(inner) => assert Print(t)[..8] == w;
    case Scalar(prim) => assert Print(t)[0] == PrimName(prim)[0] as int; OtherStart(Print(t), w);
    case String => assert Print(t)[0] == 0x53; OtherStart(Print(t), w);
    case FixedString(_) => assert Print(t)[0] == 0x46; OtherStart(Print(t), w);
    case Array(_) => assert Print(t)[0] == 0x41; OtherStart(Print(t), w);
    case Decimal(_, _) => assert Print(t)[0] == 0x44; OtherStart(Print(t), w);
    case Enum(size, _) => assert Print(t)[0] == EnumName(size)[0] == 0x45; OtherStart(Print(t), w);
  }

  /** Every parser but the one for the name's first letter lets it pass. */
  lemma FirstLetter(name: bytes)
    requires |name| > 0
    ensures name[0] != 0x4E ==> ParseNullable(name) == NotThis
    ensures name[0] != 0x46 ==> ParseFixedString(name) == NotThis
    ensures name[0] != 0x41 ==> ParseArray(name) == NotThis
    ensures name[0] != 0x44 ==> ParseDecimal(name) == None
    ensures 0x20 < name[0] < 0x80 && name[0] != 0x45 ==> ParseEnum(E8, name) == None && ParseEnum(E16, name) == None
  {
    hide Inside, DecimalParams, Pairs, ParseUnsigned;
    assert Ascii("Nullable")[0] == 0x4E && Ascii("FixedString")[0] == 0x46;
    assert Ascii("Array")[0] == 0x41 && Ascii("Decimal")[0] == 0x44;
    assert EnumName(E8)[0] == 0x45 && EnumName(E16)[0] == 0x45;
    if name[0] != 0x4E { OtherStart(name, Ascii("Nullable")); }
    if name[0] != 0x46 { OtherStart(name, Ascii("FixedString")); }
    if name[0] != 0x41 { OtherStart(name, Ascii("Array")); }
    if name[0] != 0x44 { OtherStart(name, Ascii("Decimal")); }
    if 0x20 < name[0] < 0x80 && name[0] != 0x45 {
      SkipNone(name, 0);
      assert name[0..] == name;
      OtherStart(name, EnumName(E8));
      OtherStart(name, EnumName(E16));
    }
  }

  lemma FixedStringShape(n: u64)
    ensures ShapeOf(Print(FixedString(n))) == FixedShape(n)
  {
    var head := Ascii("FixedString");
    var name := Print(FixedString(n));
    assert name == Call(head, Digits(n));
    assert name[0] == 0x46;
    assert IsDigit(Digits(n)[0]);
    CallIsNoScalar(head, Digits(n));
    CallInside(head, Digits(n));
    FirstLetter(name);
    ParseDigits(n, TWO_64 - 1);
  }

  lemma ArrayName(inner: bytes)
    requires |inner| > 0 && !Continues(inner[0])
    ensures ShapeOf(Call(Ascii("Array"), inner)) == ArrayShape(inner)
  {
    var head := Ascii("Array");
    assert Call(head, inner)[0] == head[0] == 0x41;
    CallIsNoScalar(head, inner);
    CallInside(head, inner);
    FirstLetter(Call(head, inner));
  }

  lemma NullableName(inner: bytes)
    requires |inner| > 0 && !Continues(inner[0])
    ensures ShapeOf(Call(Ascii("Nullable"), inner))
         == if StartsWith(inner, Ascii("Nullable")) then UnknownShape else NullableShape(inner)
  {
    var head := Ascii("Nullable");
    assert Call(head, inner)[0] == head[0] == 0x4E;
    CallIsNoScalar(head, inner);
    CallInside(head, inner);
    FirstLetter(Call(head, inner));
  }

  // ---------- decimals ----------

  lemma TrimDigits(d: bytes, s: bytes)
    requires |d| > 0 && AllDigits(d) && (s == d || s == [0x20] + d)
    ensures Trim(s) == d
  {
    hide SkipSpaces;
    assert SpaceBefore(d) == 0;
    if s == d {
      SkipNone(s, 0);
    } else {
      assert s[1] == d[0];
      SkipOne(s, 0);
    }
    assert s[|s| - |d|..] == d;
  }

  lemma DecimalParamsPrinted(params: bytes)
    requires |params| > 0 && 0x28 !in params
    ensures DecimalParams(Call(Ascii("Decimal"), params)) == Some((params, None))
  {
    hide IndexFrom, LastBelow;
    var head := Ascii("Decimal");
    var name := Call(head, params);
    assert head[..7] == head;
    assert forall i | 0 <= i < 7 :: name[i] == head[i] != 0x28;
    assert name[7] == 0x28;
    assert forall i | 8 <= i < |name| - 1 :: name[i] == params[i - 8];
    assert name[|name| - 1] == 0x29;
    assert IndexFrom(name, 0x28, 0) == 7;
    assert IndexFrom(name, 0x28, 8) == |name|;
    assert LastBelow(name, 0x29, |name|) == |name|;
    assert name[..7] == head;
    assert name[8..|name| - 1] == params;
  }

  function PrintScale(dp: bytes, ds: bytes): bytes { dp + [0x2C, 0x20] + ds }

  /** The two cells of `p, s`. */
  lemma DecimalCells(dp: bytes, ds: bytes)
    requires |dp| > 0 && |ds| > 0 && AllDigits(dp) && AllDigits(ds)
    ensures var params := PrintScale(dp, ds);
            && 0x28 !in params
            && IndexFrom(params, 0x2C, 0) == |dp| < |params|
            && IndexFrom(params, 0x2C, |dp| + 1) == |params|
            && Trim(params[..|dp|]) == dp && Trim(params[|dp| + 1..]) == ds
  {
    hide IndexFrom, Trim;
    var params := PrintScale(dp, ds);
    assert forall i | 0 <= i < |dp| :: params[i] == dp[i] != 0x2C;
    assert params[|dp|] == 0x2C;
    assert forall i | |dp| + 2 <= i < |params| :: params[i] == ds[i - |dp| - 2] != 0x2C;
    assert IndexFrom(params, 0x2C, 0) == |dp|;
    assert IndexFrom(params, 0x2C, |dp| + 1) == |params|;
    assert params[..|dp|] == dp && params[|dp| + 1..] == [0x20] + ds;
    TrimDigits(dp, dp);
    TrimDigits(ds, [0x20] + ds);
  }

  lemma DecimalCall(precision: byte, scale: byte)
    ensures Print(Decimal(precision, scale))
         == Call(Ascii("Decimal"), PrintScale(Digits(precision), Digits(scale)))
    ensures Print(Decimal(precision, scale))[0] == 0x44
    ensures |Print(Decimal(precision, scale))| >= 12
  {
    hide Digits;
    assert Ascii("Decimal(") == Ascii("Decimal") + [0x28];
  }

  lemma DecimalParsed(precision: byte, scale: byte)
    ensures ParseDecimal(Print(Decimal(precision, scale)))
         == if scale <= precision <= 18
            then Some(DecimalShape(precision, scale, FromPrecision(precision).value))
            else None
  {
    hide IndexFrom, DecimalParams, Trim, Digits, ParseUnsigned, PrintScale, Print, Call;
    var params := PrintScale(Digits(precision), Digits(scale));
    DecimalCall(precision, scale);
    CallInside(Ascii("Decimal"), params);
    DecimalCells(Digits(precision), Digits(scale));
    DecimalParamsPrinted(params);
    ParseDigits(precision, 255);
    ParseDigits(scale, 255);
  }

  lemma DecimalPrinted(precision: byte, scale: byte)
    ensures ShapeOf(Print(Decimal(precision, scale)))
         == if scale <= precision <= 18
            then DecShape(DecimalShape(precision, scale, FromPrecision(precision).value))
            else UnknownShape
  {
    hide ParseDecimal, Print, PrintScale, Call, ScalarOf, IsStringName;
    hide ParseNullable, ParseFixedString, ParseArray, ParseEnum;
    DecimalParsed(precision, scale);
    DecimalCall(precision, scale);
    CallIsNoScalar(Ascii("Decimal"), PrintScale(Digits(precision), Digits(scale)));
    FirstLetter(Print(Decimal(precision, scale)));
  }

  // ---------- enums ----------

  /** Where the parts of a printed enum stand. */
  lemma EnumParts(size: EnumSize, items: seq<Item>)
    ensures var name, w := Print(Enum(size, items)), EnumName(size);
            && |w| + 1 + |PrintItems(items)| + 1 == |name|
            && name[0] == 0x45 && name[4] == (if size.E8? then 0x38 else 0x31)
            && StartsWith(name, w) && name[|w|] == 0x28
            && Holds(name, |w| + 1, PrintItems(items)) && name[|name| - 1] == 0x29
            && name[|w| + 1] == if |items| == 0 then 0x29 else 0x27
  {
    ItemsStart(items);
    EnumCall(size, items);
    var w, body := EnumName(size), PrintItems(items);
    hide PrintItems, Print, EnumName;
    var name := Call(w, body);
    assert w[0] == 0x45 && w[4] == (if size.E8? then 0x38 else 0x31) && |w| > 4 by { EnumNames(); }
    assert name[|w| + 1..|w| + 1 + |body|] == body;
    assert name[..|w|] == w;
  }

  lemma EnumNames()
    ensures |EnumName(E8)| == 5 && EnumName(E8)[0] == 0x45 && EnumName(E8)[4] == 0x38
    ensures |EnumName(E16)| == 6 && EnumName(E16)[0] == 0x45 && EnumName(E16)[4] == 0x31
  {
  }

  /** The parser of the right size walks over the head of a printed enum to its items. */
  lemma EnumHead(size: EnumSize, items: seq<Item>)
    ensures var name, q := Print(Enum(size, items)), |EnumName(size)| + 1;
            && q + |PrintItems(items)| + 1 == |name|
            && Holds(name, q, PrintItems(items)) && name[|name| - 1] == 0x29
            && ParseEnum(size, name) ==
                 match Pairs(name, q)
                 case Miss => None
                 case Hit(parsed, end) =>
                   if end + 1 == |name| && name[end] == 0x29
                   then Some(if size.E8? then NarrowItems(parsed) else parsed)
                   else None
  {
    EnumParts(size, items);
    EnumNames();
    var name, q := Print(Enum(size, items)), |EnumName(size)| + 1;
    hide Pairs, NarrowItems, SkipSpaces, PrintItems, Print, Holds, EnumName, StartsWith;
    SkipNone(name, 0);
    SkipNone(name, q - 1);
    SkipNone(name, q);
    assert name[0..] == name;
  }

  /** The parser of the other size refuses it. */
  lemma EnumOther(items: seq<Item>)
    ensures ParseEnum(E16, Print(Enum(E8, items))) == None
    ensures ParseEnum(E8, Print(Enum(E16, items))) == None
  {
    EnumNames();
    hide Pairs, NarrowItems, SkipSpaces, PrintItems, Print, Holds, EnumName;
    EnumParts(E8, items);
    EnumParts(E16, items);
    SkipNone(Print(Enum(E8, items)), 0);
    SkipNone(Print(Enum(E16, items)), 0);
    OtherFifth(Print(Enum(E8, items)), EnumName(E16));
    OtherFifth(Print(Enum(E16, items)), EnumName(E8));
  }

  lemma OtherFifth(s: bytes, w: bytes)
    requires |s| > 4 && |w| > 4 && s[4] != w[4]
    ensures !StartsWith(s[0..], w)
  {
    assert |w| <= |s| ==> s[0..][..|w|][4] == s[4];
  }

  lemma ItemsStart(items: seq<Item>)
    ensures if |items| == 0 then PrintItems(items) == [] else |PrintItems(items)| > 0 && PrintItems(items)[0] == 0x27
  {
  }

  /** The parser of the right size gives the items back exactly when there are some and they are clean. */
  lemma EnumParsed(size: EnumSize, items: seq<Item>)
    requires WellTyped(Enum(size, items))
    ensures ParseEnum(size, Print(Enum(size, items))) == Some(items) <==> |items| > 0 && AllClean(items)
  {
    hide PrintItem, PrintItems, Print, Pair, Pairs, ParseEnum, EnumName, AllClean;
    var name, q := Print(Enum(size, items)), |EnumName(size)| + 1;
    EnumHead(size, items);
    if |items| == 0 {
      EnumEmpty(size);
    } else {
      if AllClean(items) {
        PairsClean(name, q, items);
        assert size.E8? ==> NarrowItems(items) == items;
      }
      if ParseEnum(size, name) == Some(items) {
        assert SameNames(Pairs(name, q).value, items);
        PairsExact(name, q, items);
      }
    }
  }

  lemma EnumPrinted(size: EnumSize, items: seq<Item>)
    requires WellTyped(Enum(size, items))
    ensures ShapeOf(Print(Enum(size, items))) == EnumShape(size, items) <==> |items| > 0 && AllClean(items)
    ensures ShapeOf(Print(Enum(size, items))).EnumShape? || ShapeOf(Print(Enum(size, items))).UnknownShape?
  {
    EnumCall(size, items);
    hide PrintItems, Print, ParseEnum, AllClean, ScalarOf, IsStringName;
    hide ParseNullable, ParseFixedString, ParseArray, ParseDecimal;
    EnumOther(items);
    EnumParsed(size, items);
    CallIsNoScalar(EnumName(size), PrintItems(items));
    FirstLetter(Print(Enum(size, items)));
  }

  lemma EnumCall(size: EnumSize, items: seq<Item>)
    ensures Print(Enum(size, items)) == Call(EnumName(size), PrintItems(items))
    ensures Print(Enum(size, items))[0] == 0x45
  {
    hide PrintItems;
    assert EnumName(size)[0] == 0x45;
  }

  lemma EnumEmpty(size: EnumSize)
    ensures ParseEnum(size, Print(Enum(size, []))) == None
  {
    EnumHead(size, []);
    var name, q := Print(Enum(size, [])), |EnumName(size)| + 1;
    assert name[q] == 0x29;
    SkipNone(name, q);
  }

  // ---------- the theorem ----------

  lemma StringPrinted()
    ensures ShapeOf(Print(String)) == StringShape
  {
    hide ParseNullable, ParseFixedString, ParseArray, ParseDecimal, ParseEnum, IntegerOf, OtherScalarOf;
    var n := Ascii("String");
    assert n[0] == 0x53 && n[1] == 0x74;
    StringIsNoScalar(n);
  }

  lemma StringIsNoScalar(n: bytes)
    requires |n| == 6 && n[0] == 0x53 && n[1] == 0x74
    ensures IntegerOf(n) == None && OtherScalarOf(n) == None
  {
  }

  /** A type's printed name loads as a column of that same type exactly when the type is printable:
      no Nullable directly in a Nullable, decimals with scale <= precision <= 18, enums with at least
      one item and no quote or backslash in an item's name. */
  lemma {:induction false} NameRoundTrip(t: SqlType)
    requires WellTyped(t)
    ensures TypeOf(Print(t)) == Some(t) <==> Printable(t)
  {
    hide ShapeOf;
    match t
    case Scalar(prim) => ScalarPrinted(prim);
    case String => StringPrinted();
    case FixedString(n) => FixedStringShape(n);
    case Decimal(p, s) => DecimalPrinted(p, s);
    case Enum(size, items) => EnumPrinted(size, items);
    case Array(inner) =>
      NameRoundTrip(inner);
      PrintStart(inner);
      assert Print(t) == Call(Ascii("Array"), Print(inner)) by { ArrayCall(inner); }
      ArrayName(Print(inner));
    case Nullable(inner) =>
      NameRoundTrip(inner);
      PrintStart(inner);
      assert Print(t) == Call(Ascii("Nullable"), Print(inner)) by { NullableCall(inner); }
      NullableName(Print(inner));
  }

  lemma ScalarPrinted(prim: Prim)
    ensures ShapeOf(Print(Scalar(prim))) == ScalarShape(prim)
  {
    ScalarNames(prim);
  }

  lemma ArrayCall(inner: SqlType)
    ensures Print(Array(inner)) == Call(Ascii("Array"), Print(inner))
  {
    assert Ascii("Array(") == Ascii("Array") + [0x28];
  }

  lemma NullableCall(inner: SqlType)
    ensures Print(Nullable(inner)) == Call(Ascii("Nullable"), Print(inner))
  {
    assert Ascii("Nullable(") == Ascii("Nullable") + [0x28];
  }

  // ---------- what a parsed name stands for ----------

  lemma DecimalNameGood(name: bytes)
    requires ShapeOf(name).DecShape?
    ensures var d := ShapeOf(name).decimal; FromPrecision(d.precision) == Some(d.nobits)
  {
    hide ScalarOf, IsStringName, ParseNullable, ParseFixedString, ParseArray, ParseEnum, DecimalParams, ParseUnsigned;
  }

  lemma EnumNameGood(name: bytes)
    requires ShapeOf(name).EnumShape?
    ensures WellTyped(Enum(ShapeOf(name).size, ShapeOf(name).items))
  {
    hide ScalarOf, IsStringName, ParseNullable, ParseFixedString, ParseArray, ParseDecimal, Pairs, SkipSpaces, Token;
  }

  /** Two printable types with one name are one type. */
  lemma PrintInjective(t: SqlType, u: SqlType)
    requires WellTyped(t) && WellTyped(u) && Printable(t) && Printable(u)
    requires Print(t) == Print(u)
    ensures t == u
  {
    NameRoundTrip(t);
    NameRoundTrip(u);
  }

  /** Types of each kind whose names do not read back: nullable twice, nineteen digits, an item with a quote in its
      name. */
  lemma Unprintable()
    ensures var twice, wide := Nullable(Nullable(Scalar(UInt8))), Decimal(19, 0);
            var quoted := Enum(E8, [Item([0x27], 1)]);
            && TypeOf(Print(twice)) != Some(twice) && TypeOf(Print(wide)) != Some(wide)
            && TypeOf(Print(quoted)) != Some(quoted)
  {
    hide TypeOf, Print;
    NameRoundTrip(Nullable(Nullable(Scalar(UInt8))));
    NameRoundTrip(Decimal(19, 0));
    var quoted := Enum(E8, [Item([0x27], 1)]);
    assert !Clean(quoted.items[0].name) by { assert quoted.items[0].name[0] == 0x27; }
    NameRoundTrip(quoted);
  }
}
