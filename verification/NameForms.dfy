/** The names of types, spelled out. */
module NameForms {
  import opened Basics
  import opened Text
  import opened TypeNames
  import opened TypeNameRoundTrip

  // ---------- scalar names ----------

  /** The bytes of a name. */
  function Letters(name: string): (r: bytes)
    ensures |r| == |name|
    ensures forall i | 0 <= i < |name| && name[i] < '\U{80}' :: r[i] == name[i] as int
  {
    seq(|name|, i requires 0 <= i < |name| => (name[i] as int) % 0x100)
  }

  lemma LettersAscii(name: string)
    requires forall i | 0 <= i < |name| :: name[i] < '\U{80}'
    ensures Letters(name) == Ascii(name)
  {
  }

  /** The name is printed for the scalar type and read as it. */
  ghost predicate Names(prim: Prim, name: string) {
    Print(Scalar(prim)) == Letters(name) && TypeOf(Letters(name)) == Some(Scalar(prim))
  }

  lemma Named(prim: Prim)
    ensures Names(prim, PrimName(prim))
  {
    hide TypeOf;
    LettersAscii(PrimName(prim));
    NameRoundTrip(Scalar(prim));
  }

  lemma IntegersNamed()
    ensures Names(UInt8, "UInt8") && Names(UInt16, "UInt16") && Names(UInt32, "UInt32") && Names(UInt64, "UInt64")
    ensures Names(Int8, "Int8") && Names(Int16, "Int16") && Names(Int32, "Int32") && Names(Int64, "Int64")
  {
    hide TypeOf, Names;
    Named(UInt8);
    Named(UInt16);
    Named(UInt32);
    Named(UInt64);
    Named(Int8);
    Named(Int16);
    Named(Int32);
    Named(Int64);
  }

  lemma OthersNamed()
    ensures Names(Float32, "Float32") && Names(Float64, "Float64") && Names(Date, "Date") && Names(DateTime, "DateTime")
    ensures Names(IPv4, "IPv4") && Names(IPv6, "IPv6") && Names(UUID, "UUID")
  {
    hide TypeOf, Names;
    Named(Float32);
    Named(Float64);
    Named(Date);
    Named(DateTime);
    Named(IPv4);
    Named(IPv6);
    Named(UUID);
  }

  /** The same letter, large or small. */
  predicate SameLetter(a: byte, b: byte) {
    || a == b
    || (0x41 <= a <= 0x5A && b == a + 0x20)
    || (0x41 <= b <= 0x5A && a == b + 0x20)
  }

  lemma LowerSame(a: byte, b: byte)
    ensures SameLetter(a, b) ==> Lower(a) == Lower(b)
  {
  }

  lemma SameIs(a: bytes, b: bytes, w: string)
    requires |a| == |b| && forall i | 0 <= i < |a| :: SameLetter(a[i], b[i])
    requires forall i | 0 <= i < |w| :: w[i] < '\U{80}' && IsAlnum(w[i] as int)
    ensures Is(a, w) == Is(b, w)
  {
    forall i | 0 <= i < |a| ensures Lower(a[i]) == Lower(b[i]) { LowerSame(a[i], b[i]); }
  }

  /** Whether letters are large or small does not matter for names without parameters. */
  lemma CaseDoesNotMatter(a: bytes, b: bytes)
    requires |a| == |b| && forall i | 0 <= i < |a| :: SameLetter(a[i], b[i])
    ensures ScalarOf(a) == ScalarOf(b) && (IsStringName(a) <==> IsStringName(b))
  {
    hide Is, SameLetter, Lower;
    SameIntegers(a, b);
    SameOthers(a, b);
    SameStrings(a, b);
  }

  lemma SameIntegers(a: bytes, b: bytes)
    requires |a| == |b| && forall i | 0 <= i < |a| :: SameLetter(a[i], b[i])
    ensures IntegerOf(a) == IntegerOf(b)
  {
    hide Is, SameLetter, Lower;
    SameIs(a, b, "UInt8");
    SameIs(a, b, "UInt16");
    SameIs(a, b, "UInt32");
    SameIs(a, b, "UInt64");
    SameIs(a, b, "Int8");
    SameIs(a, b, "TinyInt");
    SameIs(a, b, "Int16");
    SameIs(a, b, "SmallInt");
    SameIs(a, b, "Int32");
    SameIs(a, b, "Int");
    SameIs(a, b, "Integer");
    SameIs(a, b, "Int64");
    SameIs(a, b, "BigInt");
  }

  lemma SameOthers(a: bytes, b: bytes)
    requires |a| == |b| && forall i | 0 <= i < |a| :: SameLetter(a[i], b[i])
    ensures OtherScalarOf(a) == OtherScalarOf(b)
  {
    hide Is, SameLetter, Lower;
    SameIs(a, b, "Float32");
    SameIs(a, b, "Float");
    SameIs(a, b, "Float64");
    SameIs(a, b, "Double");
    SameIs(a, b, "Date");
    SameIs(a, b, "DateTime");
    SameIs(a, b, "Timestamp");
    SameIs(a, b, "IPv4");
    SameIs(a, b, "IPv6");
    SameIs(a, b, "UUID");
  }

  lemma SameStrings(a: bytes, b: bytes)
    requires |a| == |b| && forall i | 0 <= i < |a| :: SameLetter(a[i], b[i])
    ensures IsStringName(a) <==> IsStringName(b)
  {
    hide Is, SameLetter, Lower;
    SameIs(a, b, "String");
    SameIs(a, b, "Char");
    SameIs(a, b, "Varchar");
    SameIs(a, b, "Text");
    SameIs(a, b, "TinyText");
    SameIs(a, b, "MediumText");
    SameIs(a, b, "LongText");
    SameIs(a, b, "Blob");
    SameIs(a, b, "TinyBlob");
    SameIs(a, b, "MediumBlob");
    SameIs(a, b, "LongBlob");
  }

  // ---------- other names of the same types ----------

  /** A name that is another, but for the letter at some place, is not it. */
  lemma IsNot(name: string, w: string, i: nat)
    requires forall k | 0 <= k < |w| :: w[k] < '\U{80}' && IsAlnum(w[k] as int)
    requires i < |name| == |w| && name[i] < '\U{80}' && Lower(name[i] as int) != Lower(w[i] as int)
    ensures !Is(Letters(name), w)
  {
    assert Letters(name)[i] == name[i] as int;
  }

  lemma IsItself(w: string)
    requires forall k | 0 <= k < |w| :: w[k] < '\U{80}' && IsAlnum(w[k] as int)
    ensures Is(Letters(w), w)
  {
  }

  lemma SmallAliases()
    ensures ScalarOf(Letters("TinyInt")) == Some(Int8) && ScalarOf(Letters("SmallInt")) == Some(Int16)
  {
    hide Is;
    IsItself("TinyInt");
    IsItself("SmallInt");
  }

  lemma IntAliases()
    ensures ScalarOf(Letters("Int")) == Some(Int32) && ScalarOf(Letters("Integer")) == Some(Int32)
    ensures ScalarOf(Letters("BigInt")) == Some(Int64)
  {
    hide Is;
    IsItself("Int");
    IsItself("Integer");
    IsNot("Integer", "TinyInt", 0);
    IsItself("BigInt");
    IsNot("BigInt", "UInt16", 0);
    IsNot("BigInt", "UInt32", 0);
    IsNot("BigInt", "UInt64", 0);
  }

  lemma FloatAliases()
    ensures ScalarOf(Letters("Float")) == Some(Float32) && ScalarOf(Letters("Double")) == Some(Float64)
    ensures ScalarOf(Letters("Timestamp")) == Some(DateTime)
  {
    hide Is;
    IsItself("Float");
    IsNot("Float", "UInt8", 0);
    IsNot("Float", "Int16", 0);
    IsNot("Float", "Int32", 0);
    IsNot("Float", "Int64", 0);
    IsItself("Double");
    IsNot("Double", "UInt16", 0);
    IsNot("Double", "UInt32", 0);
    IsNot("Double", "UInt64", 0);
    IsNot("Double", "BigInt", 0);
    IsItself("Timestamp");
  }

  lemma StringAliases()
    ensures IsStringName(Letters("String")) && IsStringName(Letters("Char")) && IsStringName(Letters("Varchar"))
    ensures IsStringName(Letters("Text")) && IsStringName(Letters("TinyText")) && IsStringName(Letters("MediumText"))
    ensures IsStringName(Letters("LongText")) && IsStringName(Letters("Blob")) && IsStringName(Letters("TinyBlob"))
    ensures IsStringName(Letters("MediumBlob")) && IsStringName(Letters("LongBlob"))
  {
    hide Is;
    IsItself("String");
    IsItself("Char");
    IsItself("Varchar");
    IsItself("Text");
    IsItself("TinyText");
    IsItself("MediumText");
    IsItself("LongText");
    IsItself("Blob");
    IsItself("TinyBlob");
    IsItself("MediumBlob");
    IsItself("LongBlob");
  }

  // ---------- decimals of a fixed width ----------

  lemma WideParams(head: bytes, params: bytes)
    requires |params| > 0 && 0x28 !in params && 0x28 !in head && DecimalHead(head).Some?
    ensures DecimalParams(Call(head, params)) == Some((params, DecimalHead(head).value))
  {
    hide IndexFrom, LastBelow, DecimalHead;
    var name, n := Call(head, params), |head|;
    assert forall i | 0 <= i < n :: name[i] == head[i] != 0x28;
    assert name[n] == 0x28;
    assert forall i | n + 1 <= i < |name| - 1 :: name[i] == params[i - n - 1];
    assert name[|name| - 1] == 0x29;
    assert IndexFrom(name, 0x28, 0) == n;
    assert IndexFrom(name, 0x28, n + 1) == |name|;
    assert LastBelow(name, 0x29, |name|) == |name|;
    assert name[..n] == head;
    assert name[n + 1..|name| - 1] == params;
  }

  lemma WideParsed(head: bytes, scale: byte, nobits: NoBits)
    requires |head| == 9 && DecimalHead(head) == Some(Some(nobits))
    requires 0x28 !in head && StartsWith(head, Ascii("Decimal"))
    ensures ParseDecimal(Call(head, Digits(scale)))
         == Some(DecimalShape(if nobits == N32 then 9 else 18, scale, nobits))
  {
    hide DecimalParams, Digits, ParseUnsigned, DecimalHead;
    var name := Call(head, Digits(scale));
    WideParams(head, Digits(scale));
    ParseDigits(scale, 255);
    assert name[..7] == head[..7];
  }

  lemma WideShape(head: bytes, scale: byte, nobits: NoBits)
    requires |head| == 9 && DecimalHead(head) == Some(Some(nobits))
    requires 0x28 !in head && StartsWith(head, Ascii("Decimal"))
    ensures ShapeOf(Call(head, Digits(scale)))
         == DecShape(DecimalShape(if nobits == N32 then 9 else 18, scale, nobits))
  {
    hide ParseDecimal, Digits, ScalarOf, IsStringName, ParseNullable, ParseFixedString, ParseArray, ParseEnum;
    hide DecimalHead, StartsWith;
    WideParsed(head, scale, nobits);
    CallIsNoScalar(head, Digits(scale));
    FirstOfDecimal(head);
    FirstLetter(Call(head, Digits(scale)));
  }

  lemma FirstOfDecimal(head: bytes)
    requires |head| == 9 && StartsWith(head, Ascii("Decimal"))
    ensures head[0] == 0x44
  {
    assert head[..7][0] == Ascii("Decimal")[0];
  }

  /** `Decimal32(s)` has nine digits and `Decimal64(s)` eighteen, whatever the scale. */
  lemma WideDecimals(scale: byte)
    ensures TypeOf(Call(Letters("Decimal32"), Digits(scale))) == Some(SqlType.Decimal(9, scale))
    ensures TypeOf(Call(Letters("Decimal64"), Digits(scale))) == Some(SqlType.Decimal(18, scale))
  {
    hide ShapeOf, Digits, Call;
    Heads();
    WideShape(Letters("Decimal32"), scale, N32);
    WideShape(Letters("Decimal64"), scale, N64);
  }

  lemma Heads()
    ensures DecimalHead(Letters("Decimal32")) == Some(Some(N32)) && DecimalHead(Letters("Decimal64")) == Some(Some(N64))
    ensures 0x28 !in Letters("Decimal32") && 0x28 !in Letters("Decimal64")
    ensures StartsWith(Letters("Decimal32"), Ascii("Decimal")) && StartsWith(Letters("Decimal64"), Ascii("Decimal"))
  {
    LettersAscii("Decimal32");
    LettersAscii("Decimal64");
    assert Ascii("Decimal32")[7] == 0x33 && Ascii("Decimal64")[7] == 0x36;
    assert Ascii("Decimal32")[..7] == Ascii("Decimal") == Ascii("Decimal64")[..7];
  }

  // ---------- printed names with parameters ----------

  lemma DigitsSpelled()
    ensures Digits(0) == Letters("0") && Digits(9) == Letters("9") && Digits(10) == Letters("10")
    ensures Digits(105) == Letters("105") && SignedDigits(-2) == Letters("-2")
  {
    assert Digits(10) == [0x31, 0x30] && Digits(105) == Digits(10) + [0x35];
    assert Digits(2) == [0x32];
  }

  /** How the names with parameters are spelled, around the names and numbers inside. */
  lemma PrintedForms(n: u64, t: SqlType, precision: byte, scale: byte)
    ensures Print(FixedString(n)) == Letters("FixedString(") + Digits(n) + Letters(")")
    ensures Print(Nullable(t)) == Letters("Nullable(") + Print(t) + Letters(")")
    ensures Print(Array(t)) == Letters("Array(") + Print(t) + Letters(")")
    ensures Print(SqlType.Decimal(precision, scale))
         == Letters("Decimal(") + Digits(precision) + Letters(", ") + Digits(scale) + Letters(")")
  {
    hide Digits;
    LettersAscii("FixedString(");
    LettersAscii("Nullable(");
    LettersAscii("Array(");
    LettersAscii("Decimal(");
    assert Letters(")") == [0x29] && Letters(", ") == [0x2C, 0x20];
  }

  /** Enums: the items in quotes with their values, commas between them. */
  lemma PrintedEnum(a: Item, b: Item)
    ensures PrintItem(a) == Letters("'") + a.name + Letters("' = ") + SignedDigits(a.value)
    ensures Print(Enum(E8, [a, b])) == Letters("Enum8(") + PrintItem(a) + Letters(",") + PrintItem(b) + Letters(")")
    ensures Print(Enum(E16, [a])) == Letters("Enum16(") + PrintItem(a) + Letters(")")
  {
    hide SignedDigits;
    assert Letters("'") == [0x27] && Letters("' = ") == [0x27, 0x20, 0x3D, 0x20];
    assert Letters(",") == [0x2C] && Letters(")") == [0x29];
    EnumHeads();
    TwoItems(a, b);
    hide PrintItem, PrintItems, EnumName;
    assert Print(Enum(E8, [a, b])) == EnumName(E8) + [0x28] + PrintItems([a, b]) + [0x29];
    assert Print(Enum(E16, [a])) == EnumName(E16) + [0x28] + PrintItems([a]) + [0x29];
  }

  lemma EnumHeads()
    ensures EnumName(E8) + [0x28] == Letters("Enum8(") && EnumName(E16) + [0x28] == Letters("Enum16(")
  {
  }

  lemma TwoItems(a: Item, b: Item)
    ensures PrintItems([a, b]) == PrintItem(a) + [0x2C] + PrintItem(b) && PrintItems([a]) == PrintItem(a)
  {
    hide PrintItem;
    assert [a, b][1..] == [b];
  }

  lemma {:induction false} NoDigit(s: bytes, i: nat)
    requires i < |s| && !IsDigit(s[i])
    ensures DigitsValue(s) == None
    decreases |s|
  {
    if i < |s| - 1 {
      NoDigit(s[..|s| - 1], i);
    }
  }

  /** Numbers in names: a plus sign may stand before the digits, any other byte may not, and nothing above the largest
      value of the type is taken. */
  lemma NumbersParsed(n: nat, max: nat, b: byte)
    requires !IsDigit(b)
    ensures ParseUnsigned(Digits(n), max) == if n <= max then Some(n) else None
    ensures ParseUnsigned([b] + Digits(n), max) == if b == 0x2B && n <= max then Some(n) else None
    ensures ParseUnsigned([], max) == None && ParseUnsigned([b], max) == None
  {
    hide Digits, DigitsValue;
    DigitsRoundTrip(n);
    assert IsDigit(Digits(n)[0]);
    assert ([b] + Digits(n))[1..] == Digits(n);
    NoDigit([b] + Digits(n), 0);
    NoDigit([b], 0);
  }

  // ---------- names that are refused ----------

  /** Other first letters than those of the types with parameters. */
  lemma UnknownCall(head: bytes, inner: bytes)
    requires |head| > 0 && 0x20 < head[0] < 0x80 && head[0] !in {0x41, 0x44, 0x45, 0x46, 0x4E}
    ensures ShapeOf(Call(head, inner)) == UnknownShape
  {
    hide ScalarOf, IsStringName, ParseNullable, ParseFixedString, ParseArray, ParseDecimal, ParseEnum;
    assert Call(head, inner)[0] == head[0];
    CallIsNoScalar(head, inner);
    FirstLetter(Call(head, inner));
  }

  /** No word of the tables starts with an A or an N. */
  lemma NoIntegerLetter(name: bytes)
    requires |name| > 0 && name[0] in {0x41, 0x4E}
    ensures IntegerOf(name) == None
  {
    assert Lower(name[0]) in {0x61, 0x6E};
  }

  lemma NoOtherLetter(name: bytes)
    requires |name| > 0 && name[0] in {0x41, 0x4E}
    ensures OtherScalarOf(name) == None
  {
    assert Lower(name[0]) in {0x61, 0x6E};
  }

  lemma NoStringLetter(name: bytes)
    requires |name| > 0 && name[0] in {0x41, 0x4E}
    ensures !IsStringName(name)
  {
    assert Lower(name[0]) in {0x61, 0x6E};
  }

  lemma TooLong(name: bytes)
    requires |name| == 11
    ensures ScalarOf(name) == None && !IsStringName(name)
  {
  }

  lemma BareNullable()
    ensures ShapeOf(Letters("Nullable")) == PanicShape
  {
    hide IntegerOf, OtherScalarOf, IsStringName, ParseFixedString, ParseArray, ParseDecimal, ParseEnum;
    var name := Letters("Nullable");
    NoIntegerLetter(name);
    NoOtherLetter(name);
    NoStringLetter(name);
    LettersAscii("Nullable");
    assert name[..8] == name;
  }

  lemma BareArray()
    ensures ShapeOf(Letters("Array")) == PanicShape
  {
    hide IntegerOf, OtherScalarOf, IsStringName, ParseNullable, ParseFixedString, ParseDecimal, ParseEnum;
    var name := Letters("Array");
    NoIntegerLetter(name);
    NoOtherLetter(name);
    NoStringLetter(name);
    FirstLetter(name);
    LettersAscii("Array");
    assert name[..5] == name;
  }

  lemma BareFixedString()
    ensures ShapeOf(Letters("FixedString")) == PanicShape
  {
    hide ScalarOf, IsStringName, ParseNullable, ParseArray, ParseDecimal, ParseEnum;
    var name := Letters("FixedString");
    TooLong(name);
    FirstLetter(name);
    LettersAscii("FixedString");
    assert name[..11] == name;
  }
}
