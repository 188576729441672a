/** Column types, the names they print as, and how `load_data` reads a name back. */
module TypeNames {
  import opened Basics
  import opened Text

  datatype Prim =
    | UInt8 | UInt16 | UInt32 | UInt64
    | Int8 | Int16 | Int32 | Int64
    | Float32 | Float64
    | Date | DateTime
    | IPv4 | IPv6 | UUID

  datatype NoBits = N32 | N64

  datatype EnumSize = E8 | E16

  datatype Item = Item(name: bytes, value: i16)

  datatype SqlType =
    | Scalar(prim: Prim)
    | String
    | FixedString(width: u64)
    | Nullable(inner: SqlType)
    | Array(inner: SqlType)
    | Decimal(precision: byte, scale: byte)
    | Enum(size: EnumSize, items: seq<Item>)

  // ---------- printing ----------

  function PrimName(prim: Prim): (t: string)
    ensures 4 <= |t|
    ensures forall i | 0 <= i < |t| :: t[i] < '\U{80}'
  {
    match prim
    case UInt8 => "UInt8" case UInt16 => "UInt16" case UInt32 => "UInt32" case UInt64 => "UInt64"
    case Int8 => "Int8" case Int16 => "Int16" case Int32 => "Int32" case Int64 => "Int64"
    case Float32 => "Float32" case Float64 => "Float64"
    case Date => "Date" case DateTime => "DateTime"
    case IPv4 => "IPv4" case IPv6 => "IPv6" case UUID => "UUID"
  }

  function EnumName(size: EnumSize): bytes {
    match size case E8 => Ascii("Enum8") case E16 => Ascii("Enum16")
  }

  function PrintItem(item: Item): bytes {
    [0x27] + item.name + [0x27, 0x20, 0x3D, 0x20] + SignedDigits(item.value)
  }

  /** The items joined with commas. */
  function PrintItems(items: seq<Item>): bytes {
    if |items| == 0 then []
    else if |items| == 1 then PrintItem(items[0])
    else PrintItem(items[0]) + [0x2C] + PrintItems(items[1..])
  }

  /** `SqlType::to_string`. */
  function Print(t: SqlType): (r: bytes)
    ensures |r| >= 4
  {
    match t
    case Scalar(prim) => Ascii(PrimName(prim))
    case String => Ascii("String")
    case FixedString(n) => Ascii("FixedString(") + Digits(n) + [0x29]
    case Nullable(inner) => Ascii("Nullable(") + Print(inner) + [0x29]
    case Array(inner) => Ascii("Array(") + Print(inner) + [0x29]
    case Decimal(p, s) => Ascii("Decimal(") + Digits(p) + [0x2C, 0x20] + Digits(s) + [0x29]
    case Enum(size, items) => EnumName(size) + [0x28] + PrintItems(items) + [0x29]
  }

  // ---------- scalar names ----------

  function Lower(b: byte): byte { if 0x41 <= b <= 0x5A then b + 0x20 else b }

  predicate IsAlnum(b: byte) { 0x30 <= b <= 0x39 || 0x41 <= b <= 0x5A || 0x61 <= b <= 0x7A }

  /** `eq_ignore_ascii_case` with a word of the table. */
  predicate Is(name: bytes, w: string): (same: bool)
    requires forall i | 0 <= i < |w| :: w[i] < '\U{80}' && IsAlnum(w[i] as int)
    ensures same ==> |name| == |w| && forall i | 0 <= i < |name| :: IsAlnum(name[i])
  {
    && |name| == |w|
    && forall i | 0 <= i < |name| :: Lower(name[i]) == Lower(w[i] as int)
  }

  /** The names of `load_data` that need no parsing, whatever their case. */
  function IntegerOf(name: bytes): (r: Option<Prim>)
    ensures r.Some? ==> forall i | 0 <= i < |name| :: IsAlnum(name[i])
  {
    if Is(name, "UInt8") then Some(UInt8)
    else if Is(name, "UInt16") then Some(UInt16)
    else if Is(name, "UInt32") then Some(UInt32)
    else if Is(name, "UInt64") then Some(UInt64)
    else if Is(name, "Int8") || Is(name, "TinyInt") then Some(Int8)
    else if Is(name, "Int16") || Is(name, "SmallInt") then Some(Int16)
    else if Is(name, "Int32") || Is(name, "Int") || Is(name, "Integer") then Some(Int32)
    else if Is(name, "Int64") || Is(name, "BigInt") then Some(Int64)
    else None
  }

  function OtherScalarOf(name: bytes): (r: Option<Prim>)
    ensures r.Some? ==> forall i | 0 <= i < |name| :: IsAlnum(name[i])
  {
    if Is(name, "Float32") || Is(name, "Float") then Some(Float32)
    else if Is(name, "Float64") || Is(name, "Double") then Some(Float64)
    else if Is(name, "Date") then Some(Date)
    else if Is(name, "DateTime") || Is(name, "Timestamp") then Some(DateTime)
    else if Is(name, "IPv4") then Some(IPv4)
    else if Is(name, "IPv6") then Some(IPv6)
    else if Is(name, "UUID") then Some(UUID)
    else None
  }

  function ScalarOf(name: bytes): (r: Option<Prim>)
    ensures r.Some? ==> forall i | 0 <= i < |name| :: IsAlnum(name[i])
  {
    if IntegerOf(name).Some? then IntegerOf(name) else OtherScalarOf(name)
  }

  predicate IsStringName(name: bytes): (r: bool)
    ensures r ==> forall i | 0 <= i < |name| :: IsAlnum(name[i])
  {
    || Is(name, "String") || Is(name, "Char") || Is(name, "Varchar")
    || Is(name, "Text") || Is(name, "TinyText") || Is(name, "MediumText") || Is(name, "LongText")
    || Is(name, "Blob") || Is(name, "TinyBlob") || Is(name, "MediumBlob") || Is(name, "LongBlob")
  }

  lemma IntegerNames(prim: Prim)
    requires prim.UInt8? || prim.UInt16? || prim.UInt32? || prim.UInt64?
          || prim.Int8? || prim.Int16? || prim.Int32? || prim.Int64?
    ensures IntegerOf(Ascii(PrimName(prim))) == Some(prim)
  {
    var n := Ascii(PrimName(prim));
    assert n[0] == PrimName(prim)[0] as int;
    assert n[3] == PrimName(prim)[3] as int;
    if |n| > 4 { assert n[4] == PrimName(prim)[4] as int; }
  }

  predicate OtherScalar(prim: Prim) {
    prim.Float32? || prim.Float64? || prim.Date? || prim.DateTime? || prim.IPv4? || prim.IPv6? || prim.UUID?
  }

  /** No name in the integer table starts with a D or an F, and the only one of four letters has an N second. */
  lemma NoInteger(name: bytes)
    requires |name| > 1 && (name[0] == 0x44 || name[0] == 0x46 || (|name| == 4 && Lower(name[1]) != 0x6E))
    ensures IntegerOf(name) == None
  {
    if name[0] == 0x44 || name[0] == 0x46 {
      assert Lower(name[0]) == 0x64 || Lower(name[0]) == 0x66;
    } else {
      assert "Int8"[1] == 'n';
    }
  }

  lemma OtherIsNoInteger(prim: Prim)
    requires OtherScalar(prim)
    ensures IntegerOf(Ascii(PrimName(prim))) == None
  {
    hide IntegerOf;
    var n := Ascii(PrimName(prim));
    assert n[0] == PrimName(prim)[0] as int && n[1] == PrimName(prim)[1] as int;
    NoInteger(n);
  }

  lemma FloatNames()
    ensures OtherScalarOf(Ascii("Float32")) == Some(Float32) && OtherScalarOf(Ascii("Float64")) == Some(Float64)
  {
    var n := Ascii("Float64");
    assert n[5] == "Float64"[5] as int && "Float32"[5] == '3';
  }

  lemma DateNames()
    ensures OtherScalarOf(Ascii("Date")) == Some(Date) && OtherScalarOf(Ascii("DateTime")) == Some(DateTime)
  {
  }

  lemma IPv4Name()
    ensures OtherScalarOf(Ascii("IPv4")) == Some(IPv4)
  {
    var n := Ascii("IPv4");
    assert n[0] == "IPv4"[0] as int && "Date"[0] == 'D';
  }

  lemma IPv6Name()
    ensures OtherScalarOf(Ascii("IPv6")) == Some(IPv6)
  {
    var n := Ascii("IPv6");
    assert n[0] == "IPv6"[0] as int && "Date"[0] == 'D';
    assert n[3] == "IPv6"[3] as int && "IPv4"[3] == '4';
  }

  lemma UUIDName()
    ensures OtherScalarOf(Ascii("UUID")) == Some(UUID)
  {
    var n := Ascii("UUID");
    assert n[0] == "UUID"[0] as int && "Date"[0] == 'D' && "IPv4"[0] == 'I' == "IPv6"[0];
  }

  lemma OtherNames(prim: Prim)
    requires OtherScalar(prim)
    ensures OtherScalarOf(Ascii(PrimName(prim))) == Some(prim)
    ensures IntegerOf(Ascii(PrimName(prim))) == None
  {
    hide OtherScalarOf, IntegerOf;
    OtherIsNoInteger(prim);
    FloatNames();
    DateNames();
    IPv4Name();
    IPv6Name();
    UUIDName();
  }

  lemma ScalarNames(prim: Prim)
    ensures ScalarOf(Ascii(PrimName(prim))) == Some(prim)
  {
    hide PrimName, IntegerOf, OtherScalarOf;
    if OtherScalar(prim) {
      OtherNames(prim);
    } else {
      IntegerNames(prim);
    }
  }

  lemma NoScalarHasParen(name: bytes, i: nat)
    requires i < |name| && name[i] == 0x28
    ensures ScalarOf(name) == None && !IsStringName(name)
  {
    assert !IsAlnum(name[i]);
  }

  // ---------- names with parameters ----------

  /** What one `parse_*` function makes of a name. Byte slicing of a `str` panics when the ends
      are out of order or fall inside a character. */
  datatype Parse<+T> = Found(value: T) | NotThis | Panics

  /** `&source[from..source.len() - 1]`. */
  function Inside(name: bytes, from: nat): (r: Parse<bytes>)
    requires |name| > 0
    ensures r.Found? ==> |r.value| < |name|
  {
    if from > |name| - 1 || !IsBoundary(name, from) || !IsBoundary(name, |name| - 1) then Panics
    else Found(name[from..|name| - 1])
  }

  function ParseNullable(name: bytes): (r: Parse<bytes>)
    ensures r.Found? ==> |r.value| < |name|
  {
    if !StartsWith(name, Ascii("Nullable")) then NotThis
    else match Inside(name, 9)
      case Found(inner) => if StartsWith(inner, Ascii("Nullable")) then NotThis else Found(inner)
      case other => other
  }

  function ParseFixedString(name: bytes): Parse<u64> {
    if !StartsWith(name, Ascii("FixedString")) then NotThis
    else match Inside(name, 12)
      case Found(digits) =>
        (match ParseUnsigned(digits, TWO_64 - 1) case Some(n) => Found(n) case None => NotThis)
      case _ => Panics
  }

  function ParseArray(name: bytes): (r: Parse<bytes>)
    ensures r.Found? ==> |r.value| < |name|
  {
    if !StartsWith(name, Ascii("Array")) then NotThis else Inside(name, 6)
  }

  // ---------- decimals ----------

  datatype DecimalShape = DecimalShape(precision: byte, scale: byte, nobits: NoBits)

  /** `NoBits::from_precision`. */
  function FromPrecision(precision: byte): Option<NoBits> {
    if precision <= 9 then Some(N32) else if precision <= 18 then Some(N64) else None
  }

  /** The first position from `i` on holding `b`, `|s|` when there is none. */
  function IndexFrom(s: bytes, b: byte, i: nat): (k: nat)
    requires i <= |s|
    ensures i <= k <= |s|
    ensures k < |s| ==> s[k] == b
    ensures forall j | i <= j < k :: s[j] != b
    decreases |s| - i
  {
    if i == |s| || s[i] == b then i else IndexFrom(s, b, i + 1)
  }

  /** One past the last position below `n` holding `b`, 0 when there is none. */
  function LastBelow(s: bytes, b: byte, n: nat): (k: nat)
    requires n <= |s|
    ensures k <= n
    ensures k > 0 ==> s[k - 1] == b
    ensures forall j | k <= j < n :: s[j] != b
  {
    if n == 0 || s[n - 1] == b then n else LastBelow(s, b, n - 1)
  }

  /** What stands before the opening parenthesis: a plain decimal (None) or one of fixed width. */
  function DecimalHead(head: bytes): Option<Option<NoBits>> {
    if head == Ascii("Decimal") then Some(None)
    else if head == Ascii("Decimal32") then Some(Some(N32))
    else if head == Ascii("Decimal64") then Some(Some(N64))
    else None
  }

  /** The part between the parentheses of a decimal name, with what its head says of the width.
      A name with a second opening parenthesis is refused. */
  function DecimalParams(s: bytes): Option<(bytes, Option<NoBits>)> {
    var open := IndexFrom(s, 0x28, 0);
    if open == |s| || IndexFrom(s, 0x28, open + 1) < |s| then None
    else match DecimalHead(s[..open])
      case None => None
      case Some(nobits) =>
        var close := LastBelow(s, 0x29, |s|);
        if close <= open + 1 then None else Some((s[open + 1..close - 1], nobits))
  }

  function ParseDecimal(s: bytes): Option<DecimalShape> {
    if |s| < 12 || !StartsWith(s, Ascii("Decimal")) then None
    else match DecimalParams(s)
      case None => None
      case Some((params, Some(nobits))) =>
        (match ParseUnsigned(params, 255)
         case None => None
         case Some(scale) => Some(DecimalShape(if nobits == N32 then 9 else 18, scale, nobits)))
      case Some((params, None)) =>
        var comma := IndexFrom(params, 0x2C, 0);
        if comma == |params| || IndexFrom(params, 0x2C, comma + 1) < |params| then None
        else
          match (ParseUnsigned(Trim(params[..comma]), 255), ParseUnsigned(Trim(params[comma + 1..]), 255))
          case (Some(precision), Some(scale)) =>
            if scale > precision then None
            else (match FromPrecision(precision)
                  case None => None
                  case Some(nobits) => Some(DecimalShape(precision, scale, nobits)))
          case _ => None
  }

  // ---------- enums ----------

  /** A step of the enum grammar: a value with the position after it. */
  datatype Step<+T> = Hit(value: T, pos: nat) | Miss {
    predicate IsFailure() { Miss? }
    function PropagateFailure<U>(): Step<U> requires Miss? { Miss }
    function Extract(): (T, nat) requires Hit? { (value, pos) }
  }

  function Token(s: bytes, p: nat, b: byte): (r: Step<byte>)
    requires p <= |s|
    ensures r.Hit? ==> r.pos == p + 1 <= |s|
  {
    if p < |s| && s[p] == b then Hit(b, p + 1) else Miss
  }

  /** The rest of a quoted word: a backslash takes the next character as it is. */
  function WordTail(s: bytes, p: nat): (r: Step<bytes>)
    requires p <= |s|
    ensures r.Hit? ==> p < r.pos <= |s|
    decreases |s| - p
  {
    if p == |s| then Miss
    else if s[p] == 0x27 then Hit([], p + 1)
    else if s[p] == 0x5C then
      if p + 1 == |s| then Miss
      else
        var (w, q) :- WordTail(s, p + 2);
        Hit([s[p + 1]] + w, q)
    else
      var (w, q) :- WordTail(s, p + 1);
      Hit([s[p]] + w, q)
  }

  function DigitsEnd(s: bytes, p: nat): (q: nat)
    requires p <= |s|
    ensures p <= q <= |s|
    decreases |s| - p
  {
    if p < |s| && IsDigit(s[p]) then DigitsEnd(s, p + 1) else p
  }

  function Integer(s: bytes, p: nat): (r: Step<i16>)
    requires p <= |s|
    ensures r.Hit? ==> p < r.pos <= |s|
  {
    var negative := p < |s| && s[p] == 0x2D;
    var from := if negative then p + 1 else p;
    var to := DigitsEnd(s, from);
    if to == from then Miss
    else match DigitsValue(s[from..to])
      case None => Miss
      case Some(v) =>
        var n: int := v;
        if negative && v <= 0x8000 then Hit(-n, to)
        else if !negative && v < 0x8000 then Hit(v, to)
        else Miss
  }

  function Pair(s: bytes, p: nat): (r: Step<Item>)
    requires p <= |s|
    ensures r.Hit? ==> p < r.pos <= |s|
  {
    var (_, p1) :- Token(s, SkipSpaces(s, p), 0x27);
    var (name, p2) :- WordTail(s, p1);
    var (_, p3) :- Token(s, SkipSpaces(s, p2), 0x3D);
    var (value, p4) :- Integer(s, SkipSpaces(s, p3));
    Hit(Item(name, value), SkipSpaces(s, p4))
  }

  /** One pair or more, separated by commas. */
  function Pairs(s: bytes, p: nat): (r: Step<seq<Item>>)
    requires p <= |s|
    ensures r.Hit? ==> p < r.pos <= |s|
    decreases |s| - p
  {
    var (item, q) :- Pair(s, p);
    if Token(s, q, 0x2C).Hit? then
      var (rest, end) :- Pairs(s, q + 1);
      Hit([item] + rest, end)
    else Hit([item], q)
  }

  /** `*val as i8`. */
  function WrapI8(v: int): i8 { (v + 0x80) % 0x100 - 0x80 }

  function NarrowItems(items: seq<Item>): (r: seq<Item>)
    ensures |r| == |items|
  {
    seq(|items|, i requires 0 <= i < |items| => Item(items[i].name, WrapI8(items[i].value)))
  }

  function ParseEnum(size: EnumSize, s: bytes): Option<seq<Item>> {
    var p := SkipSpaces(s, 0);
    var w := EnumName(size);
    if !StartsWith(s[p..], w) then None
    else
      var q := SkipSpaces(s, p + |w|);
      if !Token(s, q, 0x28).Hit? then None
      else match Pairs(s, SkipSpaces(s, q + 1))
        case Miss => None
        case Hit(items, end) =>
          if !Token(s, end, 0x29).Hit? || end + 1 != |s| then None
          else Some(if size.E8? then NarrowItems(items) else items)
  }

  // ---------- the dispatch of load_data ----------

  /** How `load_data` goes on after comparing and parsing the type name. */
  datatype Shape =
    | ScalarShape(prim: Prim)
    | StringShape
    | NullableShape(inner: bytes)
    | FixedShape(width: u64)
    | ArrayShape(inner: bytes)
    | DecShape(decimal: DecimalShape)
    | EnumShape(size: EnumSize, items: seq<Item>)
    | UnknownShape
    | PanicShape

  function ShapeOf(name: bytes): (shape: Shape)
    ensures shape.NullableShape? || shape.ArrayShape? ==> |shape.inner| < |name|
  {
    if ScalarOf(name).Some? then ScalarShape(ScalarOf(name).value)
    else if IsStringName(name) then StringShape
    else match ParseNullable(name)
      case Panics => PanicShape
      case Found(inner) => NullableShape(inner)
      case NotThis =>
    match ParseFixedString(name)
      case Panics => PanicShape
      case Found(n) => FixedShape(n)
      case NotThis =>
    match ParseArray(name)
      case Panics => PanicShape
      case Found(inner) => ArrayShape(inner)
      case NotThis =>
    match ParseDecimal(name)
      case Some(d) => DecShape(d)
      case None =>
    match ParseEnum(E8, name)
      case Some(items) => EnumShape(E8, items)
      case None =>
    match ParseEnum(E16, name)
      case Some(items) => EnumShape(E16, items)
      case None => UnknownShape
  }

  /** The type of the column `load_data` builds for a name, when it builds one. */
  function TypeOf(name: bytes): Option<SqlType> {
    match ShapeOf(name)
    case ScalarShape(prim) => Some(Scalar(prim))
    case StringShape => Some(String)
    case FixedShape(n) => Some(FixedString(n))
    case NullableShape(inner) =>
      (match TypeOf(inner) case None => None case Some(t) => Some(Nullable(t)))
    case ArrayShape(inner) =>
      (match TypeOf(inner) case None => None case Some(t) => Some(Array(t)))
    case DecShape(d) => Some(Decimal(d.precision, d.scale))
    case EnumShape(size, items) => Some(Enum(size, items))
    case UnknownShape => None
    case PanicShape => None
  }
}
