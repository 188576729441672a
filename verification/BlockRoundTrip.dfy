/** `raw_load` after `write`: what a block, or a chunk of one, comes back as. */
module BlockRoundTrip {
  import opened Basics
  import opened Text
  import opened Varint
  import opened Decoders
  import opened TypeNames
  import opened TypeNameRoundTrip
  import opened Columns
  import opened ColumnRoundTrip
  import opened Views
  import opened Blocks

  // ---------- writing ----------

  /** The numbers are field tags here: 1 and 2 name the fields, 0 ends them, whatever the block holds. */
  function WriteInfo(info: BlockInfo): bytes {
    Leb128(1) + ToLittleEndian(if info.overflows then 1 else 0, 1)
    + Leb128(2) + ToLittleEndian(info.bucket, 4) + Leb128(0)
  }

  function WireInfo(info: BlockInfo): BlockInfo {
    BlockInfo(1, info.overflows, 2, info.bucket, 0)
  }

  ghost predicate Utf8Items(t: SqlType) {
    match t
    case Nullable(inner) => Utf8Items(inner)
    case Array(inner) => Utf8Items(inner)
    case Enum(_, items) => forall i | 0 <= i < |items| :: Utf8(items[i].name)
    case _ => true
  }

  /** Rust's own guarantees: names are UTF-8, and lengths fit a word. */
  ghost predicate SoundNamed(c: NamedColumn) {
    && SoundView(c.data) && Saveable(c.data)
    && Utf8(c.name) && |c.name| < TWO_64
    && Utf8Items(ViewType(c.data)) && |Print(ViewType(c.data))| < TWO_64
  }

  ghost predicate SoundBlock(b: Block) {
    && b.info.bucket < 0x1_0000_0000
    && |b.columns| < TWO_64 && RowCount(b.columns) < TWO_64
    && Rectangular(b.columns, RowCount(b.columns))
    && forall i | 0 <= i < |b.columns| :: SoundNamed(b.columns[i])
  }

  function WriteColumn(c: NamedColumn): bytes
    requires SoundNamed(c)
  {
    EncodeBlob(c.name) + (EncodeBlob(Print(ViewType(c.data))) + ViewSave(c.data, 0, ViewLength(c.data)))
  }

  function WriteColumns(columns: seq<NamedColumn>): bytes
    requires forall i | 0 <= i < |columns| :: SoundNamed(columns[i])
  {
    if |columns| == 0 then [] else WriteColumn(columns[0]) + WriteColumns(columns[1..])
  }

  /** `Block::write` without compression. */
  function Write(b: Block): bytes
    requires SoundBlock(b)
  {
    WriteInfo(b.info) + (Leb128(|b.columns|) + (Leb128(RowCount(b.columns)) + WriteColumns(b.columns)))
  }

  // ---------- printed names are UTF-8 ----------

  lemma DigitsUtf8(n: nat)
    ensures Utf8(Digits(n))
  {
    AsciiIsUtf8(Digits(n));
  }

  lemma ItemUtf8(item: Item)
    requires Utf8(item.name)
    ensures Utf8(PrintItem(item))
  {
    hide Utf8, Digits;
    var v: int := item.value;
    AsciiIsUtf8([0x27]);
    AsciiIsUtf8([0x27, 0x20, 0x3D, 0x20]);
    AsciiIsUtf8([0x2D]);
    DigitsUtf8(if v < 0 then -v else v);
    if v < 0 {
      Utf8Concat([0x2D], Digits(-v));
    }
    Utf8Concat([0x27], item.name);
    Utf8Concat([0x27] + item.name, [0x27, 0x20, 0x3D, 0x20]);
    Utf8Concat([0x27] + item.name + [0x27, 0x20, 0x3D, 0x20], SignedDigits(item.value));
  }

  lemma {:induction false} ItemsUtf8(items: seq<Item>)
    requires forall i | 0 <= i < |items| :: Utf8(items[i].name)
    ensures Utf8(PrintItems(items))
  {
    hide PrintItem;
    if |items| > 0 {
      ItemUtf8(items[0]);
    }
    if |items| > 1 {
      AsciiIsUtf8([0x2C]);
      ItemsUtf8(items[1..]);
      Utf8Concat(PrintItem(items[0]), [0x2C]);
      Utf8Concat(PrintItem(items[0]) + [0x2C], PrintItems(items[1..]));
    }
  }

  lemma Enclosed(head: bytes, body: bytes)
    requires Utf8(head) && Utf8(body)
    ensures Utf8(head + body + [0x29])
  {
    AsciiIsUtf8([0x29]);
    Utf8Concat(head, body);
    Utf8Concat(head + body, [0x29]);
  }

  lemma {:induction false} PrintUtf8(t: SqlType)
    requires Utf8Items(t)
    ensures Utf8(Print(t))
  {
    hide Utf8, Digits, PrintItems;
    match t
    case Scalar(prim) => AsciiIsUtf8(Ascii(PrimName(prim)));
    case String => AsciiIsUtf8(Ascii("String"));
    case FixedString(n) =>
      AsciiIsUtf8(Ascii("FixedString("));
      DigitsUtf8(n);
      Enclosed(Ascii("FixedString("), Digits(n));
    case Nullable(inner) =>
      PrintUtf8(inner);
      AsciiIsUtf8(Ascii("Nullable("));
      Enclosed(Ascii("Nullable("), Print(inner));
    case Array(inner) =>
      PrintUtf8(inner);
      AsciiIsUtf8(Ascii("Array("));
      Enclosed(Ascii("Array("), Print(inner));
    case Decimal(p, s) =>
      AsciiIsUtf8(Ascii("Decimal(") + Digits(p) + [0x2C, 0x20]);
      DigitsUtf8(s);
      Enclosed(Ascii("Decimal(") + Digits(p) + [0x2C, 0x20], Digits(s));
    case Enum(size, items) =>
      AsciiIsUtf8(EnumName(size) + [0x28]);
      ItemsUtf8(items);
      Enclosed(EnumName(size) + [0x28], PrintItems(items));
  }

  // ---------- one column ----------

  /** The stored column that the saved rows of column data load as. */
  function LoadedAs(v: View): Column
    requires SoundView(v) && Saveable(v)
  {
    SlicesCollapse(v, 0, ViewLength(v));
    Image(BaseColumn(v), BaseFrom(v), BaseFrom(v) + ViewLength(v))
  }

  lemma ViewLoads(v: View, s: bytes, p: nat)
    requires SoundView(v) && Saveable(v) && Printable(ViewType(v))
    requires Holds(s, p, ViewSave(v, 0, ViewLength(v)))
    ensures Load(s, p, Print(ViewType(v)), ViewLength(v)) == Ok(LoadedAs(v), p + |ViewSave(v, 0, ViewLength(v))|)
    ensures !LengthPanics(LoadedAs(v)) && Length(LoadedAs(v)) == ViewLength(v)
    ensures TypeOfColumn(LoadedAs(v)) == ViewType(v)
  {
    hide Load, Save, Image, Sound, Printable, Holds, ViewSave, ViewAt, Print, At;
    hide Length, BaseColumn, BaseFrom, ViewLength, ViewType, TypeOfColumn, SoundView, Saveable;
    SlicesCollapse(v, 0, ViewLength(v));
    SaveLoad(BaseColumn(v), BaseFrom(v), BaseFrom(v) + ViewLength(v), s, p);
    ImageSound(BaseColumn(v), BaseFrom(v), BaseFrom(v) + ViewLength(v));
    SoundLength(LoadedAs(v));
  }

  /** Where the parts of a written column stand. */
  lemma ColumnParts(c: NamedColumn, s: bytes, p: nat)
    requires SoundNamed(c) && Holds(s, p, WriteColumn(c))
    ensures var p1 := p + |EncodeBlob(c.name)|;
            var p2 := p1 + |EncodeBlob(Print(ViewType(c.data)))|;
            && p2 <= |s|
            && Str(s, p) == Ok(c.name, p1) && Str(s, p1) == Ok(Print(ViewType(c.data)), p2)
            && Holds(s, p2, ViewSave(c.data, 0, ViewLength(c.data)))
            && p2 + |ViewSave(c.data, 0, ViewLength(c.data))| == p + |WriteColumn(c)|
  {
    hide Str, EncodeBlob, Holds, Utf8, ViewSave, Print;
    var name, typeName := EncodeBlob(c.name), EncodeBlob(Print(ViewType(c.data)));
    var body := ViewSave(c.data, 0, ViewLength(c.data));
    HoldsSplit(s, p, name, typeName + body);
    HoldsSplit(s, p + |name|, typeName, body);
    HoldsInside(s, p + |name| + |typeName|, body);
    PrintUtf8(ViewType(c.data));
    StrRoundTrip(s, p, c.name);
    StrRoundTrip(s, p + |name|, Print(ViewType(c.data)));
  }

  lemma ColumnLoads(c: NamedColumn, s: bytes, p: nat)
    requires SoundNamed(c) && Holds(s, p, WriteColumn(c))
    ensures SoundView(c.data) && Saveable(c.data)
    ensures Printable(ViewType(c.data)) ==>
              ReadColumn(s, p, ViewLength(c.data)) == Ok(RawColumn(c.name, LoadedAs(c.data)), p + |WriteColumn(c)|)
              && !LengthPanics(LoadedAs(c.data)) && Length(LoadedAs(c.data)) == ViewLength(c.data)
    ensures ReadColumn(s, p, ViewLength(c.data)).Ok?
            && TypeOfColumn(ReadColumn(s, p, ViewLength(c.data)).value.column) == ViewType(c.data)
            ==> Printable(ViewType(c.data))
  {
    hide Str, Load, EncodeBlob, Holds, ViewSave, Print, WriteColumn, LoadedAs, Printable, TypeOf;
    ColumnParts(c, s, p);
    var p2 := p + |EncodeBlob(c.name)| + |EncodeBlob(Print(ViewType(c.data)))|;
    if Printable(ViewType(c.data)) {
      ViewLoads(c.data, s, p2);
    }
    if Load(s, p2, Print(ViewType(c.data)), ViewLength(c.data)).Ok? {
      LoadedColumn(s, p2, Print(ViewType(c.data)), ViewLength(c.data));
      SlicesCollapse(c.data, 0, 0);
      SoundTypes(BaseColumn(c.data));
      NameRoundTrip(ViewType(c.data));
    }
  }

  // ---------- all columns ----------

  ghost predicate AllSound(columns: seq<NamedColumn>) {
    forall i | 0 <= i < |columns| :: SoundNamed(columns[i])
  }

  ghost predicate AllPrintable(columns: seq<NamedColumn>) {
    forall i | 0 <= i < |columns| :: Printable(ViewType(columns[i].data))
  }

  /** The columns that written columns load as. */
  function AsLoaded(columns: seq<NamedColumn>): (r: seq<NamedColumn>)
    requires AllSound(columns)
    ensures |r| == |columns|
  {
    seq(|columns|, i requires 0 <= i < |columns| => NamedColumn(columns[i].name, Plain(LoadedAs(columns[i].data))))
  }

  ghost predicate SameTypes(a: seq<NamedColumn>, b: seq<NamedColumn>) {
    |a| == |b| && forall i | 0 <= i < |a| :: ViewType(a[i].data) == ViewType(b[i].data)
  }

  lemma {:induction false} PrefixKept(s: bytes, p: nat, k: nat, rows: nat, columns: seq<NamedColumn>)
    requires p <= |s| && ReadColumns(s, p, k, rows, columns).Ok?
    ensures |ReadColumns(s, p, k, rows, columns).value| == |columns| + k
    ensures ReadColumns(s, p, k, rows, columns).value[..|columns|] == columns
    decreases k
  {
    hide ReadColumns, ReadColumn;
    ReadColumnsStep(s, p, k, rows, columns);
    if k > 0 {
      var d := ReadColumn(s, p, rows);
      var more := Append(columns, d.value).value;
      PrefixKept(s, d.pos, k - 1, rows, more);
      var r := ReadColumns(s, p, k, rows, columns).value;
      assert r[..|columns|] == r[..|more|][..|columns|];
    }
  }

  lemma AppendSound(columns: seq<NamedColumn>, read: RawColumn, rows: nat)
    requires Rectangular(columns, rows) && !LengthPanics(read.column) && Length(read.column) == rows
    ensures Append(columns, read) == Success(columns + [NamedColumn(read.name, Plain(read.column))])
    ensures Rectangular(columns + [NamedColumn(read.name, Plain(read.column))], rows)
  {
    hide Length, LengthPanics;
  }

  lemma {:induction false} ColumnsLoad(columns: seq<NamedColumn>, s: bytes, p: nat, rows: nat, read: seq<NamedColumn>)
    requires AllSound(columns) && AllPrintable(columns) && Rectangular(columns, rows) && Rectangular(read, rows)
    requires Holds(s, p, WriteColumns(columns))
    ensures ReadColumns(s, p, |columns|, rows, read) == Ok(read + AsLoaded(columns), p + |WriteColumns(columns)|)
    decreases |columns|
  {
    hide ReadColumns, ReadColumn, Holds, WriteColumn, LoadedAs, SoundNamed, Printable, ViewLength, Append;
    HoldsInside(s, p, WriteColumns(columns));
    ReadColumnsStep(s, p, |columns|, rows, read);
    if |columns| == 0 {
      assert read + AsLoaded(columns) == read;
    } else {
      var c := columns[0];
      HoldsSplit(s, p, WriteColumn(c), WriteColumns(columns[1..]));
      ColumnLoads(c, s, p);
      AppendSound(read, RawColumn(c.name, LoadedAs(c.data)), rows);
      var first := NamedColumn(c.name, Plain(LoadedAs(c.data)));
      ColumnsLoad(columns[1..], s, p + |WriteColumn(c)|, rows, read + [first]);
      assert read + AsLoaded(columns) == read + [first] + AsLoaded(columns[1..]);
    }
  }

  /** If the columns come back with the types they were written with, all types are printable. */
  lemma {:induction false} ColumnsExact(columns: seq<NamedColumn>, s: bytes, p: nat, rows: nat, read: seq<NamedColumn>)
    requires AllSound(columns) && Rectangular(columns, rows) && Rectangular(read, rows)
    requires Holds(s, p, WriteColumns(columns))
    requires var d := ReadColumns(s, p, |columns|, rows, read);
             d.Ok? && |d.value| == |read| + |columns| && SameTypes(d.value[|read|..], columns)
    ensures AllPrintable(columns)
    decreases |columns|
  {
    hide ReadColumns, ReadColumn, Holds, WriteColumn, LoadedAs, SoundNamed, Printable, ViewLength;
    HoldsInside(s, p, WriteColumns(columns));
    ReadColumnsStep(s, p, |columns|, rows, read);
    if |columns| > 0 {
      var c := columns[0];
      var result := ReadColumns(s, p, |columns|, rows, read).value;
      HoldsSplit(s, p, WriteColumn(c), WriteColumns(columns[1..]));
      var d := ReadColumn(s, p, rows);
      var more := Append(read, d.value).value;
      PrefixKept(s, d.pos, |columns| - 1, rows, more);
      assert result[..|more|][|read|] == result[|read|] == result[|read|..][0];
      ColumnLoads(c, s, p);
      AppendSound(read, RawColumn(c.name, LoadedAs(c.data)), rows);
      assert result[|more|..] == result[|read|..][1..];
      ColumnsExact(columns[1..], s, p + |WriteColumn(c)|, rows, more);
    }
  }

  // ---------- the block ----------

  lemma InfoLoads(info: BlockInfo, s: bytes, p: nat)
    requires info.bucket < 0x1_0000_0000 && Holds(s, p, WriteInfo(info))
    ensures ReadInfo(s, p) == Ok(WireInfo(info), p + |WriteInfo(info)|)
  {
    hide Uvarint, Word, ToLittleEndian, Holds;
    var flag, bucket := if info.overflows then 1 else 0, ToLittleEndian(info.bucket, 4);
    var one, two, zero := Leb128(1), Leb128(2), Leb128(0);
    var f := ToLittleEndian(flag, 1);
    HoldsSplit(s, p, one + f + two + bucket, zero);
    HoldsSplit(s, p, one + f + two, bucket);
    HoldsSplit(s, p, one + f, two);
    HoldsSplit(s, p, one, f);
    HoldsInside(s, p, WriteInfo(info));
    UvarintRoundTrip(s, p, 1);
    assert Pow256(1) == 256 && Pow256(4) == 0x1_0000_0000;
    WordRoundTrip(s, p + |one|, flag, 1);
    UvarintRoundTrip(s, p + |one| + 1, 2);
    WordRoundTrip(s, p + |one| + 1 + |two|, info.bucket, 4);
    UvarintRoundTrip(s, p + |one| + 1 + |two| + 4, 0);
  }

  lemma Counts(b: Block)
    requires SoundBlock(b)
    ensures b.info.bucket < 0x1_0000_0000 && |b.columns| < TWO_64 && RowCount(b.columns) < TWO_64
  {
    hide SoundNamed;
  }

  /** Where the parts of a written block stand. */
  lemma HeadParts(b: Block, s: bytes, p: nat)
    requires SoundBlock(b) && Holds(s, p, Write(b))
    ensures var info, n, rows := WriteInfo(b.info), Leb128(|b.columns|), Leb128(RowCount(b.columns));
            var p1 := p + |info|;
            var p2 := p1 + |n|;
            var p3 := p2 + |rows|;
            && Holds(s, p, info) && Holds(s, p1, n) && Holds(s, p2, rows) && Holds(s, p3, WriteColumns(b.columns))
            && p3 + |WriteColumns(b.columns)| == p + |Write(b)| <= |s|
  {
    hide Leb128, WriteInfo, WriteColumns, Holds, SoundNamed, ViewLength;
    var info, n, rows := WriteInfo(b.info), Leb128(|b.columns|), Leb128(RowCount(b.columns));
    var body := WriteColumns(b.columns);
    HoldsSplit(s, p, info, n + (rows + body));
    HoldsSplit(s, p + |info|, n, rows + body);
    HoldsSplit(s, p + |info| + |n|, rows, body);
    HoldsInside(s, p, Write(b));
  }

  /** A written block has at least one byte. */
  lemma WriteSome(b: Block)
    requires SoundBlock(b)
    ensures |Write(b)| > 0
  {
    hide WriteColumns, SoundBlock;
  }

  lemma RawLoadStep(s: bytes, p: nat, info: BlockInfo, p1: nat, n: u64, p2: nat, rows: u64, p3: nat)
    requires p <= |s| && ReadInfo(s, p) == Ok(info, p1) && p1 <= |s| && Uvarint(s, p1) == Ok(n, p2)
    requires p2 <= |s| && Uvarint(s, p2) == Ok(rows, p3) && p3 <= |s|
    ensures RawLoad(s, p) == match ReadColumns(s, p3, n, rows, [])
                             case Ok(columns, end) => Ok(Block(info, columns), end)
                             case More => More
                             case Err(e) => Err(e)
  {
    hide ReadInfo, Uvarint, ReadColumns;
  }

  /** `raw_load` over a written head: what is left is the loop over the columns. */
  lemma HeadLoads(b: Block, s: bytes, p: nat)
    requires SoundBlock(b) && Holds(s, p, Write(b))
    ensures var q := p + |WriteInfo(b.info)| + |Leb128(|b.columns|)| + |Leb128(RowCount(b.columns))|;
            && q <= |s| && q + |WriteColumns(b.columns)| == p + |Write(b)|
            && Holds(s, q, WriteColumns(b.columns))
            && RawLoad(s, p) == match ReadColumns(s, q, |b.columns|, RowCount(b.columns), [])
                                case Ok(columns, end) => Ok(Block(WireInfo(b.info), columns), end)
                                case More => More
                                case Err(e) => Err(e)
  {
    hide RawLoad, Write, Uvarint, Leb128, ReadColumns, WriteInfo, WriteColumns, Holds, WireInfo, SoundBlock, RowCount;
    Counts(b);
    HeadParts(b, s, p);
    var n, rows := |b.columns|, RowCount(b.columns);
    var p1 := p + |WriteInfo(b.info)|;
    var p2 := p1 + |Leb128(n)|;
    InfoLoads(b.info, s, p);
    UvarintRoundTrip(s, p1, n);
    UvarintRoundTrip(s, p2, rows);
    RawLoadStep(s, p, WireInfo(b.info), p1, n, p2, rows, p2 + |Leb128(rows)|);
  }

  /** A written block with printable types loads, followed by anything, as its columns' saved rows, and
      exactly the written bytes are consumed. */
  lemma BlockLoads(b: Block, s: bytes, p: nat)
    requires SoundBlock(b) && AllPrintable(b.columns) && Holds(s, p, Write(b))
    ensures RawLoad(s, p) == Ok(Block(WireInfo(b.info), AsLoaded(b.columns)), p + |Write(b)|)
  {
    hide RawLoad, Write, WriteColumns, ReadColumns, AllPrintable, WireInfo;
    HeadLoads(b, s, p);
    var q := p + |WriteInfo(b.info)| + |Leb128(|b.columns|)| + |Leb128(RowCount(b.columns))|;
    ColumnsLoad(b.columns, s, q, RowCount(b.columns), []);
    assert [] + AsLoaded(b.columns) == AsLoaded(b.columns);
  }

  ghost predicate AllPlain(columns: seq<NamedColumn>) {
    forall i | 0 <= i < |columns| :: columns[i].data.Plain?
  }

  lemma PlainLoadedAs(columns: seq<NamedColumn>)
    requires AllSound(columns) && AllPlain(columns)
    ensures AsLoaded(columns) == columns
  {
    forall i | 0 <= i < |columns| ensures AsLoaded(columns)[i] == columns[i] {
      ImageWhole(columns[i].data.column);
    }
  }

  /** The round trip: a block of stored columns comes back with the same names, types and contents
      exactly when all its types are printable. */
  lemma BlockRoundTrip(b: Block, s: bytes, p: nat)
    requires SoundBlock(b) && AllPlain(b.columns) && Holds(s, p, Write(b))
    ensures RawLoad(s, p) == Ok(Block(WireInfo(b.info), b.columns), p + |Write(b)|) <==> AllPrintable(b.columns)
  {
    hide RawLoad, Write, WriteColumns, ReadColumns, WireInfo, Printable, SoundNamed, ViewType;
    if AllPrintable(b.columns) {
      BlockLoads(b, s, p);
      PlainLoadedAs(b.columns);
    }
    if RawLoad(s, p) == Ok(Block(WireInfo(b.info), b.columns), p + |Write(b)|) {
      HeadLoads(b, s, p);
      var q := p + |WriteInfo(b.info)| + |Leb128(|b.columns|)| + |Leb128(RowCount(b.columns))|;
      assert b.columns[0..] == b.columns;
      ColumnsExact(b.columns, s, q, RowCount(b.columns), []);
    }
  }
}
