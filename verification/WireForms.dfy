/** The forms of the wire, spelled out in bytes and numbers. */
module WireForms {
  import opened Basics
  import opened Text
  import opened Varint
  import opened Decoders
  import opened TypeNames
  import opened TypeNameRoundTrip
  import opened Columns
  import opened ColumnRoundTrip
  import opened Views
  import opened Blocks
  import opened BlockRoundTrip
  import opened Compressed
  import opened CompressedRoundTrip
  import opened NameForms

  // ---------- words ----------

  /** Two, four and eight bytes, the lowest first. */
  function Two(x: nat): bytes { [x % 256, x / 256 % 256] }

  function Four(x: nat): bytes { [x % 256, x / 256 % 256, x / 0x1_0000 % 256, x / 0x100_0000 % 256] }

  function Eight(x: nat): bytes { Four(x) + Four(x / 0x1_0000_0000) }

  function Sixteen(x: nat): bytes { Eight(x) + Eight(x / 0x1_0000_0000_0000_0000) }

  function Quotient(x: nat, m: nat): nat
    requires m > 0
  {
    x / m
  }

  lemma {:induction false} WordSplits(x: nat, v: nat, w: nat, m: nat)
    requires m > 0 && m == Pow256(v)
    ensures ToLittleEndian(x, v + w) == ToLittleEndian(x, v) + ToLittleEndian(Quotient(x, m), w)
    decreases v
  {
    if v == 0 {
      assert x / 1 == x;
    } else {
      var n := Pow256(v - 1);
      hide Pow256, ToLittleEndian;
      WordSplits(x / 256, v - 1, w, n);
      DivideAgain(x, n);
      FirstByte(x, v + w);
      FirstByte(x, v);
    }
  }

  lemma FirstByte(x: nat, w: nat)
    requires w > 0
    ensures ToLittleEndian(x, w) == [x % 256] + ToLittleEndian(x / 256, w - 1)
  {
  }

  lemma DivideAgain(x: nat, m: nat)
    requires m > 0
    ensures x / 256 / m == x / (256 * m)
  {
    var q, r := x / 256 / m, x / 256 % m;
    assert x / 256 == q * m + r;
    var b := x % 256;
    assert x == 256 * (q * m + r) + b == q * (256 * m) + (256 * r + b);
    assert 256 * r + b < 256 * m;
    QuotientIs(x, 256 * m, q, 256 * r + b);
  }

  lemma QuotientIs(a: nat, b: nat, q: nat, r: nat)
    requires b > 0 && a == q * b + r && r < b
    ensures a / b == q
  {
    var k := a / b - q;
    assert a / b * b + a % b == a;
    assert k * b == a / b * b - q * b;
    if k > 0 { ProductGrows(k, b); }
    if k < 0 { ProductGrows(-k, b); }
  }

  lemma SmallPowers()
    ensures Pow256(1) == 256 && Pow256(2) == 0x1_0000 && Pow256(4) == 0x1_0000_0000
    ensures Pow256(8) == 0x1_0000_0000_0000_0000
    ensures Pow256(16) == 0x1_0000_0000_0000_0000_0000_0000_0000_0000
  {
    assert Pow256(6) == 0x1_0000 * Pow256(4);
    assert Pow256(8) == 0x1_0000 * Pow256(6);
    assert Pow256(12) == 0x1_0000_0000 * Pow256(8);
    assert Pow256(16) == 0x1_0000_0000 * Pow256(12);
  }

  lemma TwoBytes(x: nat)
    ensures ToLittleEndian(x, 2) == Two(x)
  {
  }

  lemma FourBytes(x: nat)
    ensures ToLittleEndian(x, 4) == Four(x)
  {
    hide ToLittleEndian;
    SmallPowers();
    WordSplits(x, 2, 2, 0x1_0000);
    TwoBytes(x);
    TwoBytes(x / 0x1_0000);
    assert x / 0x1_0000 / 256 == x / 0x100_0000;
  }

  lemma EightBytes(x: nat)
    ensures ToLittleEndian(x, 8) == Eight(x)
  {
    hide ToLittleEndian, Four, Pow256;
    SmallPowers();
    WordSplits(x, 4, 4, 0x1_0000_0000);
    FourBytes(x);
    FourBytes(x / 0x1_0000_0000);
  }

  lemma SixteenBytes(x: nat)
    ensures ToLittleEndian(x, 16) == Sixteen(x)
  {
    hide ToLittleEndian, Eight, Pow256;
    SmallPowers();
    WordSplits(x, 8, 8, 0x1_0000_0000_0000_0000);
    EightBytes(x);
    EightBytes(x / 0x1_0000_0000_0000_0000);
  }

  /** A number below 128 is one byte; below 16384 it is two, the low seven bits first. */
  lemma SmallNumbers(x: u64)
    ensures x < 128 ==> Leb128(x) == [x]
    ensures 128 <= x < 16384 ==> Leb128(x) == [128 + x % 128, x / 128]
  {
  }

  // ---------- columns of numbers ----------

  /** How many bytes a row of the type takes. */
  ghost predicate HasSize(prim: Prim, k: nat) {
    || (k == 1 && (prim.UInt8? || prim.Int8?))
    || (k == 2 && (prim.UInt16? || prim.Int16? || prim.Date?))
    || (k == 4 && (prim.UInt32? || prim.Int32? || prim.Float32? || prim.DateTime? || prim.IPv4?))
    || (k == 8 && (prim.UInt64? || prim.Int64? || prim.Float64?))
    || (k == 16 && (prim.IPv6? || prim.UUID?))
  }

  predicate WordSize(k: nat) { k == 1 || k == 2 || k == 4 || k == 8 || k == 16 }

  function Form(x: nat, k: nat): bytes
    requires WordSize(k)
  {
    if k == 1 then [x % 256] else if k == 2 then Two(x) else if k == 4 then Four(x)
    else if k == 8 then Eight(x) else Sixteen(x)
  }

  /** One more than the largest word of so many bytes. */
  function Bound(k: nat): nat
    requires WordSize(k)
  {
    if k == 1 then 0x100 else if k == 2 then 0x1_0000 else if k == 4 then 0x1_0000_0000
    else if k == 8 then 0x1_0000_0000_0000_0000 else 0x1_0000_0000_0000_0000_0000_0000_0000_0000
  }

  lemma Formed(x: nat, k: nat)
    requires WordSize(k)
    ensures ToLittleEndian(x, k) == Form(x, k) && Pow256(k) == Bound(k) && Pack([x], k) == Form(x, k)
  {
    SmallPowers();
    OneWord(x, k);
    hide Pow256, ToLittleEndian, Pack, Four, Eight;
    if k == 1 {
      LastByte(x);
    } else if k == 2 {
      TwoBytes(x);
    } else if k == 4 {
      FourBytes(x);
    } else if k == 8 {
      EightBytes(x);
    } else {
      SixteenBytes(x);
    }
  }

  lemma LastByte(x: nat)
    ensures ToLittleEndian(x, 1) == [x % 256]
  {
  }

  lemma OneWord(x: nat, k: nat)
    ensures Pack([x], k) == ToLittleEndian(x, k)
  {
    hide ToLittleEndian;
    assert Pack([x], k) == ToLittleEndian(x, k) + Pack([], k);
  }

  lemma SizeIsWidth(prim: Prim, k: nat)
    requires HasSize(prim, k)
    ensures WordSize(k) && Width(prim) == k
  {
  }

  /** Every row is so many bytes, and these bytes. */
  ghost predicate SavedAs(c: Column, words: seq<nat>, k: nat)
    requires Sound(c) && Length(c) == |words| && WordSize(k)
  {
    && (forall i | 0 <= i < |words| :: Save(c, i, i + 1) == Form(words[i], k))
    && (forall a: nat, b: nat | a <= b <= |words| :: |Save(c, a, b)| == (b - a) * k)
  }

  lemma NumbersOnWire(prim: Prim, k: nat, words: seq<nat>)
    requires HasSize(prim, k)
    ensures WordSize(k)
    ensures Sound(Numbers(prim, words)) <==> forall i | 0 <= i < |words| :: words[i] < Bound(k)
    ensures Sound(Numbers(prim, words)) ==> SavedAs(Numbers(prim, words), words, k)
  {
    hide Pack, Form, Pow256, Width;
    SizeIsWidth(prim, k);
    Formed(0, k);
    var c := Numbers(prim, words);
    if Sound(c) {
      forall i | 0 <= i < |words| ensures Save(c, i, i + 1) == Form(words[i], k) {
        assert words[i..i + 1] == [words[i]];
        Formed(words[i], k);
      }
    }
  }

  /** Loading takes exactly these bytes, or waits for them. */
  lemma NumbersLoaded(prim: Prim, k: nat, s: bytes, p: nat, n: nat)
    requires HasSize(prim, k) && p <= |s|
    ensures var d := Load(s, p, Print(Scalar(prim)), n);
            if p + n * k <= |s| then d.Ok? && d.pos == p + n * k && TypeOfColumn(d.value) == Scalar(prim) else d == More
  {
    hide Load, Print, ShapeOf, Width, Unpack;
    SizeIsWidth(prim, k);
    PrintedShape(Scalar(prim));
    LoadOther(s, p, Print(Scalar(prim)), n);
  }

  // ---------- decimals and enums ----------

  /** The two's complement reading of a word of four or eight bytes, and of one or two. */
  function Reading(x: nat, k: nat): int
    requires WordSize(k)
  {
    if x < Bound(k) / 2 then x else x - Bound(k)
  }

  ghost predicate DecimalSize(precision: byte, k: nat) {
    (k == 4 && precision <= 9) || (k == 8 && 10 <= precision <= 18)
  }

  lemma DecimalsOnWire(shape: DecimalShape, k: nat, words: seq<nat>)
    requires DecimalSize(shape.precision, k) && Sound(Decimals(shape, words))
    ensures WordSize(k) && SavedAs(Decimals(shape, words), words, k)
    ensures forall i | 0 <= i < |words| ::
              words[i] < Bound(k) && At(Decimals(shape, words), i) == DecimalCell(shape, Reading(words[i], k))
  {
    hide Pack, Form, Pow256;
    Formed(0, k);
    var c := Decimals(shape, words);
    forall i | 0 <= i < |words| ensures Save(c, i, i + 1) == Form(words[i], k) {
      assert words[i..i + 1] == [words[i]];
      Formed(words[i], k);
    }
  }

  lemma DecimalsLoaded(precision: byte, scale: byte, k: nat, s: bytes, p: nat, n: nat)
    requires DecimalSize(precision, k) && scale <= precision && p <= |s|
    ensures var d := Load(s, p, Print(SqlType.Decimal(precision, scale)), n);
            if p + n * k <= |s|
            then d.Ok? && d.pos == p + n * k && TypeOfColumn(d.value) == SqlType.Decimal(precision, scale)
            else d == More
  {
    hide Load, Print, ShapeOf, Unpack;
    PrintedShape(SqlType.Decimal(precision, scale));
    LoadOther(s, p, Print(SqlType.Decimal(precision, scale)), n);
  }

  ghost predicate ItemSize(size: EnumSize, k: nat) { (k == 1 && size.E8?) || (k == 2 && size.E16?) }

  lemma EnumsOnWire(size: EnumSize, items: seq<Item>, k: nat, words: seq<nat>)
    requires ItemSize(size, k) && Sound(Enums(size, items, words))
    ensures WordSize(k) && SavedAs(Enums(size, items, words), words, k)
    ensures forall i | 0 <= i < |words| ::
              words[i] < Bound(k) && At(Enums(size, items, words), i) == EnumCell(size, items, Reading(words[i], k))
  {
    hide Pack, Form, Pow256, WellTyped;
    Formed(0, k);
    var c := Enums(size, items, words);
    forall i | 0 <= i < |words| ensures Save(c, i, i + 1) == Form(words[i], k) {
      assert words[i..i + 1] == [words[i]];
      Formed(words[i], k);
    }
  }

  lemma EnumsLoaded(size: EnumSize, items: seq<Item>, k: nat, s: bytes, p: nat, n: nat)
    requires ItemSize(size, k) && WellTyped(Enum(size, items)) && Printable(Enum(size, items)) && p <= |s|
    ensures var d := Load(s, p, Print(Enum(size, items)), n);
            if p + n * k <= |s| then d.Ok? && d.pos == p + n * k && TypeOfColumn(d.value) == Enum(size, items)
            else d == More
  {
    hide Load, Print, ShapeOf, Unpack, WellTyped, Clean;
    PrintedShape(Enum(size, items));
    LoadOther(s, p, Print(Enum(size, items)), n);
  }

  // ---------- nulls ----------

  /** A flag of 1 is a null, a flag of 0 is not; the flags come before the values. */
  lemma NullsOnWire()
    ensures var c := Nullables([1, 0], Numbers(UInt8, [7, 8]));
            && Sound(c) && At(c, 0) == Null(Scalar(UInt8)) && At(c, 1) == Present(Number(UInt8, 8))
            && Save(c, 0, 2) == [1, 0, 7, 8]
  {
    SmallPowers();
    var inner := Numbers(UInt8, [7, 8]);
    assert Save(inner, 0, 2) == [7, 8] by {
      assert [7, 8][0..2] == [7, 8] && [7, 8][1..] == [8];
      LastByte(7);
      LastByte(8);
    }
    assert [1, 0][0..2] == [1, 0];
  }

  lemma {:induction false} SmallBytes(b: bytes)
    ensures Pack(b, 1) == b
    decreases |b|
  {
    hide ToLittleEndian;
    if |b| > 0 {
      SmallBytes(b[1..]);
      LastByte(b[0]);
    }
  }

  lemma TwoWords(x: nat, y: nat)
    ensures Pack([x, y], 8) == Eight(x) + Eight(y)
  {
    hide ToLittleEndian, Eight;
    EightBytes(x);
    EightBytes(y);
    assert [x, y][1..] == [y];
    OneWord(y, 8);
    assert Pack([x, y], 8) == ToLittleEndian(x, 8) + Pack([y], 8);
  }

  lemma ArraySaved(offsets: seq<nat>, inner: Column)
    requires Sound(Arrays(offsets, inner)) && |offsets| > 0
    ensures Save(Arrays(offsets, inner), 0, |offsets|) == Pack(offsets, 8) + Save(inner, 0, Length(inner))
  {
    hide Pack, Fit;
    assert offsets[0..|offsets|] == offsets;
  }

  lemma BytesSaved(words: seq<nat>)
    requires forall i | 0 <= i < |words| :: words[i] < 256
    ensures var c := Numbers(UInt8, words); Sound(c) && Save(c, 0, |words|) == words
  {
    hide Pack;
    SmallPowers();
    SmallBytes(words);
    assert words[0..|words|] == words;
  }

  lemma ThreeElements()
    ensures Sound(Arrays([2, 3], Numbers(UInt8, [7, 8, 9])))
  {
    SmallPowers();
    hide Pow256;
  }

  /** An array column writes where each array ends, as words of eight bytes, and then all elements. */
  lemma ArraysOnWire()
    ensures var c := Arrays([2, 3], Numbers(UInt8, [7, 8, 9]));
            && Sound(c)
            && Save(c, 0, 2) == [2, 0, 0, 0, 0, 0, 0, 0, 3, 0, 0, 0, 0, 0, 0, 0, 7, 8, 9]
  {
    hide Save, Sound, Pack;
    ThreeElements();
    ArraySaved([2, 3], Numbers(UInt8, [7, 8, 9]));
    TwoWords(2, 3);
    BytesSaved([7, 8, 9]);
  }

  /** A row of an array column shows the elements between the ends. */
  lemma ElementsShown()
    ensures var c := Arrays([2, 3], Numbers(UInt8, [7, 8, 9]));
            && Sound(c)
            && At(c, 0) == ArrayCell(Scalar(UInt8), [Number(UInt8, 7), Number(UInt8, 8)])
            && At(c, 1) == ArrayCell(Scalar(UInt8), [Number(UInt8, 9)])
  {
    hide Sound, Rows;
    ThreeElements();
    BytesSaved([7, 8, 9]);
    var inner := Numbers(UInt8, [7, 8, 9]);
    var first, second := Rows(inner, 0, 2), Rows(inner, 2, 3);
    assert first[0] == At(inner, 0 + 0) && first[1] == At(inner, 0 + 1) && second[0] == At(inner, 2 + 0);
    assert first == [Number(UInt8, 7), Number(UInt8, 8)] && second == [Number(UInt8, 9)];
  }

  // ---------- texts ----------

  /** Strings with their lengths; fixed strings one after the other. */
  lemma TextsOnWire()
    ensures var c := Strings([[0x61, 0x62], []]);
            Sound(c) && Save(c, 0, 2) == [2, 0x61, 0x62, 0] && At(c, 0) == Text([0x61, 0x62]) && At(c, 1) == Text([])
    ensures var c := FixedStrings(2, [0x61, 0x62, 0x63, 0]);
            && Sound(c) && Length(c) == 2 && Save(c, 1, 2) == [0x63, 0] && Save(c, 0, 2) == [0x61, 0x62, 0x63, 0]
            && At(c, 0) == Text([0x61, 0x62]) && At(c, 1) == Text([0x63, 0])
  {
    hide EncodeBlob;
    ShortBlob([0x61, 0x62]);
    ShortBlob([]);
    assert [[0x61, 0x62], []][0..2] == [[0x61, 0x62], []] && [[0x61, 0x62], []][1..] == [[]];
    assert EncodeBlobs([[]]) == EncodeBlob([]) + EncodeBlobs([]);
  }

  // ---------- names that are refused ----------

  /** An unknown name is an error that says so, as it was given. */
  lemma UnknownName(head: bytes, inner: bytes, s: bytes, p: nat, n: nat)
    requires p <= |s| && |head| > 0 && 0x20 < head[0] < 0x80 && head[0] !in {0x41, 0x44, 0x45, 0x46, 0x4E}
    ensures Load(s, p, Call(head, inner), n) == Err(UnsupportedType(Call(head, inner)))
  {
    hide ShapeOf, Call;
    UnknownCall(head, inner);
  }

  /** A name that ends with its head makes the parser slice out of bounds. */
  lemma BareHead(s: bytes, p: nat, n: nat)
    requires p <= |s|
    ensures Load(s, p, Letters("Nullable"), n) == Err(Panic(BadSlice))
    ensures Load(s, p, Letters("FixedString"), n) == Err(Panic(BadSlice))
    ensures Load(s, p, Letters("Array"), n) == Err(Panic(BadSlice))
  {
    hide ShapeOf;
    BareNullable();
    BareFixedString();
    BareArray();
  }

  // ---------- a whole block ----------

  lemma OneColumnSound(b: Block, c: NamedColumn)
    requires b.columns == [c] && SoundNamed(c) && RowCount(b.columns) < 128 && b.info.bucket < 0x1_0000_0000
    ensures SoundBlock(b)
  {
    hide SoundNamed, ViewLength;
    assert forall i | 0 <= i < |b.columns| :: b.columns[i] == c;
  }

  lemma OneColumnWritten(b: Block, c: NamedColumn)
    requires SoundBlock(b) && b.columns == [c] && SoundNamed(c) && RowCount(b.columns) < 128
    ensures Write(b) == WriteInfo(b.info) + ([1] + ([RowCount(b.columns)] + WriteColumn(c)))
  {
    hide WriteColumn, WriteInfo, SoundNamed, ViewLength;
    assert [c][1..] == [] && WriteColumns([c]) == WriteColumn(c) + WriteColumns([]);
    assert WriteColumn(c) + [] == WriteColumn(c);
  }

  /** A block with one column `abc` of two `UInt32`: the flags of the block, one column, two rows; name, type and
      words. */
  lemma BlockOnWire()
    ensures var b := Block(DEFAULT_INFO, [NamedColumn([0x61, 0x62, 0x63], Plain(Numbers(UInt32, [7, 258])))]);
            SoundBlock(b)
            && Write(b) == [1, 0, 2, 255, 255, 255, 255, 0]
                           + ([1] + ([2] + ([3, 0x61, 0x62, 0x63]
                                            + ([6, 0x55, 0x49, 0x6E, 0x74, 0x33, 0x32] + [7, 0, 0, 0, 2, 1, 0, 0]))))
  {
    var column := NamedColumn([0x61, 0x62, 0x63], Plain(Numbers(UInt32, [7, 258])));
    hide Write, WriteColumn, WriteInfo, SoundNamed, SoundBlock, ViewLength;
    ColumnOnWire(column);
    InfoOnWire();
    var b := Block(DEFAULT_INFO, [column]);
    OneColumnSound(b, column);
    OneColumnWritten(b, column);
  }

  lemma InfoOnWire()
    ensures WriteInfo(DEFAULT_INFO) == [1, 0, 2, 255, 255, 255, 255, 0]
  {
    hide ToLittleEndian;
    FourBytes(0xFFFF_FFFF);
    LastByte(0);
    assert Leb128(0) == [0] && Leb128(1) == [1] && Leb128(2) == [2];
  }

  lemma TypeOnWire()
    ensures Print(Scalar(UInt32)) == [0x55, 0x49, 0x6E, 0x74, 0x33, 0x32]
  {
  }

  lemma ShortBlob(b: bytes)
    requires |b| < 128
    ensures EncodeBlob(b) == [|b|] + b
  {
  }

  lemma TwoRows(x: nat, y: nat)
    requires Sound(Numbers(UInt32, [x, y]))
    ensures Save(Numbers(UInt32, [x, y]), 0, 2) == Four(x) + Four(y)
  {
    hide ToLittleEndian, Four;
    assert [x, y][0..2] == [x, y] && [x, y][1..] == [y];
    FourBytes(x);
    FourBytes(y);
    OneWord(y, 4);
    assert Pack([x, y], 4) == ToLittleEndian(x, 4) + Pack([y], 4);
  }

  lemma ShortColumn(name: bytes, c: Column)
    requires Utf8(name) && |name| < 128 && Sound(c) && c.Numbers? && |Print(TypeOfColumn(c))| < 128
    ensures var n := NamedColumn(name, Plain(c));
            && SoundNamed(n) && ViewLength(n.data) == Length(c)
            && WriteColumn(n) == [|name|] + name + ([|Print(TypeOfColumn(c))|] + Print(TypeOfColumn(c))
                                                    + Save(c, 0, Length(c)))
  {
    hide Save, Print, Utf8, EncodeBlob, Pow256, Width;
    ShortBlob(name);
    ShortBlob(Print(TypeOfColumn(c)));
  }

  lemma ColumnOnWire(column: NamedColumn)
    requires column == NamedColumn([0x61, 0x62, 0x63], Plain(Numbers(UInt32, [7, 258])))
    ensures SoundNamed(column) && ViewLength(column.data) == 2
    ensures WriteColumn(column)
         == [3, 0x61, 0x62, 0x63] + ([6, 0x55, 0x49, 0x6E, 0x74, 0x33, 0x32] + [7, 0, 0, 0, 2, 1, 0, 0])
  {
    hide Save, Print, Utf8, Sound, WriteColumn, SoundNamed;
    AsciiIsUtf8([0x61, 0x62, 0x63]);
    NumbersOnWire(UInt32, 4, [7, 258]);
    TwoRows(7, 258);
    TypeOnWire();
    ShortColumn([0x61, 0x62, 0x63], Numbers(UInt32, [7, 258]));
  }

  // ---------- a frame ----------

  /** A frame: two words of hash over all that follows, the method, the size with nine bytes of head, the unpacked size,
      and the packed data. */
  lemma FrameOnWire(codec: Codec, data: bytes)
    ensures var packed := codec.deflate(data);
            var body := [0x82] + (Four(9 + |packed|) + (Four(|data|) + packed));
            WriteFrame(codec, data) == Eight(codec.cityHash(body).0) + (Eight(codec.cityHash(body).1) + body)
  {
    hide ToLittleEndian, Four, Eight;
    var packed := codec.deflate(data);
    FourBytes(9 + |packed|);
    FourBytes(|data|);
    var body := [0x82] + (Four(9 + |packed|) + (Four(|data|) + packed));
    assert FrameBody(codec, data) == body;
    EightBytes(codec.cityHash(body).0);
    EightBytes(codec.cityHash(body).1);
  }
}
