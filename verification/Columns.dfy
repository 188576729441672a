/** Stored columns: what they hold, the cells they show, the bytes they save as and load from. */
module Columns {
  import opened Basics
  import opened Decoders
  import opened TypeNames
  import opened TypeNameRoundTrip

  /** The column data `load_data` and `from_type` make. Numbers are kept as the unsigned
      words their memory spells. */
  datatype Column =
    | Numbers(prim: Prim, words: seq<nat>)
    | Strings(cells: seq<bytes>)
    | FixedStrings(width: u64, buffer: bytes)
    | Decimals(shape: DecimalShape, words: seq<nat>)
    | Enums(size: EnumSize, items: seq<Item>, words: seq<nat>)
    | Nullables(nulls: bytes, inner: Column)
    | Arrays(offsets: seq<nat>, inner: Column)

  /** What `at` shows of one row. */
  datatype Cell =
    | Number(prim: Prim, word: nat)
    | Text(text: bytes)
    | DecimalCell(shape: DecimalShape, underlying: int)
    | EnumCell(size: EnumSize, items: seq<Item>, value: int)
    | Null(inner: SqlType)
    | Present(cell: Cell)
    | ArrayCell(inner: SqlType, cells: seq<Cell>)

  function Width(prim: Prim): (w: nat)
    ensures w > 0
  {
    match prim
    case UInt8 => 1 case UInt16 => 2 case UInt32 => 4 case UInt64 => 8
    case Int8 => 1 case Int16 => 2 case Int32 => 4 case Int64 => 8
    case Float32 => 4 case Float64 => 8
    case Date => 2 case DateTime => 4
    case IPv4 => 4 case IPv6 => 16 case UUID => 16
  }

  function DecimalWidth(nobits: NoBits): (w: nat)
    ensures w > 0
  {
    if nobits == N32 then 4 else 8
  }

  function EnumWidth(size: EnumSize): (w: nat)
    ensures w > 0
  {
    if size == E8 then 1 else 2
  }

  /** The two's complement reading of a `w`-byte word. */
  function Signed(word: nat, w: nat): int {
    if 2 * word < Pow256(w) then word else word - Pow256(w)
  }

  function TypeOfColumn(c: Column): SqlType {
    match c
    case Numbers(prim, _) => Scalar(prim)
    case Strings(_) => String
    case FixedStrings(width, _) => FixedString(width)
    case Decimals(shape, _) => Decimal(shape.precision, shape.scale)
    case Enums(size, items, _) => Enum(size, items)
    case Nullables(_, inner) => Nullable(TypeOfColumn(inner))
    case Arrays(_, inner) => Array(TypeOfColumn(inner))
  }

  /** `len()` divides by the width of a fixed string, and compares the flags of a nullable
      column with its rows; the ways it panics. */
  predicate LengthPanics(c: Column) {
    match c
    case FixedStrings(width, _) => width == 0
    case Nullables(nulls, inner) => LengthPanics(inner) || |nulls| != Length(inner)
    case _ => false
  }

  function LengthPanic(c: Column): Cause
    requires LengthPanics(c)
  {
    match c
    case FixedStrings(_, _) => DivideByZero
    case Nullables(_, inner) => if LengthPanics(inner) then LengthPanic(inner) else UnequalFlags
  }

  function Length(c: Column): nat {
    match c
    case Numbers(_, words) => |words|
    case Strings(cells) => |cells|
    case FixedStrings(width, buffer) => if width == 0 then 0 else |buffer| / width
    case Decimals(_, words) => |words|
    case Enums(_, _, words) => |words|
    case Nullables(_, inner) => Length(inner)
    case Arrays(offsets, _) => |offsets|
  }

  ghost predicate Rising(offsets: seq<nat>) {
    forall i, j | 0 <= i < j < |offsets| :: offsets[i] <= offsets[j]
  }

  /** Where the inner rows of the first `n` arrays end. */
  function EndOf(offsets: seq<nat>, n: nat): nat
    requires n <= |offsets|
  {
    if n == 0 then 0 else offsets[n - 1]
  }

  /** What the constructors and `push` keep true of a column. */
  ghost predicate Sound(c: Column) {
    match c
    case Numbers(prim, words) => Fit(words, Width(prim))
    case Strings(cells) => forall i | 0 <= i < |cells| :: |cells[i]| < TWO_64
    case FixedStrings(width, buffer) => width > 0 && |buffer| % width == 0
    case Decimals(shape, words) =>
      FromPrecision(shape.precision) == Some(shape.nobits) && Fit(words, DecimalWidth(shape.nobits))
    case Enums(size, items, words) => WellTyped(Enum(size, items)) && Fit(words, EnumWidth(size))
    case Nullables(nulls, inner) => Sound(inner) && |nulls| == Length(inner)
    case Arrays(offsets, inner) =>
      Sound(inner) && Rising(offsets) && Fit(offsets, 8) && EndOf(offsets, |offsets|) == Length(inner)
  }

  lemma {:induction false} SoundLength(c: Column)
    requires Sound(c)
    ensures !LengthPanics(c)
  {
    match c
    case Nullables(_, inner) => SoundLength(inner);
    case _ =>
  }

  /** `at`. A row past the end is the caller's fault. */
  function At(c: Column, i: nat): Cell
    requires Sound(c) && i < Length(c)
    decreases c, 1
  {
    match c
    case Numbers(prim, words) => Number(prim, words[i])
    case Strings(cells) => Text(cells[i])
    case FixedStrings(width, buffer) =>
      FixedSlice(width, |buffer|, i, i + 1);
      Text(buffer[i * width..(i + 1) * width])
    case Decimals(shape, words) => DecimalCell(shape, Signed(words[i], DecimalWidth(shape.nobits)))
    case Enums(size, items, words) => EnumCell(size, items, Signed(words[i], EnumWidth(size)))
    case Nullables(nulls, inner) => if nulls[i] == 1 then Null(TypeOfColumn(inner)) else Present(At(inner, i))
    case Arrays(offsets, inner) =>
      assert EndOf(offsets, i) <= offsets[i] <= Length(inner) by {
        assert i > 0 ==> offsets[i - 1] <= offsets[i];
      }
      ArrayCell(TypeOfColumn(inner), Rows(inner, EndOf(offsets, i), offsets[i]))
  }

  /** Rows `a` to `b - 1`, in order. */
  function Rows(c: Column, a: nat, b: nat): (r: seq<Cell>)
    requires Sound(c) && a <= b <= Length(c)
    ensures |r| == b - a
    ensures forall k | 0 <= k < b - a :: r[k] == At(c, a + k)
    decreases c, 2, b
  {
    if a == b then [] else Rows(c, a, b - 1) + [At(c, b - 1)]
  }

  lemma FixedSlice(width: nat, n: nat, a: nat, b: nat)
    requires width > 0 && n % width == 0 && a <= b <= n / width
    ensures a * width <= b * width <= n
    ensures b * width - a * width == (b - a) * width
    ensures (b - a) * width % width == 0 && (b - a) * width / width == b - a
    ensures b == n / width ==> b * width == n
  {
    var rows := n / width;
    assert n == rows * width;
    Scaled(a, b, width);
    Scaled(b, rows, width);
    Exact(b - a, width, (b - a) * width);
  }

  // ---------- saving ----------

  /** `save(start, end)`. An array column writes its offsets as they are and its inner rows from the
      very first. */
  function Save(c: Column, a: nat, b: nat): bytes
    requires Sound(c) && a <= b <= Length(c)
  {
    match c
    case Numbers(prim, words) => Pack(words[a..b], Width(prim))
    case Strings(cells) => EncodeBlobs(cells[a..b])
    case FixedStrings(width, buffer) => (FixedSlice(width, |buffer|, a, b); buffer[a * width..b * width])
    case Decimals(shape, words) => Pack(words[a..b], DecimalWidth(shape.nobits))
    case Enums(size, _, words) => Pack(words[a..b], EnumWidth(size))
    case Nullables(nulls, inner) => nulls[a..b] + Save(inner, a, b)
    case Arrays(offsets, inner) =>
      assert b > 0 ==> offsets[b - 1] <= EndOf(offsets, |offsets|);
      Pack(offsets[a..b], 8) + Save(inner, 0, if a == b then 0 else offsets[b - 1])
  }

  // ---------- loading ----------

  predicate IsLeaf(shape: Shape) { !shape.NullableShape? && !shape.ArrayShape? }

  /** Columns without an inner column. */
  function LoadLeaf(s: bytes, p: nat, name: bytes, shape: Shape, size: nat): (d: Dec<Column>)
    requires p <= |s| && IsLeaf(shape)
    ensures d.Ok? ==> p <= d.pos <= |s|
  {
    match shape
    case ScalarShape(prim) =>
      var (words, q) :- Words(s, p, size, Width(prim));
      Ok(Numbers(prim, words), q)
    case StringShape =>
      var (cells, q) :- Blobs(s, p, size);
      Ok(Strings(cells), q)
    case FixedShape(width) =>
      var (buffer, q) :- Bytes(s, p, size * width);
      Ok(FixedStrings(width, buffer), q)
    case DecShape(decimal) =>
      var (words, q) :- Words(s, p, size, DecimalWidth(decimal.nobits));
      Ok(Decimals(decimal, words), q)
    case EnumShape(esize, items) =>
      var (words, q) :- Words(s, p, size, EnumWidth(esize));
      Ok(Enums(esize, items, words), q)
    case UnknownShape => Err(UnsupportedType(name))
    case PanicShape => Err(Panic(BadSlice))
  }

  /** `load_data`: which bytes it takes for `size` rows of a named type. */
  function Load(s: bytes, p: nat, name: bytes, size: nat): (d: Dec<Column>)
    requires p <= |s|
    ensures d.Ok? ==> p <= d.pos <= |s|
    decreases |name|
  {
    match ShapeOf(name)
    case NullableShape(inner) =>
      var (nulls, q) :- Bytes(s, p, size);
      var (column, end) :- Load(s, q, inner, size);
      Ok(Nullables(nulls, column), end)
    case ArrayShape(inner) =>
      var (offsets, q) :- Words(s, p, size, 8);
      var (column, end) :- Load(s, q, inner, EndOf(offsets, |offsets|));
      Ok(Arrays(offsets, column), end)
    case leaf => LoadLeaf(s, p, name, leaf, size)
  }

  lemma LeafLocal(s: bytes, t: bytes, p: nat, name: bytes, shape: Shape, size: nat)
    requires p <= |s| && p <= |t| && IsLeaf(shape)
    requires Settled(LoadLeaf(s, p, name, shape, size), s, t)
    ensures LoadLeaf(t, p, name, shape, size) == LoadLeaf(s, p, name, shape, size)
  {
    hide Agree, Words, Bytes, Blobs, Width, DecimalWidth, EnumWidth;
    match shape
    case ScalarShape(prim) => WordsLocal(s, t, p, size, Width(prim));
    case StringShape => BlobsLocal(s, t, p, size);
    case FixedShape(width) => BytesLocal(s, t, p, size * width);
    case DecShape(decimal) => WordsLocal(s, t, p, size, DecimalWidth(decimal.nobits));
    case EnumShape(esize, items) => WordsLocal(s, t, p, size, EnumWidth(esize));
    case UnknownShape =>
    case PanicShape =>
  }

  lemma {:induction false} LoadLocal(s: bytes, t: bytes, p: nat, name: bytes, size: nat)
    requires p <= |s| && p <= |t|
    requires Settled(Load(s, p, name, size), s, t)
    ensures Load(t, p, name, size) == Load(s, p, name, size)
    decreases |name|
  {
    Shared(Load(s, p, name, size), s, t);
    hide Agree, ShapeOf, Words, Bytes, LoadLeaf;
    match ShapeOf(name)
    case NullableShape(inner) =>
      BytesLocal(s, t, p, size);
      if Bytes(s, p, size).Ok? {
        LoadLocal(s, t, Bytes(s, p, size).pos, inner, size);
      }
    case ArrayShape(inner) =>
      WordsLocal(s, t, p, size, 8);
      if Words(s, p, size, 8).Ok? {
        var offsets := Words(s, p, size, 8).value;
        LoadLocal(s, t, Words(s, p, size, 8).pos, inner, EndOf(offsets, |offsets|));
      }
    case leaf => LeafLocal(s, t, p, name, leaf, size);
  }

  /** A fixed string of width 0, in any depth of nullables: the one way a loaded column's `len()` panics. */
  predicate ZeroWidth(c: Column) {
    match c
    case FixedStrings(width, _) => width == 0
    case Nullables(_, inner) => ZeroWidth(inner)
    case _ => false
  }

  /** A loaded column has the type its name stands for, and `size` rows whenever its length can
      be taken at all. */
  lemma {:induction false} LoadedColumn(s: bytes, p: nat, name: bytes, size: nat)
    requires p <= |s| && Load(s, p, name, size).Ok?
    ensures var c := Load(s, p, name, size).value;
            && TypeOf(name) == Some(TypeOfColumn(c))
            && (LengthPanics(c) <==> ZeroWidth(c))
            && (ZeroWidth(c) || Length(c) == size)
    decreases |name|
  {
    hide ShapeOf, Words, Blobs;
    match ShapeOf(name)
    case ScalarShape(prim) => WordsShape(s, p, size, Width(prim));
    case StringShape =>
    case FixedShape(width) => if width > 0 { Exact(size, width, size * width); }
    case NullableShape(inner) => LoadedColumn(s, Bytes(s, p, size).pos, inner, size);
    case ArrayShape(inner) =>
      WordsShape(s, p, size, 8);
      var offsets := Words(s, p, size, 8).value;
      LoadedColumn(s, Words(s, p, size, 8).pos, inner, EndOf(offsets, |offsets|));
    case DecShape(shape) => WordsShape(s, p, size, DecimalWidth(shape.nobits));
    case EnumShape(esize, items) => WordsShape(s, p, size, EnumWidth(esize));
    case UnknownShape =>
    case PanicShape =>
  }

  // ---------- which loaded columns can be used ----------

  /** Array offsets that never fall and fixed strings with room, at every depth. */
  ghost predicate Ordered(c: Column) {
    match c
    case FixedStrings(width, _) => width > 0
    case Nullables(_, inner) => Ordered(inner)
    case Arrays(offsets, inner) => Rising(offsets) && Ordered(inner)
    case _ => true
  }

  lemma {:induction false} BlobsSmall(s: bytes, p: nat, n: nat)
    requires p <= |s| && Blobs(s, p, n).Ok?
    ensures forall i | 0 <= i < n :: |Blobs(s, p, n).value[i]| < TWO_64
    decreases n
  {
    if n > 0 {
      BlobsSmall(s, Blob(s, p).pos, n - 1);
    }
  }

  lemma LeafSound(s: bytes, p: nat, name: bytes, size: nat)
    requires p <= |s| && IsLeaf(ShapeOf(name)) && LoadLeaf(s, p, name, ShapeOf(name), size).Ok?
    ensures var c := LoadLeaf(s, p, name, ShapeOf(name), size).value; Sound(c) <==> Ordered(c)
  {
    hide ShapeOf, Words, Blobs, WellTyped, FromPrecision, Fit, Pow256;
    match ShapeOf(name)
    case ScalarShape(prim) => WordsShape(s, p, size, Width(prim));
    case StringShape => BlobsSmall(s, p, size);
    case FixedShape(width) => if width > 0 { Exact(size, width, size * width); }
    case DecShape(shape) =>
      DecimalNameGood(name);
      WordsShape(s, p, size, DecimalWidth(shape.nobits));
    case EnumShape(esize, items) =>
      EnumNameGood(name);
      WordsShape(s, p, size, EnumWidth(esize));
    case UnknownShape =>
    case PanicShape =>
  }

  /** A loaded column keeps what rows, iterators and `save` rest on if and only if its offsets never fall and its fixed
      strings have room. Loading checks neither. */
  lemma {:induction false} LoadedSound(s: bytes, p: nat, name: bytes, size: nat)
    requires p <= |s| && Load(s, p, name, size).Ok?
    ensures var c := Load(s, p, name, size).value; Sound(c) <==> Ordered(c)
    decreases |name|
  {
    LoadedColumn(s, p, name, size);
    hide ShapeOf, Words, Bytes, LoadLeaf, TypeOf, Fit, Rising, FromPrecision, WellTyped;
    match ShapeOf(name)
    case NullableShape(inner) =>
      var q := Bytes(s, p, size).pos;
      LoadedColumn(s, q, inner, size);
      LoadedSound(s, q, inner, size);
      if Sound(Load(s, q, inner, size).value) { RoomWhenSound(Load(s, q, inner, size).value); }
    case ArrayShape(inner) =>
      WordsShape(s, p, size, 8);
      var offsets, q := Words(s, p, size, 8).value, Words(s, p, size, 8).pos;
      LoadedColumn(s, q, inner, EndOf(offsets, |offsets|));
      LoadedSound(s, q, inner, EndOf(offsets, |offsets|));
      var column := Load(s, q, inner, EndOf(offsets, |offsets|)).value;
      if Sound(column) { RoomWhenSound(column); }
    case leaf => LeafSound(s, p, name, size);
  }

  lemma {:induction false} RoomWhenSound(c: Column)
    requires Sound(c)
    ensures !ZeroWidth(c)
  {
    match c
    case Nullables(_, inner) => RoomWhenSound(inner);
    case _ =>
  }

  /** Loading one column never complains of columns of different sizes, and a wish for more bytes is
      never an error. */
  lemma {:induction false} LoadErrors(s: bytes, p: nat, name: bytes, size: nat)
    requires p <= |s|
    ensures var d := Load(s, p, name, size);
            d.Err? ==> d.error != Panic(UnequalColumns) && d.error != WouldBlock
    decreases |name|
  {
    hide ShapeOf, Words, Blobs, Bytes;
    match ShapeOf(name)
    case NullableShape(inner) =>
      if Bytes(s, p, size).Ok? { LoadErrors(s, Bytes(s, p, size).pos, inner, size); }
    case ArrayShape(inner) =>
      if Words(s, p, size, 8).Ok? {
        var offsets := Words(s, p, size, 8).value;
        LoadErrors(s, Words(s, p, size, 8).pos, inner, EndOf(offsets, |offsets|));
      }
    case StringShape => BlobsErrors(s, p, size);
    case _ =>
  }
}
