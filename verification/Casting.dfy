/** Casting columns to the types of a header: the adapters, and the cells that come out of them. */
module Casting {
  import opened Basics
  import opened Text
  import opened TypeNames
  import opened TypeNameRoundTrip
  import opened Columns
  import opened Views
  import opened Decimals

  /** The adapter put around a column. */
  datatype Cast =
    | ToFixed(width: u64)
    | ToText
    | ToDecimal(shape: DecimalShape)
    | ToEnum(size: EnumSize, items: seq<Item>)
    | ToNullable(inner: Cast)

  function DecimalCast(precision: byte, scale: byte): Result<Cast> {
    match FromPrecision(precision)
    case None => Failure(Panic(NoneUnwrapped))
    case Some(nobits) => Success(ToDecimal(DecimalShape(precision, scale, nobits)))
  }

  function Around(inner: Result<Cast>): Result<Cast> {
    var cast :- inner;
    Success(ToNullable(cast))
  }

  /** The match of `Column::cast_to` on the two types, when they differ and no text is to be parsed as an address. */
  function CastFor(dst: SqlType, src: SqlType): Result<Cast> {
    match (dst, src)
    case (FixedString(n), String) => Success(ToFixed(n))
    case (Nullable(FixedString(n)), Nullable(String)) => Success(ToNullable(ToFixed(n)))
    case (String, Array(Scalar(UInt8))) => Success(ToText)
    case (FixedString(n), Array(Scalar(UInt8))) => Success(ToFixed(n))
    case (Decimal(p, s), Decimal(_, _)) => DecimalCast(p, s)
    case (Nullable(Decimal(p, s)), Nullable(Decimal(_, _))) => Around(DecimalCast(p, s))
    case (Enum(size, items), Enum(other, _)) =>
      if size == other then Success(ToEnum(size, items)) else Failure(InvalidType)
    case (Nullable(Enum(size, items)), Nullable(Enum(other, _))) =>
      if size == other then Success(ToNullable(ToEnum(size, items))) else Failure(InvalidType)
    case _ => Failure(InvalidType)
  }

  function TypeOfCast(cast: Cast): SqlType {
    match cast
    case ToFixed(n) => FixedString(n)
    case ToText => String
    case ToDecimal(shape) => SqlType.Decimal(shape.precision, shape.scale)
    case ToEnum(size, items) => Enum(size, items)
    case ToNullable(inner) => Nullable(TypeOfCast(inner))
  }

  // ---------- cells ----------

  ghost predicate HasType(cell: Cell, t: SqlType) {
    match t
    case Scalar(prim) => cell.Number? && cell.prim == prim && cell.word < Pow256(Width(prim))
    case String => cell.Text? && |cell.text| < TWO_64
    case FixedString(n) => cell.Text?
    case Decimal(p, s) =>
      cell.DecimalCell? && cell.shape.precision == p && cell.shape.scale == s && InI64(cell.underlying)
    case Enum(size, items) => cell.EnumCell? && cell.size == size
    case Nullable(inner) => cell.Null? || (cell.Present? && HasType(cell.cell, inner))
    case Array(inner) =>
      cell.ArrayCell? && cell.inner == inner && |cell.cells| < TWO_64 && forall c | c in cell.cells :: HasType(c, inner)
  }

  lemma PowerOfEight()
    ensures Pow256(8) == TWO_64
  {
    assert Pow256(4) == 0x1_0000_0000 && Pow256(8) == 0x1_0000_0000 * Pow256(4);
  }

  lemma SignedFits(word: nat, w: nat)
    requires word < Pow256(w) && w <= 8
    ensures InI64(Signed(word, w))
  {
    PowerOfEight();
    Pow256Rises(w, 8);
  }

  lemma {:induction false} Pow256Rises(i: nat, j: nat)
    requires i <= j
    ensures Pow256(i) <= Pow256(j)
  {
    if i < j { Pow256Rises(i, j - 1); }
  }

  lemma {:induction false} AtHasType(c: Column, i: nat)
    requires Sound(c) && i < Length(c)
    ensures HasType(At(c, i), TypeOfColumn(c))
    decreases c
  {
    hide Pow256, WellTyped, FromPrecision, Rows;
    match c
    case Numbers(prim, words) =>
    case Strings(cells) =>
    case FixedStrings(width, buffer) =>
    case Decimals(shape, words) => SignedFits(words[i], DecimalWidth(shape.nobits));
    case Enums(size, items, words) =>
    case Nullables(nulls, inner) => AtHasType(inner, i);
    case Arrays(offsets, inner) =>
      var a, b := EndOf(offsets, i), offsets[i];
      PowerOfEight();
      assert a <= b <= Length(inner) by { assert i > 0 ==> offsets[i - 1] <= offsets[i]; }
      forall k: nat | a <= k < b ensures HasType(At(inner, k), TypeOfColumn(inner)) {
        AtHasType(inner, k);
      }
      RowsHaveType(inner, a, b);
  }

  lemma RowsHaveType(c: Column, a: nat, b: nat)
    requires Sound(c) && a <= b <= Length(c)
    requires forall k: nat | a <= k < b :: HasType(At(c, k), TypeOfColumn(c))
    ensures forall cell | cell in Rows(c, a, b) :: HasType(cell, TypeOfColumn(c))
  {
    hide Sound, Length, At, HasType, Rows, TypeOfColumn;
    forall cell | cell in Rows(c, a, b) ensures HasType(cell, TypeOfColumn(c)) {
      var k: nat :| k < b - a && Rows(c, a, b)[k] == cell;
      assert Rows(c, a, b)[k] == At(c, a + k);
    }
  }

  lemma {:induction false} ViewAtHasType(v: View, i: nat)
    requires SoundView(v) && i < ViewLength(v)
    ensures HasType(ViewAt(v, i), ViewType(v))
  {
    hide Sound, Length, At, HasType, TypeOfColumn;
    match v
    case Plain(column) => AtHasType(column, i);
    case Chunk(data, from, _) => ViewAtHasType(data, from + i);
    case Joined(parts, index) =>
      var k := PartOf(index, i);
      SumsStep(Sizes(parts), k);
      ViewAtHasType(parts[k], i - index[k]);
  }

  // ---------- converting one cell ----------

  predicate IsBytes(cell: Cell) {
    cell.ArrayCell? && forall k | 0 <= k < |cell.cells| :: cell.cells[k].Number? && cell.cells[k].word < 256
  }

  /** The bytes of a text or of an array of `UInt8`. */
  function BytesOf(cell: Cell): (r: bytes)
    requires cell.Text? || IsBytes(cell)
  {
    if cell.Text? then cell.text
    else seq(|cell.cells|, k requires 0 <= k < |cell.cells| => cell.cells[k].word)
  }

  /** The cells an adapter is made for. */
  predicate Castable(cast: Cast, cell: Cell) {
    match cast
    case ToFixed(_) => cell.Text? || IsBytes(cell)
    case ToText => IsBytes(cell) && |cell.cells| < TWO_64
    case ToDecimal(_) => cell.DecimalCell? && InI64(cell.underlying)
    case ToEnum(size, _) => cell.EnumCell? && cell.size == size
    case ToNullable(inner) => cell.Null? || (cell.Present? && Castable(inner, cell.cell))
  }

  /** `x as i32` and the like, as the unsigned word. */
  function Wrapped(x: int, w: nat): (r: nat)
    ensures r < Pow256(w)
  {
    x % Pow256(w)
  }

  lemma WrapsZero(w: nat)
    ensures Wrapped(0, w) == 0
  {
    Exact(0, Pow256(w), 0);
  }

  lemma SignedModulo(x: int, h: int)
    requires h > 0
    ensures var r := x % (2 * h); (if r < h then r else r - 2 * h) == x <==> -h <= x < h
  {
    if -h <= x < h {
      if x >= 0 { ModuloSmall(x, 2 * h, x, 0); } else { ModuloSmall(x, 2 * h, x + 2 * h, -1); }
    }
  }

  lemma WrappedSigned(x: int, w: nat)
    requires w > 0
    ensures Signed(Wrapped(x, w), w) == x <==> -(Pow256(w) / 2) <= x < Pow256(w) / 2
  {
    var h := 128 * Pow256(w - 1);
    assert Pow256(w) == 2 * h;
    SignedModulo(x, h);
  }

  lemma ModuloSmall(x: int, p: nat, r: nat, q: int)
    requires r < p && x == q * p + r
    ensures x % p == r
  {
    var k := x / p - q;
    assert x == x / p * p + x % p;
    assert k * p == x / p * p - q * p;
    if k > 0 { ProductGrows(k, p); }
    if k < 0 { ProductGrows(-k, p); }
  }

  /** The cell that is read back for a cell that was cast and written. */
  function Converted(cast: Cast, cell: Cell): Result<Cell>
    requires Castable(cast, cell)
  {
    match cast
    case ToFixed(n) => Success(Text(Resized(BytesOf(cell), n)))
    case ToText => Success(Text(BytesOf(cell)))
    case ToDecimal(shape) =>
      var d :- Rescaled(shape, cell);
      var w := DecimalWidth(shape.nobits);
      Success(DecimalCell(shape, Signed(Wrapped(d.underlying, w), w)))
    case ToEnum(size, items) =>
      var w := EnumWidth(size);
      Success(EnumCell(size, items, Signed(Wrapped(cell.value, w), w)))
    case ToNullable(inner) =>
      if cell.Null? then Success(Null(TypeOfCast(inner)))
      else
        var c :- Converted(inner, cell.cell);
        Success(Present(c))
  }

  /** `at` of the decimal adapter. */
  function Rescaled(shape: DecimalShape, cell: Cell): Result<Decimals.Decimal>
    requires cell.DecimalCell? && InI64(cell.underlying)
  {
    SetScale(Decimals.Decimal(cell.underlying, cell.shape.precision, cell.shape.scale, cell.shape.nobits), shape.scale)
  }

  /** A decimal comes back with the rescaled number exactly when it fits the target's word. */
  lemma DecimalComesBack(shape: DecimalShape, cell: Cell)
    requires Castable(ToDecimal(shape), cell) && Rescaled(shape, cell).Success?
    ensures var x, w := Rescaled(shape, cell).value.underlying, DecimalWidth(shape.nobits);
            Converted(ToDecimal(shape), cell) == Success(DecimalCell(shape, x))
            <==> -(Pow256(w) / 2) <= x < Pow256(w) / 2
  {
    WrappedSigned(Rescaled(shape, cell).value.underlying, DecimalWidth(shape.nobits));
  }

  // ---------- what a converted cell shows ----------

  /** The text, or the array of bytes, cut to the width or filled up with zeros. */
  ghost predicate FixedShown(r: Cell, cell: Cell, n: nat) {
    && r.Text? && |r.text| == n
    && (cell.Text? ==> forall j | 0 <= j < n :: r.text[j] == if j < |cell.text| then cell.text[j] else 0)
    && (cell.ArrayCell? ==> forall j | 0 <= j < |cell.cells| :: cell.cells[j].Number?)
    && (cell.ArrayCell? ==> forall j | 0 <= j < n :: r.text[j] == if j < |cell.cells| then cell.cells[j].word else 0)
  }

  /** The array of bytes as a text of the same length. */
  ghost predicate TextShown(r: Cell, cell: Cell) {
    && r.Text? && cell.ArrayCell? && |r.text| == |cell.cells|
    && forall j | 0 <= j < |cell.cells| :: cell.cells[j].Number? && r.text[j] == cell.cells[j].word
  }

  /** `y` digits of scale `to` for `x` of scale `from`: multiplied up, or divided down towards zero. */
  ghost predicate RescaledTo(x: int, from: nat, to: nat, y: int) {
    if from <= to then y == x * Pow10(to - from)
    else if x >= 0 then y >= 0 && y * Pow10(from - to) <= x < (y + 1) * Pow10(from - to)
    else y <= 0 && (y - 1) * Pow10(from - to) < x <= y * Pow10(from - to)
  }

  /** The rescaled number, as much of it as the word of the target keeps. */
  ghost predicate DecimalShown(r: Cell, cell: Cell, shape: DecimalShape) {
    && r.DecimalCell? && cell.DecimalCell? && r.shape == shape
    && var bound := if shape.precision <= 9 then 0x1_0000_0000 else 0x1_0000_0000_0000_0000;
       && -(bound / 2) <= r.underlying < bound / 2
       && exists y: int ::
            RescaledTo(cell.underlying, cell.shape.scale, shape.scale, y) && (y - r.underlying) % bound == 0
  }

  /** The value, under the items of the target. */
  ghost predicate EnumShown(r: Cell, cell: Cell, size: EnumSize, items: seq<Item>) {
    && r.EnumCell? && cell.EnumCell? && r.size == size && r.items == items
    && (size.E8? && -0x80 <= cell.value < 0x80 ==> r.value == cell.value)
    && (size.E16? && -0x8000 <= cell.value < 0x8000 ==> r.value == cell.value)
  }

  ghost predicate Shown(cast: Cast, cell: Cell, r: Cell) {
    match cast
    case ToFixed(n) => FixedShown(r, cell, n)
    case ToText => TextShown(r, cell)
    case ToDecimal(shape) => DecimalShown(r, cell, shape)
    case ToEnum(size, items) => EnumShown(r, cell, size, items)
    case ToNullable(inner) =>
      if cell.Null? then r == Null(TypeOfCast(inner))
      else cell.Present? && r.Present? && Shown(inner, cell.cell, r.cell)
  }

  lemma BytesShown(n: nat, cell: Cell)
    requires cell.Text? || IsBytes(cell)
    ensures FixedShown(Text(Resized(BytesOf(cell), n)), cell, n)
    ensures IsBytes(cell) ==> TextShown(Text(BytesOf(cell)), cell)
  {
  }

  lemma WrappedCongruent(x: int, w: nat)
    requires w == 4 || w == 8 || w == 1 || w == 2
    ensures var b := if w == 1 then 0x100 else if w == 2 then 0x1_0000 else if w == 4 then 0x1_0000_0000
                     else 0x1_0000_0000_0000_0000;
            var r := Signed(Wrapped(x, w), w);
            -(b / 2) <= r < b / 2 && (x - r) % b == 0
  {
    assert Pow256(2) == 0x1_0000 && Pow256(4) == 0x1_0000_0000;
    PowerOfEight();
    hide Pow256;
    SignedCongruent(x, Pow256(w));
  }

  lemma SignedCongruent(x: int, p: nat)
    requires p > 0 && p % 2 == 0
    ensures var m := x % p;
            var r := if 2 * m < p then m else m - p;
            -(p / 2) <= r < p / 2 && (x - r) % p == 0
  {
    var q, m := x / p, x % p;
    assert x == q * p + m;
    ModuloSmall(q * p, p, 0, q);
    ModuloSmall((q + 1) * p, p, 0, q + 1);
    assert (q + 1) * p == q * p + p;
  }

  lemma QuotientBetween(n: nat, b: nat)
    requires b > 0
    ensures var q := n / b; q >= 0 && q * b <= n < (q + 1) * b
  {
    var q, r := n / b, n % b;
    assert n == q * b + r;
    assert (q + 1) * b == q * b + b;
  }

  lemma Negated(q: int, b: int)
    ensures (-q) * b == -(q * b) && (-q - 1) * b == -((q + 1) * b)
  {
  }

  lemma TruncatedBetween(x: int, b: nat)
    requires b > 0
    ensures var y := Truncated(x, b);
            if x >= 0 then y >= 0 && y * b <= x < (y + 1) * b else y <= 0 && (y - 1) * b < x <= y * b
  {
    if x >= 0 {
      QuotientBetween(x, b);
    } else {
      QuotientBetween(-x, b);
      Negated((-x) / b, b);
    }
  }

  lemma RescaledShown(shape: DecimalShape, cell: Cell)
    requires Castable(ToDecimal(shape), cell) && Rescaled(shape, cell).Success?
    ensures RescaledTo(cell.underlying, cell.shape.scale, shape.scale, Rescaled(shape, cell).value.underlying)
  {
    hide Pow10, Truncated;
    var from, to := cell.shape.scale, shape.scale;
    if to < from {
      TruncatedBetween(cell.underlying, Pow10(from - to));
    } else if to == from {
      assert Pow10(0) == 1 by { PowerOfNone(); }
    }
  }

  lemma PowerOfNone()
    ensures Pow10(0) == 1
  {
  }

  /** A converted cell shows the source cell in the form of the target. */
  lemma {:induction false} ConvertedShown(cast: Cast, cell: Cell)
    requires Castable(cast, cell) && GoodCast(cast) && Converted(cast, cell).Success?
    ensures Shown(cast, cell, Converted(cast, cell).value)
    decreases cast
  {
    hide Resized, BytesOf, IsBytes, Rescaled, Wrapped, Signed, FixedShown, TextShown, Pow256, WellTyped, RescaledTo;
    match cast
    case ToFixed(n) => BytesShown(n, cell);
    case ToText => BytesShown(0, cell);
    case ToDecimal(shape) =>
      RescaledShown(shape, cell);
      WrappedCongruent(Rescaled(shape, cell).value.underlying, DecimalWidth(shape.nobits));
    case ToEnum(size, items) =>
      assert Pow256(1) == 0x100 && Pow256(2) == 0x1_0000 by { BytePowers(); }
      WrappedSigned(cell.value, EnumWidth(size));
    case ToNullable(inner) => if cell.Present? { ConvertedShown(inner, cell.cell); }
  }

  lemma BytePowers()
    ensures Pow256(1) == 0x100 && Pow256(2) == 0x1_0000
  {
  }

  // ---------- the column an adapter writes ----------

  ghost predicate AllCastable(cast: Cast, cells: seq<Cell>) {
    forall k | 0 <= k < |cells| :: Castable(cast, cells[k])
  }

  function FixedRows(cells: seq<Cell>, n: nat): (r: bytes)
    requires forall k | 0 <= k < |cells| :: cells[k].Text? || IsBytes(cells[k])
  {
    if |cells| == 0 then [] else FixedRows(cells[..|cells| - 1], n) + Resized(BytesOf(cells[|cells| - 1]), n)
  }

  function DecimalWords(cells: seq<Cell>, shape: DecimalShape): Result<seq<nat>>
    requires AllCastable(ToDecimal(shape), cells)
  {
    if |cells| == 0 then Success([])
    else
      var words :- DecimalWords(cells[..|cells| - 1], shape);
      var d :- Rescaled(shape, cells[|cells| - 1]);
      Success(words + [Wrapped(d.underlying, DecimalWidth(shape.nobits))])
  }

  /** What stands in the place of a null. */
  function Blank(cast: Cast): Cell {
    match cast
    case ToFixed(_) => Text([])
    case ToText => ArrayCell(Scalar(UInt8), [])
    case ToDecimal(shape) => DecimalCell(shape, 0)
    case ToEnum(size, items) => EnumCell(size, items, 0)
    case ToNullable(inner) => Null(TypeOfCast(inner))
  }

  function Flags(cells: seq<Cell>): (r: bytes)
    ensures |r| == |cells|
  {
    seq(|cells|, k requires 0 <= k < |cells| => if cells[k].Null? then 1 else 0)
  }

  function Unwrapped(cast: Cast, cells: seq<Cell>): (r: seq<Cell>)
    ensures |r| == |cells|
  {
    seq(|cells|, k requires 0 <= k < |cells| => if cells[k].Present? then cells[k].cell else Blank(cast))
  }

  lemma UnwrappedCastable(cast: Cast, cells: seq<Cell>)
    requires AllCastable(ToNullable(cast), cells)
    ensures AllCastable(cast, Unwrapped(cast, cells))
  {
  }

  /** The stored column whose bytes the adapter writes for some cells. */
  function CastColumn(cast: Cast, cells: seq<Cell>): Result<Column>
    requires AllCastable(cast, cells)
    decreases cast
  {
    match cast
    case ToFixed(n) => Success(FixedStrings(n, FixedRows(cells, n)))
    case ToText => Success(Strings(seq(|cells|, k requires 0 <= k < |cells| => BytesOf(cells[k]))))
    case ToDecimal(shape) =>
      var words :- DecimalWords(cells, shape);
      Success(Decimals(shape, words))
    case ToEnum(size, items) =>
      Success(Enums(size, items, seq(|cells|, k requires 0 <= k < |cells| => Wrapped(cells[k].value, EnumWidth(size)))))
    case ToNullable(inner) =>
      UnwrappedCastable(inner, cells);
      var column :- CastColumn(inner, Unwrapped(inner, cells));
      Success(Nullables(Flags(cells), column))
  }

  /** Targets whose columns can be stored at all: known decimal widths, fixed strings with room, items within range. */
  predicate GoodCast(cast: Cast) {
    match cast
    case ToFixed(n) => n > 0
    case ToText => true
    case ToDecimal(shape) => FromPrecision(shape.precision) == Some(shape.nobits)
    case ToEnum(size, items) => WellTyped(Enum(size, items))
    case ToNullable(inner) => GoodCast(inner)
  }

  lemma FixedRowsSnoc(cells: seq<Cell>, n: nat)
    requires forall k | 0 <= k < |cells| :: cells[k].Text? || IsBytes(cells[k])
    requires |cells| > 0
    ensures var m := |cells| - 1;
            && FixedRows(cells, n) == FixedRows(cells[..m], n) + Resized(BytesOf(cells[m]), n)
            && |Resized(BytesOf(cells[m]), n)| == n
  {
    hide BytesOf, IsBytes;
  }

  lemma {:induction false} FixedRowsLength(cells: seq<Cell>, n: nat)
    requires forall k | 0 <= k < |cells| :: cells[k].Text? || IsBytes(cells[k])
    ensures |FixedRows(cells, n)| == |cells| * n
  {
    hide BytesOf, IsBytes, Resized;
    if |cells| > 0 {
      hide FixedRows;
      var m := |cells| - 1;
      FixedRowsSnoc(cells, n);
      FixedRowsLength(cells[..m], n);
      assert (m + 1) * n == m * n + n;
    }
  }

  lemma RowInside(i: nat, m: nat, n: nat)
    requires i < m
    ensures i * n <= (i + 1) * n <= m * n && (i + 1) * n == i * n + n
  {
    Scaled(i + 1, m, n);
    assert (i + 1) * n == i * n + n;
  }

  lemma {:induction false} FixedRowsAt(cells: seq<Cell>, n: nat, i: nat)
    requires forall k | 0 <= k < |cells| :: cells[k].Text? || IsBytes(cells[k])
    requires i < |cells|
    ensures |FixedRows(cells, n)| == |cells| * n
    ensures i * n <= (i + 1) * n <= |cells| * n
    ensures FixedRows(cells, n)[i * n..(i + 1) * n] == Resized(BytesOf(cells[i]), n)
    decreases |cells|
  {
    hide BytesOf, IsBytes, FixedRows, Resized;
    var m := |cells| - 1;
    var from, to := i * n, (i + 1) * n;
    FixedRowsSnoc(cells, n);
    FixedRowsLength(cells, n);
    FixedRowsLength(cells[..m], n);
    RowInside(i, |cells|, n);
    var front := FixedRows(cells[..m], n);
    if i < m {
      RowInside(i, m, n);
      FixedRowsAt(cells[..m], n, i);
      assert FixedRows(cells, n)[from..to] == front[from..to];
    } else {
      assert from == |front|;
    }
  }

  lemma {:induction false} DecimalWordsAt(cells: seq<Cell>, shape: DecimalShape, i: nat)
    requires AllCastable(ToDecimal(shape), cells) && i < |cells| && DecimalWords(cells, shape).Success?
    ensures |DecimalWords(cells, shape).value| == |cells|
    ensures Rescaled(shape, cells[i]).Success?
    ensures DecimalWords(cells, shape).value[i]
         == Wrapped(Rescaled(shape, cells[i]).value.underlying, DecimalWidth(shape.nobits))
    decreases |cells|
  {
    hide SetScale, Wrapped;
    var m := |cells| - 1;
    DecimalWordsLength(cells[..m], shape);
    if i < m {
      DecimalWordsAt(cells[..m], shape, i);
    }
  }

  lemma {:induction false} DecimalWordsLength(cells: seq<Cell>, shape: DecimalShape)
    requires AllCastable(ToDecimal(shape), cells) && DecimalWords(cells, shape).Success?
    ensures |DecimalWords(cells, shape).value| == |cells|
  {
    hide SetScale, Wrapped;
    if |cells| > 0 {
      DecimalWordsLength(cells[..|cells| - 1], shape);
    }
  }

  // ---------- the rows of the written column ----------

  lemma FixedCast(n: u64, cells: seq<Cell>, i: nat)
    requires AllCastable(ToFixed(n), cells) && n > 0 && i < |cells|
    ensures var c := FixedStrings(n, FixedRows(cells, n));
            && Sound(c) && Length(c) == |cells|
            && At(c, i) == Text(Resized(BytesOf(cells[i]), n))
  {
    hide FixedRows, IsBytes, BytesOf, Resized;
    FixedRowsAt(cells, n, i);
    Exact(|cells|, n, |cells| * n);
  }

  lemma NoRows(n: u64, cells: seq<Cell>)
    requires n > 0 && |cells| == 0
    ensures FixedRows(cells, n) == []
    ensures Sound(FixedStrings(n, [])) && Length(FixedStrings(n, [])) == 0
  {
    Exact(0, n, 0);
  }

  /** The column an adapter writes: of the wanted type, with a row for each cell. */
  lemma {:induction false} CastSound(cast: Cast, cells: seq<Cell>)
    requires AllCastable(cast, cells) && GoodCast(cast) && CastColumn(cast, cells).Success?
    requires cast.ToNullable? ==> !cast.inner.ToNullable?
    ensures var c := CastColumn(cast, cells).value;
            Sound(c) && Length(c) == |cells| && TypeOfColumn(c) == TypeOfCast(cast)
    decreases cast
  {
    hide FixedRows, Resized, SetScale, WellTyped, FromPrecision, Pow256;
    match cast
    case ToFixed(n) => if |cells| > 0 { FixedCast(n, cells, 0); } else { NoRows(n, cells); }
    case ToText =>
    case ToDecimal(shape) =>
      DecimalWordsLength(cells, shape);
      var words := DecimalWords(cells, shape).value;
      forall i | 0 <= i < |cells| ensures words[i] < Pow256(DecimalWidth(shape.nobits)) {
        DecimalWordsAt(cells, shape, i);
      }
    case ToEnum(size, items) =>
    case ToNullable(inner) =>
      UnwrappedCastable(inner, cells);
      CastSound(inner, Unwrapped(inner, cells));
  }

  /** Row by row the written column holds the converted cells. */
  lemma {:induction false} CastRow(cast: Cast, cells: seq<Cell>, i: nat)
    requires AllCastable(cast, cells) && GoodCast(cast) && CastColumn(cast, cells).Success? && i < |cells|
    requires cast.ToNullable? ==> !cast.inner.ToNullable?
    ensures var c := CastColumn(cast, cells).value;
            && Sound(c) && Length(c) == |cells|
            && Converted(cast, cells[i]) == Success(At(c, i)) && Shown(cast, cells[i], At(c, i))
    decreases cast
  {
    CastSound(cast, cells);
    CastConverted(cast, cells, i);
    ConvertedShown(cast, cells[i]);
  }

  lemma {:induction false} CastConverted(cast: Cast, cells: seq<Cell>, i: nat)
    requires AllCastable(cast, cells) && GoodCast(cast) && CastColumn(cast, cells).Success? && i < |cells|
    requires cast.ToNullable? ==> !cast.inner.ToNullable?
    ensures var c := CastColumn(cast, cells).value;
            && Sound(c) && Length(c) == |cells|
            && Converted(cast, cells[i]) == Success(At(c, i))
    decreases cast
  {
    CastSound(cast, cells);
    hide FixedRows, IsBytes, Resized, SetScale, WellTyped, FromPrecision, Pow256, Sound, Signed;
    match cast
    case ToFixed(n) => FixedCast(n, cells, i);
    case ToText =>
    case ToDecimal(shape) => DecimalWordsAt(cells, shape, i);
    case ToEnum(size, items) =>
    case ToNullable(inner) =>
      UnwrappedCastable(inner, cells);
      CastSound(inner, Unwrapped(inner, cells));
      CastConverted(inner, Unwrapped(inner, cells), i);
  }

  // ---------- what cast_to accepts ----------

  /** The pairs of types that get an adapter. */
  ghost predicate Adaptable(dst: SqlType, src: SqlType) {
    || (src == String && dst.FixedString?)
    || (src == Array(Scalar(UInt8)) && (dst == String || dst.FixedString?))
    || (src.Decimal? && dst.Decimal?)
    || (src.Enum? && dst.Enum? && src.size == dst.size)
    || (src == Nullable(String) && dst.Nullable? && dst.inner.FixedString?)
    || (src.Nullable? && src.inner.Decimal? && dst.Nullable? && dst.inner.Decimal?)
    || (src.Nullable? && src.inner.Enum? && dst.Nullable? && dst.inner.Enum? && src.inner.size == dst.inner.size)
  }

  /** Any other pair is refused, and a decimal of more than 18 digits panics. */
  lemma CastPairs(dst: SqlType, src: SqlType)
    ensures !Adaptable(dst, src) ==> CastFor(dst, src) == Failure(InvalidType)
    ensures Adaptable(dst, src) ==>
              var t := if dst.Nullable? then dst.inner else dst;
              if t.Decimal? && t.precision > 18 then CastFor(dst, src) == Failure(Panic(NoneUnwrapped))
              else CastFor(dst, src).Success?
  {
  }

  /** `cast_to` between column types that differ succeeds with an adapter of the wanted type, and the adapter can
      take every cell of the column. */
  lemma CastFits(dst: SqlType, v: View)
    requires SoundView(v) && CastFor(dst, ViewType(v)).Success?
    ensures var cast := CastFor(dst, ViewType(v)).value;
            && TypeOfCast(cast) == dst && AllCastable(cast, ViewRows(v))
            && (cast.ToNullable? ==> !cast.inner.ToNullable?)
  {
    hide SoundView, ViewAt, FromPrecision;
    var cast := CastFor(dst, ViewType(v)).value;
    CastType(dst, ViewType(v));
    forall i | 0 <= i < ViewLength(v) ensures Castable(cast, ViewRows(v)[i]) {
      ViewAtHasType(v, i);
      assert ViewRows(v)[i] == ViewAt(v, i);
      TypeCastable(dst, ViewType(v), ViewAt(v, i));
    }
  }

  lemma CastType(dst: SqlType, src: SqlType)
    requires CastFor(dst, src).Success?
    ensures var cast := CastFor(dst, src).value;
            TypeOfCast(cast) == dst && (cast.ToNullable? ==> !cast.inner.ToNullable?)
  {
    hide FromPrecision;
  }

  lemma TypeCastable(dst: SqlType, src: SqlType, cell: Cell)
    requires CastFor(dst, src).Success? && HasType(cell, src)
    ensures Castable(CastFor(dst, src).value, cell)
  {
    hide FromPrecision;
    assert Pow256(1) == 256;
    if src == Array(Scalar(UInt8)) {
      forall k | 0 <= k < |cell.cells| ensures cell.cells[k].Number? && cell.cells[k].word < 256 {
        assert HasType(cell.cells[k], Scalar(UInt8));
      }
    }
  }

  // ---------- which cells can be cast ----------

  /** A cell whose conversion does not panic: decimals have to rescale, nothing else can fail. */
  predicate Rescales(cast: Cast, cell: Cell)
    requires Castable(cast, cell)
  {
    match cast
    case ToDecimal(shape) => CanRescale(cell.underlying, cell.shape.scale, shape.scale)
    case ToNullable(inner) => cell.Null? || Rescales(inner, cell.cell)
    case _ => true
  }

  ghost predicate AllRescale(cast: Cast, cells: seq<Cell>)
    requires AllCastable(cast, cells)
  {
    forall k | 0 <= k < |cells| :: Rescales(cast, cells[k])
  }

  lemma RescaledWhen(shape: DecimalShape, cell: Cell)
    requires Castable(ToDecimal(shape), cell)
    ensures Rescaled(shape, cell).Success? <==> Rescales(ToDecimal(shape), cell)
  {
    hide SetScale, CanRescale;
    SetScaleAnswers(
      Decimals.Decimal(cell.underlying, cell.shape.precision, cell.shape.scale, cell.shape.nobits), shape.scale);
  }

  lemma {:induction false} DecimalWordsWhen(cells: seq<Cell>, shape: DecimalShape)
    requires AllCastable(ToDecimal(shape), cells)
    ensures DecimalWords(cells, shape).Success? <==> AllRescale(ToDecimal(shape), cells)
  {
    hide Rescaled, Wrapped, Rescales;
    if |cells| > 0 {
      var m := |cells| - 1;
      DecimalWordsWhen(cells[..m], shape);
      RescaledWhen(shape, cells[m]);
      assert forall k | 0 <= k < m :: cells[..m][k] == cells[k];
    }
  }

  /** A blank rescales to itself. */
  lemma BlankRescales(cast: Cast)
    requires Castable(cast, Blank(cast))
    ensures Rescales(cast, Blank(cast))
  {
    assert Pow10(0) == 1;
  }

  /** There is a cast column exactly when every cell rescales. */
  lemma {:induction false} CastColumnWhen(cast: Cast, cells: seq<Cell>)
    requires AllCastable(cast, cells)
    ensures CastColumn(cast, cells).Success? <==> AllRescale(cast, cells)
    decreases cast
  {
    hide FixedRows, DecimalWords, Wrapped, IsBytes, BytesOf, CanRescale;
    match cast
    case ToDecimal(shape) => DecimalWordsWhen(cells, shape);
    case ToNullable(inner) =>
      UnwrappedCastable(inner, cells);
      CastColumnWhen(inner, Unwrapped(inner, cells));
      UnwrappedRescale(inner, cells);
    case _ =>
  }

  lemma UnwrappedRescale(cast: Cast, cells: seq<Cell>)
    requires AllCastable(ToNullable(cast), cells) && AllCastable(cast, Unwrapped(cast, cells))
    ensures AllRescale(cast, Unwrapped(cast, cells)) <==> AllRescale(ToNullable(cast), cells)
  {
    hide CanRescale;
    var values := Unwrapped(cast, cells);
    forall k | 0 <= k < |cells| ensures Rescales(ToNullable(cast), cells[k]) <==> Rescales(cast, values[k]) {
      if cells[k].Null? {
        BlankRescales(cast);
      } else {
        assert values[k] == cells[k].cell;
      }
    }
  }

  // ---------- texts cast to addresses ----------

  type Word32 = n: nat | n < 0x1_0000_0000

  type Word128 = n: nat | n < 0x1_0000_0000_0000_0000_0000_0000_0000_0000

  /** The parsers of the standard library: the stored word of an address, or none. */
  datatype Addresses = Addresses(v4: bytes -> Option<Word32>, v6: bytes -> Option<Word128>)

  /** Texts that are parsed as they are cast, with no adapter. */
  predicate IsAddressCast(dst: SqlType, src: SqlType) {
    src.String? && (dst == Scalar(IPv4) || dst == Scalar(IPv6))
  }

  lemma AddressPowers()
    ensures Pow256(4) == 0x1_0000_0000 && Pow256(16) == 0x1_0000_0000_0000_0000_0000_0000_0000_0000
  {
    assert Pow256(2) == 0x1_0000;
    PowerOfEight();
    assert Pow256(12) == 0x1_0000_0000 * Pow256(8);
    assert Pow256(16) == 0x1_0000_0000 * Pow256(12);
  }

  /** A text has to be UTF-8 and to parse, or the cast panics. */
  function ParsedWord(net: Addresses, prim: Prim, text: bytes): (r: Result<nat>)
    requires prim.IPv4? || prim.IPv6?
    ensures r.Success? ==> r.value < Pow256(Width(prim))
  {
    AddressPowers();
    if !Utf8(text) then Failure(Panic(ErrorUnwrapped))
    else if prim.IPv4? then
      match net.v4(text)
      case None => Failure(Panic(ErrorUnwrapped))
      case Some(word) => Success(word)
    else
      match net.v6(text)
      case None => Failure(Panic(ErrorUnwrapped))
      case Some(word) => Success(word)
  }

  predicate AllTexts(cells: seq<Cell>) {
    forall k | 0 <= k < |cells| :: cells[k].Text?
  }

  function ParsedWords(net: Addresses, prim: Prim, cells: seq<Cell>): Result<seq<nat>>
    requires (prim.IPv4? || prim.IPv6?) && AllTexts(cells)
  {
    if |cells| == 0 then Success([])
    else
      var words :- ParsedWords(net, prim, cells[..|cells| - 1]);
      var word :- ParsedWord(net, prim, cells[|cells| - 1].text);
      Success(words + [word])
  }

  /** Row by row the stored column holds the parsed addresses. */
  lemma {:induction false} ParsedRow(net: Addresses, prim: Prim, cells: seq<Cell>, i: nat)
    requires (prim.IPv4? || prim.IPv6?) && AllTexts(cells) && i <= |cells| && ParsedWords(net, prim, cells).Success?
    ensures var words := ParsedWords(net, prim, cells).value;
            && |words| == |cells| && Sound(Numbers(prim, words))
            && (i < |cells| ==>
                  && ParsedWord(net, prim, cells[i].text) == Success(words[i]) && Utf8(cells[i].text)
                  && (prim.IPv4? ==> net.v4(cells[i].text) == Some(words[i]))
                  && (prim.IPv6? ==> net.v6(cells[i].text) == Some(words[i])))
    decreases |cells|
  {
    hide Pow256, Utf8;
    if |cells| > 0 {
      var m := |cells| - 1;
      ParsedRow(net, prim, cells[..m], if i < m then i else 0);
    }
  }

  lemma {:induction false} ParseFails(net: Addresses, prim: Prim, cells: seq<Cell>, n: nat)
    requires (prim.IPv4? || prim.IPv6?) && AllTexts(cells) && n <= |cells|
    requires ParsedWords(net, prim, cells[..n]).Failure?
    ensures ParsedWords(net, prim, cells) == ParsedWords(net, prim, cells[..n])
    decreases |cells|
  {
    hide ParsedWord;
    if n == |cells| {
      assert cells[..n] == cells;
    } else {
      var m := |cells| - 1;
      assert cells[..m][..n] == cells[..n];
      ParseFails(net, prim, cells[..m], n);
    }
  }

  lemma TextRows(v: View)
    requires SoundView(v) && ViewType(v).String?
    ensures AllTexts(ViewRows(v))
  {
    hide SoundView, ViewAt;
    forall i | 0 <= i < ViewLength(v) ensures ViewRows(v)[i].Text? {
      ViewAtHasType(v, i);
    }
  }

  /** The loop over the texts of a column. */
  method ParseTexts(net: Addresses, prim: Prim, cells: seq<Cell>) returns (r: Result<seq<nat>>)
    requires (prim.IPv4? || prim.IPv6?) && AllTexts(cells)
    ensures r == ParsedWords(net, prim, cells)
  {
    hide ParsedWord;
    var words: seq<nat> := [];
    for i := 0 to |cells|
      invariant ParsedWords(net, prim, cells[..i]) == Success(words)
    {
      assert cells[..i + 1][..i] == cells[..i];
      var word := ParsedWord(net, prim, cells[i].text);
      if word.Failure? {
        ParseFails(net, prim, cells, i + 1);
        return Failure(word.error);
      }
      words := words + [word.value];
    }
    assert cells[..|cells|] == cells;
    return Success(words);
  }

  /** 2147483648 as a decimal of nine digits comes back negative. */
  lemma TooWide()
    ensures var cell := DecimalCell(DecimalShape(18, 0, N64), 0x8000_0000);
            Castable(ToDecimal(DecimalShape(9, 0, N32)), cell)
            && Converted(ToDecimal(DecimalShape(9, 0, N32)), cell)
               == Success(DecimalCell(DecimalShape(9, 0, N32), -0x8000_0000))
  {
    assert Pow256(2) == 0x1_0000 && Pow256(4) == 0x1_0000_0000;
  }
}
