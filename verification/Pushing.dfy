/** Pushing values onto columns, and rows onto blocks. */
module Pushing {
  import opened Basics
  import opened Text
  import opened Decoders
  import opened TypeNames
  import opened TypeNameRoundTrip
  import opened Columns
  import opened Casting
  import Iterators
  import Decimals

  // ---------- values ----------

  /** `SqlType::from` a value. */
  function ValueType(v: Cell): SqlType {
    match v
    case Number(prim, _) => Scalar(prim)
    case Text(_) => String
    case DecimalCell(shape, _) => Decimal(shape.precision, shape.scale)
    case EnumCell(size, items, _) => Enum(size, items)
    case Null(inner) => Nullable(inner)
    case Present(cell) => Nullable(ValueType(cell))
    case ArrayCell(inner, _) => Array(inner)
  }

  /** `Value::default`. */
  function DefaultValue(t: SqlType): Cell {
    match t
    case Scalar(prim) => Number(prim, 0)
    case String => Text([])
    case FixedString(n) => Text(Resized([], n))
    case Decimal(p, s) => DecimalCell(DecimalShape(p, s, N64), 0)
    case Enum(size, items) => EnumCell(size, items, 0)
    case Nullable(inner) => Null(inner)
    case Array(inner) => ArrayCell(inner, [])
  }

  predicate IsAddress(prim: Prim) { prim.IPv4? || prim.IPv6? || prim.UUID? }

  /** `from_type`. Address columns are made with as many rows as they have room for. */
  function EmptyColumn(t: SqlType, capacity: nat): Result<Column> {
    match t
    case Scalar(prim) => Success(Numbers(prim, if IsAddress(prim) then seq(capacity, _ => 0) else []))
    case String => Success(Strings([]))
    case FixedString(n) => Success(FixedStrings(n, []))
    case Decimal(p, s) =>
      (match FromPrecision(p)
       case None => Failure(Panic(NoneUnwrapped))
       case Some(nobits) => Success(Decimals(DecimalShape(p, s, nobits), [])))
    case Enum(size, items) => Success(Enums(size, items, []))
    case Nullable(inner) =>
      var column :- EmptyColumn(inner, capacity);
      Success(Nullables([], column))
    case Array(inner) =>
      var column :- EmptyColumn(inner, capacity);
      Success(Arrays([], column))
  }

  // ---------- push of a column ----------

  function Depth(c: Column): nat {
    match c
    case Nullables(_, inner) => 1 + Depth(inner)
    case Arrays(_, inner) => 1 + Depth(inner)
    case _ => 0
  }

  /** `push` of `FixedStringColumnData`: the buffer grows by the text and is then resized to what the padding alone
      would need. */
  function PushFixed(width: u64, buffer: bytes, text: bytes): bytes {
    var l := Min(|text|, width);
    Resized(buffer + text[..l], |buffer| + (width - l))
  }

  /** `push`. A value of another kind makes it panic. */
  function PushColumn(c: Column, v: Cell): (r: Result<Column>)
    ensures r.Success? ==> Depth(r.value) == Depth(c)
    decreases Depth(c), 0, 0
  {
    match c
    case Numbers(prim, words) =>
      if v.Number? && v.prim == prim then Success(Numbers(prim, words + [v.word])) else Failure(Panic(WrongValue))
    case Strings(cells) =>
      if v.Text? then Success(Strings(cells + [v.text])) else Failure(Panic(WrongValue))
    case FixedStrings(width, buffer) =>
      if v.Text? && Utf8(v.text) then Success(FixedStrings(width, PushFixed(width, buffer, v.text)))
      else Failure(Panic(WrongValue))
    case Decimals(shape, words) =>
      if v.DecimalCell? then Success(Decimals(shape, words + [Wrapped(v.underlying, DecimalWidth(shape.nobits))]))
      else Failure(Panic(WrongValue))
    case Enums(size, items, words) =>
      if v.EnumCell? && v.size == size then Success(Enums(size, items, words + [Wrapped(v.value, EnumWidth(size))]))
      else Failure(Panic(WrongValue))
    case Nullables(nulls, inner) =>
      var pushed :- PushColumn(inner, match v
                                      case Null(t) => DefaultValue(t)
                                      case Present(cell) => cell
                                      case other => other);
      Success(Nullables(nulls + [if v.Null? then 1 else 0], pushed))
    case Arrays(offsets, inner) =>
      if !v.ArrayCell? then Failure(Panic(WrongValue))
      else
        var pushed :- PushCells(inner, v.cells);
        Success(Arrays(offsets + [EndOf(offsets, |offsets|) + |v.cells|], pushed))
  }

  function PushCells(c: Column, cells: seq<Cell>): (r: Result<Column>)
    ensures r.Success? ==> Depth(r.value) == Depth(c)
    decreases Depth(c), 1, |cells|
  {
    if |cells| == 0 then Success(c)
    else
      var pushed :- PushCells(c, cells[..|cells| - 1]);
      PushColumn(pushed, cells[|cells| - 1])
  }

  // ---------- good values ----------

  /** Types whose columns take their own values: no fixed strings or dates. */
  predicate StableType(t: SqlType) {
    match t
    case Scalar(prim) => !prim.Date? && !prim.DateTime?
    case FixedString(_) => false
    case Decimal(p, _) => FromPrecision(p).Some?
    case Enum(_, _) => WellTyped(t)
    case Nullable(inner) => StableType(inner)
    case Array(inner) => StableType(inner)
    case String => true
  }

  /** A value that is of the type through and through, within the width of its column. */
  ghost predicate GoodValue(v: Cell, t: SqlType) {
    match t
    case Scalar(prim) => v.Number? && v.prim == prim && v.word < Pow256(Width(prim))
    case String => v.Text? && |v.text| < TWO_64
    case FixedString(_) => false
    case Decimal(p, s) =>
      && v.DecimalCell? && v.shape.precision == p && v.shape.scale == s && FromPrecision(p) == Some(v.shape.nobits)
      && InWord(v.underlying, DecimalWidth(v.shape.nobits))
    case Enum(size, items) => v.EnumCell? && v.size == size && v.items == items && InWord(v.value, EnumWidth(size))
    case Nullable(inner) =>
      (v.Null? && v.inner == inner) || (v.Present? && GoodValue(v.cell, inner))
    case Array(inner) =>
      v.ArrayCell? && v.inner == inner && forall k | 0 <= k < |v.cells| :: GoodValue(v.cells[k], inner)
  }

  ghost predicate InWord(x: int, w: nat) {
    -(Pow256(w) / 2) <= x < Pow256(w) / 2
  }

  /** A value whose push does not panic, though what is stored may be a wrapped number. */
  ghost predicate Acceptable(v: Cell, t: SqlType) {
    match t
    case Scalar(prim) => v.Number? && v.prim == prim && v.word < Pow256(Width(prim))
    case String => v.Text? && |v.text| < TWO_64
    case FixedString(_) => false
    case Decimal(_, _) => v.DecimalCell?
    case Enum(size, _) => v.EnumCell? && v.size == size
    case Nullable(inner) => (v.Null? && v.inner == inner) || (v.Present? && Acceptable(v.cell, inner))
    case Array(inner) => v.ArrayCell? && forall k | 0 <= k < |v.cells| :: Acceptable(v.cells[k], inner)
  }

  lemma {:induction false} DefaultAcceptable(t: SqlType)
    requires StableType(t)
    ensures Acceptable(DefaultValue(t), t)
  {
    match t
    case Scalar(prim) => assert 0 < Pow256(Width(prim));
    case _ =>
  }

  lemma {:induction false} GoodAcceptable(v: Cell, t: SqlType)
    requires GoodValue(v, t)
    ensures Acceptable(v, t)
    decreases t
  {
    hide Pow256, FromPrecision;
    match t
    case Nullable(inner) => if v.Present? { GoodAcceptable(v.cell, inner); }
    case Array(inner) =>
      forall k | 0 <= k < |v.cells| ensures Acceptable(v.cells[k], inner) {
        GoodAcceptable(v.cells[k], inner);
      }
    case _ =>
  }

  function Inserted(v: Cell): Cell {
    match v case Null(t) => DefaultValue(t) case Present(cell) => cell case other => other
  }

  /** The array elements of a value, at all levels. */
  function Weight(v: Cell): nat
    decreases v
  {
    match v
    case Present(cell) => Weight(cell)
    case ArrayCell(_, cells) => |cells| + TotalWeight(cells)
    case _ => 0
  }

  function TotalWeight(cells: seq<Cell>): nat
    decreases cells
  {
    if |cells| == 0 then 0 else TotalWeight(cells[..|cells| - 1]) + Weight(cells[|cells| - 1])
  }

  /** The array elements that a column holds, at all levels. */
  function Bulk(c: Column): nat {
    match c
    case Nullables(_, inner) => Bulk(inner)
    case Arrays(_, inner) => Length(inner) + Bulk(inner)
    case _ => 0
  }

  /** The offsets of arrays stay within 64 bits. */
  predicate Room(c: Column, v: Cell) { Bulk(c) + Weight(v) < TWO_64 }

  predicate RoomAll(c: Column, cells: seq<Cell>) { Bulk(c) + TotalWeight(cells) < TWO_64 }

  // ---------- what push does ----------

  /** `d` is `c` with rows added. */
  ghost predicate Extends(d: Column, c: Column) {
    && Sound(c) && Sound(d) && TypeOfColumn(d) == TypeOfColumn(c) && Length(c) <= Length(d)
    && forall i: nat | i < Length(c) :: At(d, i) == At(c, i)
  }

  lemma ExtendsOn(a: Column, b: Column, c: Column)
    requires Extends(a, b) && Extends(b, c)
    ensures Extends(a, c)
  {
    hide Sound, At, Length, TypeOfColumn;
    forall i: nat | i < Length(c) ensures At(a, i) == At(c, i) {
      assert At(b, i) == At(c, i);
    }
  }

  lemma ExtendsRows(d: Column, c: Column, a: nat, b: nat)
    requires Extends(d, c) && a <= b <= Length(c)
    ensures Rows(d, a, b) == Rows(c, a, b)
  {
    hide Sound, At, Length, TypeOfColumn, Rows;
    var x, y := Rows(d, a, b), Rows(c, a, b);
    assert forall k: nat | k < b - a :: x[k] == At(d, a + k) == At(c, a + k) == y[k];
    assert x == y;
  }

  lemma LeafPush(c: Column, v: Cell)
    requires Sound(c) && StableType(TypeOfColumn(c)) && Acceptable(v, TypeOfColumn(c)) && !c.Nullables? && !c.Arrays?
    ensures PushColumn(c, v).Success?
    ensures var d := PushColumn(c, v).value;
            Extends(d, c) && Length(d) == Length(c) + 1 && Bulk(d) == Bulk(c) + Weight(v)
  {
    hide Pow256, WellTyped, FromPrecision, Signed, Wrapped;
    var d := PushColumn(c, v).value;
    match c
    case Numbers(prim, words) => assert Sound(d);
    case Strings(cells) => assert Sound(d);
    case Decimals(shape, words) => assert Sound(d);
    case Enums(size, items, words) => assert Sound(d);
  }

  lemma NullablePush(nulls: bytes, inner: Column, pushed: Column, v: Cell)
    requires var c := Nullables(nulls, inner); Sound(c) && Extends(pushed, inner) && Length(pushed) == Length(inner) + 1
    ensures var c, d := Nullables(nulls, inner), Nullables(nulls + [if v.Null? then 1 else 0], pushed);
            && Extends(d, c) && Length(d) == Length(c) + 1 && Bulk(d) == Bulk(pushed)
            && At(d, Length(c)) == if v.Null? then Null(TypeOfColumn(inner)) else Present(At(pushed, Length(inner)))
  {
    hide Sound, At;
    var c, d := Nullables(nulls, inner), Nullables(nulls + [if v.Null? then 1 else 0], pushed);
    NullableSound(c);
    NullableSound(d);
    forall i: nat | i < Length(c) ensures At(d, i) == At(c, i) {
      Iterators.NullableParts(c, i);
      Iterators.NullableParts(d, i);
    }
    Iterators.NullableParts(d, Length(c));
  }

  lemma NullableSound(c: Column)
    requires c.Nullables?
    ensures Sound(c) <==> Sound(c.inner) && |c.nulls| == Length(c.inner)
  {
    hide Fit;
  }

  lemma ArraySound(c: Column)
    requires c.Arrays?
    ensures Sound(c) <==> Sound(c.inner) && Rising(c.offsets) && Fit(c.offsets, 8)
                          && EndOf(c.offsets, |c.offsets|) == Length(c.inner)
  {
    hide Fit, Rising;
  }

  lemma ArrayPush(offsets: seq<nat>, inner: Column, pushed: Column, n: nat)
    requires var c := Arrays(offsets, inner);
             Sound(c) && Extends(pushed, inner) && Length(pushed) == Length(inner) + n && Length(inner) + n < TWO_64
    ensures var c, d := Arrays(offsets, inner), Arrays(offsets + [EndOf(offsets, |offsets|) + n], pushed);
            && Extends(d, c) && Length(d) == Length(c) + 1 && Bulk(d) == Length(pushed) + Bulk(pushed)
            && At(d, Length(c)) == ArrayCell(TypeOfColumn(inner), Rows(pushed, Length(inner), Length(pushed)))
  {
    var c, d := Arrays(offsets, inner), Arrays(offsets + [EndOf(offsets, |offsets|) + n], pushed);
    PowerOfEight();
    hide Sound, Pow256, At, Rows;
    ArraySound(c);
    ArraySound(d);
    assert Rising(d.offsets) && Fit(d.offsets, 8);
    forall i: nat | i < Length(c) ensures At(d, i) == At(c, i) {
      ArrayRowKept(c, d, i);
    }
    Iterators.ArrayParts(d, Length(c));
  }

  lemma ArrayRowKept(c: Column, d: Column, i: nat)
    requires c.Arrays? && d.Arrays? && Sound(c) && Sound(d) && i < |c.offsets| && c.offsets <= d.offsets
    requires Extends(d.inner, c.inner)
    ensures At(d, i) == At(c, i)
  {
    hide Sound, At, Rows;
    ArraySound(c);
    ArraySound(d);
    Iterators.ArrayParts(c, i);
    Iterators.ArrayParts(d, i);
    ExtendsRows(d.inner, c.inner, EndOf(c.offsets, i), c.offsets[i]);
  }

  lemma NullableStep(nulls: bytes, inner: Column, v: Cell)
    ensures var c, pushed := Nullables(nulls, inner), PushColumn(inner, Inserted(v));
            && Bulk(c) == Bulk(inner) && Weight(Inserted(v)) == Weight(v)
            && (pushed.Success? ==>
                  PushColumn(c, v) == Success(Nullables(nulls + [if v.Null? then 1 else 0], pushed.value)))
  {
  }

  lemma ArrayStep(offsets: seq<nat>, inner: Column, v: Cell)
    requires v.ArrayCell?
    ensures var c, pushed := Arrays(offsets, inner), PushCells(inner, v.cells);
            && Bulk(c) == Length(inner) + Bulk(inner) && Weight(v) == |v.cells| + TotalWeight(v.cells)
            && (pushed.Success? ==>
                  PushColumn(c, v) == Success(Arrays(offsets + [EndOf(offsets, |offsets|) + |v.cells|], pushed.value)))
  {
  }

  lemma CellsStep(c: Column, cells: seq<Cell>)
    ensures if |cells| == 0 then PushCells(c, cells) == Success(c) && TotalWeight(cells) == 0
            else
              var front := cells[..|cells| - 1];
              && TotalWeight(cells) == TotalWeight(front) + Weight(cells[|cells| - 1])
              && (PushCells(c, front).Success? ==>
                    PushCells(c, cells) == PushColumn(PushCells(c, front).value, cells[|cells| - 1]))
  {
    hide PushColumn, Weight;
  }

  /** A pushed value adds one row and leaves the others. */
  lemma {:induction false} PushSound(c: Column, v: Cell)
    requires Sound(c) && StableType(TypeOfColumn(c)) && Acceptable(v, TypeOfColumn(c)) && Room(c, v)
    ensures PushColumn(c, v).Success?
    ensures var d := PushColumn(c, v).value;
            Extends(d, c) && Length(d) == Length(c) + 1 && Bulk(d) == Bulk(c) + Weight(v)
    decreases Depth(c), 0, 0
  {
    hide Sound, At, Length, Pow256, WellTyped, FromPrecision, PushColumn, PushCells, Bulk, Weight, TotalWeight;
    match c
    case Nullables(nulls, inner) =>
      NullableSound(c);
      NullableStep(nulls, inner, v);
      if v.Null? { DefaultAcceptable(v.inner); }
      PushSound(inner, Inserted(v));
      NullablePush(nulls, inner, PushColumn(inner, Inserted(v)).value, v);
    case Arrays(offsets, inner) =>
      ArraySound(c);
      ArrayStep(offsets, inner, v);
      PushCellsSound(inner, v.cells);
      ArrayPush(offsets, inner, PushCells(inner, v.cells).value, |v.cells|);
    case _ => LeafPush(c, v);
  }

  lemma {:induction false} PushCellsSound(c: Column, cells: seq<Cell>)
    requires Sound(c) && StableType(TypeOfColumn(c)) && RoomAll(c, cells)
    requires forall k | 0 <= k < |cells| :: Acceptable(cells[k], TypeOfColumn(c))
    ensures PushCells(c, cells).Success?
    ensures var d := PushCells(c, cells).value;
            Extends(d, c) && Length(d) == Length(c) + |cells| && Bulk(d) == Bulk(c) + TotalWeight(cells)
    decreases Depth(c), 1, |cells|
  {
    hide Sound, At, Length, TypeOfColumn, StableType, Acceptable, PushColumn, PushCells, Bulk, Weight, TotalWeight;
    CellsStep(c, cells);
    if |cells| > 0 {
      var front := cells[..|cells| - 1];
      PushCellsSound(c, front);
      var d := PushCells(c, front).value;
      PushSound(d, cells[|cells| - 1]);
      ExtendsOn(PushCells(c, cells).value, d, c);
    }
  }

  lemma LeafCell(c: Column, v: Cell)
    requires Sound(c) && StableType(TypeOfColumn(c)) && GoodValue(v, TypeOfColumn(c)) && !c.Nullables? && !c.Arrays?
    requires PushColumn(c, v).Success? && Sound(PushColumn(c, v).value)
    requires Length(PushColumn(c, v).value) == Length(c) + 1
    ensures At(PushColumn(c, v).value, Length(c)) == v
  {
    hide Pow256, WellTyped, FromPrecision, Signed, Wrapped, Sound;
    match c
    case Decimals(shape, words) =>
      WrappedSigned(v.underlying, DecimalWidth(shape.nobits));
      DecimalShapes(c, v);
    case Enums(size, items, words) => WrappedSigned(v.value, EnumWidth(size));
    case _ =>
  }

  lemma DecimalShapes(c: Column, v: Cell)
    requires Sound(c) && c.Decimals? && GoodValue(v, TypeOfColumn(c))
    ensures v.shape == c.shape
  {
    hide Fit, Pow256;
  }

  /** The new row is the value that was pushed, and the array elements are those that were there and those of the
      value. */
  lemma {:induction false} PushCell(c: Column, v: Cell)
    requires Sound(c) && StableType(TypeOfColumn(c)) && GoodValue(v, TypeOfColumn(c)) && Room(c, v)
    ensures PushColumn(c, v).Success?
    ensures var d := PushColumn(c, v).value;
            && Extends(d, c) && Length(d) == Length(c) + 1 && At(d, Length(c)) == v
            && Bulk(d) == Bulk(c) + Weight(v)
    decreases Depth(c), 0, 0
  {
    hide Sound, At, Length, Pow256, WellTyped, FromPrecision, PushColumn, PushCells, Acceptable;
    hide Bulk, Weight, TotalWeight;
    GoodAcceptable(v, TypeOfColumn(c));
    PushSound(c, v);
    match c
    case Nullables(nulls, inner) =>
      NullableSound(c);
      NullableStep(nulls, inner, v);
      if v.Null? {
        DefaultAcceptable(v.inner);
        PushSound(inner, Inserted(v));
      } else {
        PushCell(inner, v.cell);
      }
      NullablePush(nulls, inner, PushColumn(inner, Inserted(v)).value, v);
    case Arrays(offsets, inner) =>
      ArraySound(c);
      ArrayStep(offsets, inner, v);
      PushRows(inner, v.cells);
      ArrayPush(offsets, inner, PushCells(inner, v.cells).value, |v.cells|);
    case _ => LeafCell(c, v);
  }

  lemma {:induction false} PushRows(c: Column, cells: seq<Cell>)
    requires Sound(c) && StableType(TypeOfColumn(c)) && RoomAll(c, cells)
    requires forall k | 0 <= k < |cells| :: GoodValue(cells[k], TypeOfColumn(c))
    ensures PushCells(c, cells).Success?
    ensures var d := PushCells(c, cells).value;
            && Extends(d, c) && Length(d) == Length(c) + |cells| && Bulk(d) == Bulk(c) + TotalWeight(cells)
            && Rows(d, Length(c), Length(d)) == cells
    decreases Depth(c), 1, |cells|
  {
    hide Sound, At, Length, TypeOfColumn, StableType, GoodValue, PushColumn, PushCells, Rows;
    hide Bulk, Weight, TotalWeight;
    CellsStep(c, cells);
    if |cells| > 0 {
      var n := |cells| - 1;
      PushRows(c, cells[..n]);
      var d := PushCells(c, cells[..n]).value;
      PushCell(d, cells[n]);
      var e := PushCells(c, cells).value;
      ExtendsOn(e, d, c);
      ExtendsRows(e, d, Length(c), Length(d));
      RowsSnoc(e, Length(c), Length(d));
      assert cells[..n] + [cells[n]] == cells;
    } else {
      NoRowsBetween(c, Length(c));
    }
  }

  lemma RowsSnoc(c: Column, a: nat, b: nat)
    requires Sound(c) && a <= b < Length(c)
    ensures Rows(c, a, b + 1) == Rows(c, a, b) + [At(c, b)]
  {
    hide Sound, At, Length;
  }

  lemma NoRowsBetween(c: Column, a: nat)
    requires Sound(c) && a <= Length(c)
    ensures Rows(c, a, a) == []
  {
    hide Sound, At, Length;
  }

  // ---------- new columns ----------

  predicate HoldsAddress(t: SqlType) {
    match t
    case Scalar(prim) => prim.IPv4? || prim.IPv6? || prim.UUID?
    case Nullable(inner) => HoldsAddress(inner)
    case Array(inner) => HoldsAddress(inner)
    case _ => false
  }

  /** New columns of the type have no rows, at any level. */
  predicate StartsEmpty(t: SqlType, capacity: nat) { capacity == 0 || !HoldsAddress(t) }

  /** A column made for a stable type, with no rows of its own, is empty. */
  lemma {:induction false} EmptySound(t: SqlType, capacity: nat)
    requires StableType(t) && StartsEmpty(t, capacity)
    ensures EmptyColumn(t, capacity).Success?
    ensures var c := EmptyColumn(t, capacity).value;
            Sound(c) && TypeOfColumn(c) == t && Length(c) == 0 && Bulk(c) == 0
  {
    match t
    case Nullable(inner) => EmptySound(inner, capacity);
    case Array(inner) => EmptySound(inner, capacity);
    case _ =>
  }

  /** After `n` pushed rows there are more at the bottom than that. */
  ghost predicate Overfull(c: Column, n: nat) {
    match c
    case Nullables(nulls, inner) => |nulls| == n && Overfull(inner, n)
    case Arrays(offsets, inner) => |offsets| == n && Overfull(inner, EndOf(offsets, n))
    case Numbers(_, words) => |words| > n
    case _ => false
  }

  lemma {:induction false} EmptyOverfull(t: SqlType, capacity: nat)
    requires !StartsEmpty(t, capacity)
    ensures EmptyColumn(t, capacity).Success? && Overfull(EmptyColumn(t, capacity).value, 0)
  {
    match t
    case Nullable(inner) => EmptyOverfull(inner, capacity);
    case Array(inner) => EmptyOverfull(inner, capacity);
    case _ =>
  }

  /** No sound column has as few rows as were pushed, or fewer. */
  lemma {:induction false} OverfullWrong(c: Column, n: nat, m: nat)
    requires Overfull(c, n) && m <= n
    ensures !(Sound(c) && Length(c) == m)
  {
    hide Fit, WellTyped, FromPrecision, Rising;
    match c
    case Nullables(nulls, inner) => OverfullWrong(inner, n, m);
    case Arrays(offsets, inner) => OverfullWrong(inner, EndOf(offsets, n), EndOf(offsets, n));
    case _ =>
  }

  lemma {:induction false} PushOverfull(c: Column, v: Cell, n: nat)
    requires Overfull(c, n) && PushColumn(c, v).Success?
    ensures Overfull(PushColumn(c, v).value, n + 1)
    decreases Depth(c), 0, 0
  {
    match c
    case Nullables(nulls, inner) => PushOverfull(inner, Inserted(v), n);
    case Arrays(offsets, inner) => PushCellsOverfull(inner, v.cells, EndOf(offsets, n));
    case _ =>
  }

  lemma {:induction false} PushCellsOverfull(c: Column, cells: seq<Cell>, n: nat)
    requires Overfull(c, n) && PushCells(c, cells).Success?
    ensures Overfull(PushCells(c, cells).value, n + |cells|)
    decreases Depth(c), 1, |cells|
  {
    if |cells| > 0 {
      var front := cells[..|cells| - 1];
      PushCellsOverfull(c, front, n);
      PushOverfull(PushCells(c, front).value, cells[|cells| - 1], n + |front|);
    }
  }

  /** Values of a stable type, pushed on a new column, are all its rows, if and only if the column is made without
      rows: a column of addresses starts with as many as it has room for. */
  lemma NewColumnFills(t: SqlType, capacity: nat, cells: seq<Cell>)
    requires StableType(t) && TotalWeight(cells) < TWO_64 && forall k | 0 <= k < |cells| :: GoodValue(cells[k], t)
    ensures EmptyColumn(t, capacity).Success?
    ensures var pushed := PushCells(EmptyColumn(t, capacity).value, cells);
            (pushed.Success? && Sound(pushed.value) && Length(pushed.value) == |cells|
             && Rows(pushed.value, 0, |cells|) == cells)
            <==> StartsEmpty(t, capacity)
  {
    hide PushCells, Sound, Overfull, GoodValue, StableType, EmptyColumn, Rows, TotalWeight, Length;
    if StartsEmpty(t, capacity) {
      EmptySound(t, capacity);
      PushRows(EmptyColumn(t, capacity).value, cells);
    } else {
      EmptyOverfull(t, capacity);
      var pushed := PushCells(EmptyColumn(t, capacity).value, cells);
      if pushed.Success? {
        PushCellsOverfull(EmptyColumn(t, capacity).value, cells, 0);
        OverfullWrong(pushed.value, |cells|, |cells|);
      }
    }
  }

  lemma {:induction false} TypeIsUnique(v: Cell, t: SqlType)
    requires GoodValue(v, t)
    ensures t == ValueType(v)
    decreases t
  {
    hide Pow256, FromPrecision;
    match t
    case Nullable(inner) => if v.Present? { TypeIsUnique(v.cell, inner); }
    case _ =>
  }

  /** Pushing a text onto a fixed-string column adds a row exactly when the text is empty. */
  lemma FixedPushAddsRow(width: u64, buffer: bytes, text: bytes)
    requires Sound(FixedStrings(width, buffer)) && Utf8(text)
    ensures PushColumn(FixedStrings(width, buffer), Text(text)).Success?
    ensures var c := FixedStrings(width, buffer);
            Length(PushColumn(c, Text(text)).value) == Length(c) + 1 <==> text == []
  {
    hide Utf8;
    var n := |buffer| / width;
    var l := Min(|text|, width);
    assert |buffer| == n * width;
    if l == 0 {
      assert (n + 1) * width == n * width + width;
      Exact(n + 1, width, |buffer| + width);
    } else {
      QuotientOf(n, width, width - l);
    }
  }

  lemma QuotientOf(n: nat, width: nat, r: nat)
    requires r < width
    ensures (n * width + r) / width == n
  {
    Decimals.DivideUnique(n * width + r, width, n, r);
  }

  /** The first bytes of the text are kept, as many as the padding leaves room for, and zeros fill the rest. */
  lemma FixedPushStores(width: u64, buffer: bytes, text: bytes)
    requires Utf8(text)
    ensures var d := PushColumn(FixedStrings(width, buffer), Text(text));
            var n := if |text| < width then width - |text| else 0;
            && d.Success? && d.value.FixedStrings? && d.value.width == width
            && |d.value.buffer| == |buffer| + n
            && forall j | 0 <= j < |d.value.buffer| ::
                 d.value.buffer[j] == if j < |buffer| then buffer[j]
                                      else if j - |buffer| < |text| then text[j - |buffer|] else 0
  {
    hide Utf8;
  }

  // ---------- values of another kind ----------

  /** The blank of one type is a value for columns of the other. */
  predicate BlankFits(t: SqlType, blank: SqlType)
    decreases t, 1
  {
    match (t, blank)
    case (Nullable(inner), Nullable(other)) => BlankFits(inner, other)
    case (Nullable(inner), _) => BlankFits(inner, blank)
    case (Scalar(prim), Scalar(other)) => prim == other
    case (Enum(size, _), Enum(other, _)) => size == other
    case (Decimal(_, _), Decimal(_, _)) => true
    case (Array(_), Array(_)) => true
    case (String, _) => blank.String? || blank.FixedString?
    case (FixedString(_), _) => blank.String? || blank.FixedString?
    case _ => false
  }

  /** A value of the kind that columns of the type take, at every level. A column of nullables takes plain values too,
      and neither the width of a text, nor the shape of a decimal, nor the names of an enum matter. */
  ghost predicate KindFits(t: SqlType, v: Cell) {
    match t
    case Scalar(prim) => v.Number? && v.prim == prim
    case String => v.Text?
    case FixedString(_) => v.Text? && Utf8(v.text)
    case Decimal(_, _) => v.DecimalCell?
    case Enum(size, _) => v.EnumCell? && v.size == size
    case Nullable(inner) =>
      (v.Null? && BlankFits(inner, v.inner)) || (v.Present? && KindFits(inner, v.cell))
      || (!v.Null? && !v.Present? && KindFits(inner, v))
    case Array(inner) => v.ArrayCell? && forall k | 0 <= k < |v.cells| :: KindFits(inner, v.cells[k])
  }

  lemma ZerosUtf8(n: nat)
    ensures Utf8(Resized([], n))
  {
    AsciiIsUtf8(Resized([], n));
  }

  lemma {:induction false} BlankKind(t: SqlType, blank: SqlType)
    ensures KindFits(t, DefaultValue(blank)) <==> BlankFits(t, blank)
    decreases t
  {
    hide Utf8;
    if blank.FixedString? {
      ZerosUtf8(blank.width);
    }
    AsciiIsUtf8([]);
    match t
    case Nullable(inner) => BlankKind(inner, blank);
    case _ =>
  }

  /** A column takes exactly the values of its kind, and otherwise the push panics. */
  lemma {:induction false} PushTakes(c: Column, v: Cell)
    ensures var r := PushColumn(c, v);
            if KindFits(TypeOfColumn(c), v) then r.Success? && TypeOfColumn(r.value) == TypeOfColumn(c)
            else r == Failure(Panic(WrongValue))
    decreases Depth(c), 0, 0
  {
    hide Utf8, PushFixed, Wrapped, DefaultValue, BlankFits, PushCells;
    match c
    case Nullables(nulls, inner) =>
      PushTakes(inner, Inserted(v));
      if v.Null? {
        BlankKind(TypeOfColumn(inner), v.inner);
      }
    case Arrays(offsets, inner) => if v.ArrayCell? { CellsTaken(inner, v.cells); }
    case _ =>
  }

  lemma {:induction false} CellsTaken(c: Column, cells: seq<Cell>)
    ensures var r := PushCells(c, cells);
            if forall k | 0 <= k < |cells| :: KindFits(TypeOfColumn(c), cells[k])
            then r.Success? && TypeOfColumn(r.value) == TypeOfColumn(c)
            else r == Failure(Panic(WrongValue))
    decreases Depth(c), 1, |cells|
  {
    hide PushColumn, KindFits, TypeOfColumn;
    if |cells| > 0 {
      var n := |cells| - 1;
      CellsTaken(c, cells[..n]);
      CellsLast(c, cells);
      if PushCells(c, cells[..n]).Success? {
        PushTakes(PushCells(c, cells[..n]).value, cells[n]);
      }
    }
  }

  /** A null is stored as a flag and a blank: zero, no text, a padded text, or no elements. */
  lemma NullStores(nulls: bytes, prim: Prim, words: seq<nat>, texts: seq<bytes>, offsets: seq<nat>, inner: Column,
                   t: SqlType)
    ensures PushColumn(Nullables(nulls, Numbers(prim, words)), Null(Scalar(prim)))
            == Success(Nullables(nulls + [1], Numbers(prim, words + [0])))
    ensures PushColumn(Nullables(nulls, Strings(texts)), Null(String))
            == Success(Nullables(nulls + [1], Strings(texts + [[]])))
    ensures PushColumn(Nullables(nulls, Arrays(offsets, inner)), Null(Array(t)))
            == Success(Nullables(nulls + [1],
                                 Arrays(offsets + [if |offsets| == 0 then 0 else offsets[|offsets| - 1]], inner)))
  {
    NoCells(inner);
    ArrayStep(offsets, inner, ArrayCell(t, []));
    NullableStep(nulls, Arrays(offsets, inner), Null(Array(t)));
  }

  lemma NullNumberStores(nulls: bytes, shape: DecimalShape, size: EnumSize, items: seq<Item>, other: seq<Item>,
                         p: byte, q: byte, words: seq<nat>)
    ensures PushColumn(Nullables(nulls, Decimals(shape, words)), Null(Decimal(p, q)))
            == Success(Nullables(nulls + [1], Decimals(shape, words + [0])))
    ensures PushColumn(Nullables(nulls, Enums(size, items, words)), Null(Enum(size, other)))
            == Success(Nullables(nulls + [1], Enums(size, items, words + [0])))
  {
    WrapsZero(DecimalWidth(shape.nobits));
    WrapsZero(EnumWidth(size));
  }

  /** A null pushed on a column of nullable fixed strings adds its flag and no row, and the column has no length from
      then on. */
  lemma NullFixed(nulls: bytes, width: u64, buffer: bytes)
    requires Sound(Nullables(nulls, FixedStrings(width, buffer)))
    ensures var r := PushColumn(Nullables(nulls, FixedStrings(width, buffer)), Null(FixedString(width)));
            r == Success(Nullables(nulls + [1], FixedStrings(width, buffer))) && LengthPanics(r.value)
  {
    hide Utf8;
    ZerosUtf8(width);
    var text := Resized([], width);
    assert text[..width] == text && Resized(buffer + text, |buffer|) == buffer;
    assert PushFixed(width, buffer, text) == buffer;
  }

  // ---------- push as it runs ----------

  lemma {:induction false} CellsFail(c: Column, cells: seq<Cell>, n: nat)
    requires n <= |cells| && PushCells(c, cells[..n]).Failure?
    ensures PushCells(c, cells) == PushCells(c, cells[..n])
    decreases |cells|
  {
    hide PushColumn, PushCells;
    if n == |cells| {
      assert cells[..n] == cells;
    } else {
      var m := |cells| - 1;
      assert cells[..m][..n] == cells[..n];
      CellsFail(c, cells[..m], n);
      CellsLast(c, cells);
    }
  }

  lemma CellsLast(c: Column, cells: seq<Cell>)
    requires |cells| > 0
    ensures var front := PushCells(c, cells[..|cells| - 1]);
            PushCells(c, cells) == if front.Failure? then front else PushColumn(front.value, cells[|cells| - 1])
  {
    hide PushColumn;
  }

  /** `push`, the elements of an array one by one. */
  method Push(c: Column, v: Cell) returns (r: Result<Column>)
    ensures r == PushColumn(c, v)
    decreases Depth(c)
  {
    hide PushFixed, Wrapped, PushCells;
    match c
    case Nullables(nulls, inner) =>
      var pushed :- Push(inner, Inserted(v));
      return Success(Nullables(nulls + [if v.Null? then 1 else 0], pushed));
    case Arrays(offsets, inner) =>
      if !v.ArrayCell? {
        return Failure(Panic(WrongValue));
      }
      var prev := if |offsets| == 0 then 0 else offsets[|offsets| - 1];
      var column := inner;
      NoCells(inner);
      for k := 0 to |v.cells|
        invariant PushCells(inner, v.cells[..k]) == Success(column)
      {
        assert v.cells[..k + 1][..k] == v.cells[..k];
        CellsLast(inner, v.cells[..k + 1]);
        var pushed := Push(column, v.cells[k]);
        if pushed.Failure? {
          CellsFail(inner, v.cells, k + 1);
          return pushed;
        }
        column := pushed.value;
      }
      assert v.cells[..|v.cells|] == v.cells;
      return Success(Arrays(offsets + [prev + |v.cells|], column));
    case _ => return PushColumn(c, v);
  }

  lemma NoCells(c: Column)
    ensures PushCells(c, []) == Success(c)
  {
  }
}
