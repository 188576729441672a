/** Loading what a column, or a slice of it, saved. */
module ColumnRoundTrip {
  import opened Basics
  import opened Decoders
  import opened TypeNames
  import opened TypeNameRoundTrip
  import opened Columns

  // ---------- types and names ----------

  function ShapeFor(t: SqlType): Shape
    requires Printable(t)
  {
    match t
    case Scalar(prim) => ScalarShape(prim)
    case String => StringShape
    case FixedString(n) => FixedShape(n)
    case Nullable(inner) => NullableShape(Print(inner))
    case Array(inner) => ArrayShape(Print(inner))
    case Decimal(p, s) => DecShape(DecimalShape(p, s, FromPrecision(p).value))
    case Enum(size, items) => EnumShape(size, items)
  }

  lemma PrintedShape(t: SqlType)
    requires WellTyped(t) && Printable(t)
    ensures ShapeOf(Print(t)) == ShapeFor(t)
  {
    hide ShapeOf, Print;
    match t
    case Scalar(prim) => ScalarPrinted(prim);
    case String => StringPrinted();
    case FixedString(n) => FixedStringShape(n);
    case Decimal(p, s) => DecimalPrinted(p, s);
    case Enum(size, items) => EnumPrinted(size, items);
    case Array(inner) =>
      PrintStart(inner);
      ArrayCall(inner);
      ArrayName(Print(inner));
    case Nullable(inner) =>
      PrintStart(inner);
      NullableCall(inner);
      NullableName(Print(inner));
  }

  lemma {:induction false} SoundTypes(c: Column)
    requires Sound(c)
    ensures WellTyped(TypeOfColumn(c))
  {
    match c
    case Nullables(_, inner) => SoundTypes(inner);
    case Arrays(_, inner) => SoundTypes(inner);
    case _ =>
  }

  // ---------- the column a saved slice loads as ----------

  function Image(c: Column, a: nat, b: nat): (d: Column)
    requires Sound(c) && a <= b <= Length(c)
    ensures TypeOfColumn(d) == TypeOfColumn(c)
  {
    match c
    case Numbers(prim, words) => Numbers(prim, words[a..b])
    case Strings(cells) => Strings(cells[a..b])
    case FixedStrings(width, buffer) =>
      FixedSlice(width, |buffer|, a, b);
      FixedStrings(width, buffer[a * width..b * width])
    case Decimals(shape, words) => Decimals(shape, words[a..b])
    case Enums(size, items, words) => Enums(size, items, words[a..b])
    case Nullables(nulls, inner) => Nullables(nulls[a..b], Image(inner, a, b))
    case Arrays(offsets, inner) => Arrays(offsets[a..b], Image(inner, 0, InnerEnd(offsets, a, b, inner)))
  }

  /** How many inner rows an array column saves with its rows `a` to `b - 1`. */
  function InnerEnd(offsets: seq<nat>, a: nat, b: nat, inner: Column): (n: nat)
    requires Rising(offsets) && a <= b <= |offsets| && EndOf(offsets, |offsets|) == Length(inner)
    ensures n <= Length(inner)
    ensures n == EndOf(offsets[a..b], b - a)
  {
    if a == b then 0 else offsets[b - 1]
  }

  lemma FitSlice(words: seq<nat>, w: nat, a: nat, b: nat)
    requires Fit(words, w) && a <= b <= |words|
    ensures Fit(words[a..b], w)
  {
  }

  lemma RisingSlice(offsets: seq<nat>, a: nat, b: nat)
    requires Rising(offsets) && a <= b <= |offsets|
    ensures Rising(offsets[a..b])
  {
  }

  lemma {:induction false} ImageSound(c: Column, a: nat, b: nat)
    requires Sound(c) && a <= b <= Length(c)
    ensures Sound(Image(c, a, b)) && Length(Image(c, a, b)) == b - a
  {
    hide Fit, Rising, WellTyped, Width, DecimalWidth, EnumWidth, FromPrecision;
    match c
    case Numbers(prim, words) => FitSlice(words, Width(prim), a, b);
    case Strings(_) =>
    case FixedStrings(width, buffer) => FixedSlice(width, |buffer|, a, b);
    case Decimals(shape, words) => FitSlice(words, DecimalWidth(shape.nobits), a, b);
    case Enums(size, _, words) => FitSlice(words, EnumWidth(size), a, b);
    case Nullables(nulls, inner) => ImageSound(inner, a, b);
    case Arrays(offsets, inner) =>
      ImageSound(inner, 0, InnerEnd(offsets, a, b, inner));
      FitSlice(offsets, 8, a, b);
      RisingSlice(offsets, a, b);
  }

  /** All the rows: the column itself. */
  lemma {:induction false} ImageWhole(c: Column)
    requires Sound(c)
    ensures Image(c, 0, Length(c)) == c
  {
    match c
    case FixedStrings(width, buffer) => FixedSlice(width, |buffer|, 0, Length(c));
    case Nullables(nulls, inner) => ImageWhole(inner);
    case Arrays(offsets, inner) =>
      assert InnerEnd(offsets, 0, |offsets|, inner) == Length(inner);
      ImageWhole(inner);
    case _ =>
  }

  lemma {:induction false} SaveLoadLeaf(c: Column, a: nat, b: nat, s: bytes, p: nat, name: bytes)
    requires Sound(c) && a <= b <= Length(c) && !c.Nullables? && !c.Arrays?
    requires Printable(TypeOfColumn(c)) && Holds(s, p, Save(c, a, b))
    ensures LoadLeaf(s, p, name, ShapeFor(TypeOfColumn(c)), b - a) == Ok(Image(c, a, b), p + |Save(c, a, b)|)
  {
    hide Words, Blobs, Pack, Holds, Printable, Print;
    match c
    case Numbers(prim, words) => WordsRoundTrip(s, p, words[a..b], Width(prim));
    case Strings(cells) => BlobsRoundTrip(s, p, cells[a..b]);
    case FixedStrings(width, buffer) =>
      FixedSlice(width, |buffer|, a, b);
      BytesRoundTrip(s, p, buffer[a * width..b * width]);
    case Decimals(shape, words) => WordsRoundTrip(s, p, words[a..b], DecimalWidth(shape.nobits));
    case Enums(size, items, words) => WordsRoundTrip(s, p, words[a..b], EnumWidth(size));
  }

  lemma BytesRoundTrip(s: bytes, p: nat, b: bytes)
    requires Holds(s, p, b)
    ensures Bytes(s, p, |b|) == Ok(b, p + |b|)
  {
  }

  lemma LoadNullable(s: bytes, p: nat, t: SqlType, size: nat, q: nat)
    requires p <= |s| && ShapeOf(Print(Nullable(t))) == NullableShape(Print(t))
    requires Bytes(s, p, size).Ok? && Bytes(s, p, size).pos == q
    ensures Load(s, p, Print(Nullable(t)), size) ==
      match Load(s, q, Print(t), size)
      case Ok(column, end) => Ok(Nullables(Bytes(s, p, size).value, column), end)
      case More => More
      case Err(e) => Err(e)
  {
    hide ShapeOf, Print, Bytes;
  }

  lemma LoadArray(s: bytes, p: nat, t: SqlType, size: nat, q: nat)
    requires p <= |s| && ShapeOf(Print(Array(t))) == ArrayShape(Print(t))
    requires Words(s, p, size, 8).Ok? && Words(s, p, size, 8).pos == q
    ensures var offsets := Words(s, p, size, 8).value;
      Load(s, p, Print(Array(t)), size) ==
      match Load(s, q, Print(t), EndOf(offsets, |offsets|))
      case Ok(column, end) => Ok(Arrays(offsets, column), end)
      case More => More
      case Err(e) => Err(e)
  {
    hide ShapeOf, Print, Words;
  }

  lemma LoadOther(s: bytes, p: nat, name: bytes, size: nat)
    requires p <= |s| && IsLeaf(ShapeOf(name))
    ensures Load(s, p, name, size) == LoadLeaf(s, p, name, ShapeOf(name), size)
  {
    hide ShapeOf, LoadLeaf;
  }

  ghost predicate Loads(c: Column, a: nat, b: nat, s: bytes, p: nat)
    requires Sound(c) && a <= b <= Length(c) && p <= |s|
  {
    Load(s, p, Print(TypeOfColumn(c)), b - a) == Ok(Image(c, a, b), p + |Save(c, a, b)|)
  }

  lemma NullablesParts(nulls: bytes, inner: Column, a: nat, b: nat)
    requires var c := Nullables(nulls, inner); Sound(c) && a <= b <= Length(c)
    ensures Sound(inner) && b <= Length(inner) == |nulls|
    ensures Save(Nullables(nulls, inner), a, b) == nulls[a..b] + Save(inner, a, b)
    ensures Image(Nullables(nulls, inner), a, b) == Nullables(nulls[a..b], Image(inner, a, b))
  {
  }

  lemma ArraysParts(offsets: seq<nat>, inner: Column, a: nat, b: nat)
    requires var c := Arrays(offsets, inner); Sound(c) && a <= b <= Length(c)
    ensures Sound(inner) && Fit(offsets[a..b], 8)
    ensures Rising(offsets) && EndOf(offsets, |offsets|) == Length(inner)
    ensures var n := InnerEnd(offsets, a, b, inner);
            && Save(Arrays(offsets, inner), a, b) == Pack(offsets[a..b], 8) + Save(inner, 0, n)
            && Image(Arrays(offsets, inner), a, b) == Arrays(offsets[a..b], Image(inner, 0, n))
  {
  }

  lemma NullablesLoad(nulls: bytes, inner: Column, a: nat, b: nat, s: bytes, p: nat)
    requires var c := Nullables(nulls, inner);
             Sound(c) && a <= b <= Length(c) && Printable(TypeOfColumn(c)) && Holds(s, p, Save(c, a, b))
    ensures Holds(s, p + (b - a), Save(inner, a, b))
    ensures Loads(inner, a, b, s, p + (b - a)) ==> Loads(Nullables(nulls, inner), a, b, s, p)
  {
    hide ShapeOf, Print, Load, Bytes, Printable, Save, Image, Holds, WellTyped, Sound;
    var c := Nullables(nulls, inner);
    NullablesParts(nulls, inner, a, b);
    SoundTypes(c);
    PrintedShape(TypeOfColumn(c));
    HoldsSplit(s, p, nulls[a..b], Save(inner, a, b));
    BytesRoundTrip(s, p, nulls[a..b]);
    LoadNullable(s, p, TypeOfColumn(inner), b - a, p + (b - a));
  }

  lemma ArraysLoad(offsets: seq<nat>, inner: Column, a: nat, b: nat, s: bytes, p: nat)
    requires var c := Arrays(offsets, inner);
             Sound(c) && a <= b <= Length(c) && Printable(TypeOfColumn(c)) && Holds(s, p, Save(c, a, b))
    ensures var n, q := InnerEnd(offsets, a, b, inner), p + |Pack(offsets[a..b], 8)|;
            && Holds(s, q, Save(inner, 0, n))
            && (Loads(inner, 0, n, s, q) ==> Loads(Arrays(offsets, inner), a, b, s, p))
  {
    hide ShapeOf, Print, Load, Words, Pack, Printable, Save, Image, Holds, Fit, WellTyped, Sound, Rising;
    var c := Arrays(offsets, inner);
    ArraysParts(offsets, inner, a, b);
    var n, w := InnerEnd(offsets, a, b, inner), Pack(offsets[a..b], 8);
    SoundTypes(c);
    PrintedShape(TypeOfColumn(c));
    HoldsSplit(s, p, w, Save(inner, 0, n));
    WordsRoundTrip(s, p, offsets[a..b], 8);
    LoadArray(s, p, TypeOfColumn(inner), b - a, p + |w|);
  }

  /** Rows `a` to `b - 1`, saved, load under the printed type as `Image(c, a, b)`, and exactly the
      saved bytes are consumed. */
  lemma {:induction false} SaveLoad(c: Column, a: nat, b: nat, s: bytes, p: nat)
    requires Sound(c) && a <= b <= Length(c)
    requires Printable(TypeOfColumn(c)) && Holds(s, p, Save(c, a, b))
    ensures Load(s, p, Print(TypeOfColumn(c)), b - a) == Ok(Image(c, a, b), p + |Save(c, a, b)|)
    decreases c
  {
    hide ShapeOf, Words, Pack, Print, LoadLeaf, Load, Bytes, Save, Image, Holds, Sound;
    match c
    case Nullables(nulls, inner) =>
      NullablesParts(nulls, inner, a, b);
      NullablesLoad(nulls, inner, a, b, s, p);
      SaveLoad(inner, a, b, s, p + (b - a));
    case Arrays(offsets, inner) =>
      ArraysParts(offsets, inner, a, b);
      ArraysLoad(offsets, inner, a, b, s, p);
      SaveLoad(inner, 0, InnerEnd(offsets, a, b, inner), s, p + |Pack(offsets[a..b], 8)|);
    case _ =>
      LeafLoad(c, a, b, s, p);
  }

  lemma LeafShape(c: Column, shape: Shape)
    requires !c.Nullables? && !c.Arrays? && Printable(TypeOfColumn(c)) && shape == ShapeFor(TypeOfColumn(c))
    ensures IsLeaf(shape)
  {
  }

  lemma LeafLoad(c: Column, a: nat, b: nat, s: bytes, p: nat)
    requires Sound(c) && a <= b <= Length(c) && !c.Nullables? && !c.Arrays?
    requires Printable(TypeOfColumn(c)) && Holds(s, p, Save(c, a, b))
    ensures Loads(c, a, b, s, p)
  {
    hide ShapeOf, Print, LoadLeaf, Load, Save, Image, Sound, TypeOfColumn, ShapeFor, Printable, WellTyped;
    SoundTypes(c);
    PrintedShape(TypeOfColumn(c));
    LeafShape(c, ShapeOf(Print(TypeOfColumn(c))));
    LoadOther(s, p, Print(TypeOfColumn(c)), b - a);
    SaveLoadLeaf(c, a, b, s, p, Print(TypeOfColumn(c)));
  }

  /** A column's bytes load as that column exactly when its type is printable. */
  lemma ColumnRoundTrip(c: Column, s: bytes, p: nat)
    requires Sound(c) && Holds(s, p, Save(c, 0, Length(c)))
    ensures Load(s, p, Print(TypeOfColumn(c)), Length(c)) == Ok(c, p + |Save(c, 0, Length(c))|)
       <==> Printable(TypeOfColumn(c))
  {
    hide Load, Save, Image, Sound, Print, TypeOf, Printable, WellTyped, LengthPanics;
    if Printable(TypeOfColumn(c)) {
      SaveLoad(c, 0, Length(c), s, p);
      ImageWhole(c);
    }
    if Load(s, p, Print(TypeOfColumn(c)), Length(c)).Ok? {
      LoadedColumn(s, p, Print(TypeOfColumn(c)), Length(c));
      SoundTypes(c);
      NameRoundTrip(TypeOfColumn(c));
    }
  }

  // ---------- the rows of a slice ----------

  /** Whether row `a` survives being the first row of a saved slice: an array row keeps no start of
      its own, so every array before it must be empty, unless a null hides the row. */
  predicate StartsClean(c: Column, a: nat)
    requires Sound(c) && a < Length(c)
  {
    match c
    case Nullables(nulls, inner) => nulls[a] == 1 || StartsClean(inner, a)
    case Arrays(offsets, _) => EndOf(offsets, a) == 0
    case _ => true
  }

  lemma {:induction false} ImageRow(c: Column, a: nat, b: nat, k: nat)
    requires Sound(c) && a <= b <= Length(c) && k < b - a
    ensures Sound(Image(c, a, b)) && Length(Image(c, a, b)) == b - a
    ensures k > 0 || StartsClean(c, a) ==> At(Image(c, a, b), k) == At(c, a + k)
    ensures k == 0 && !StartsClean(c, a) ==> At(Image(c, a, b), k) != At(c, a + k)
    decreases c, 1
  {
    ImageSound(c, a, b);
    match c
    case FixedStrings(width, buffer) => FixedRow(width, buffer, a, b, k);
    case Nullables(nulls, inner) =>
      NullablesParts(nulls, inner, a, b);
      ImageRow(inner, a, b, k);
      NullableRow(nulls, inner, a, b, k);
    case Arrays(offsets, inner) => ArrayRow(offsets, inner, a, b, k);
    case _ =>
  }

  lemma NullableRow(nulls: bytes, inner: Column, a: nat, b: nat, k: nat)
    requires var c := Nullables(nulls, inner); Sound(c) && a <= b <= Length(c) && k < b - a
    requires Sound(inner) && Sound(Image(inner, a, b)) && b <= Length(inner) == |nulls|
    requires Length(Image(inner, a, b)) == b - a
    requires k > 0 || StartsClean(inner, a) ==> At(Image(inner, a, b), k) == At(inner, a + k)
    requires k == 0 && !StartsClean(inner, a) ==> At(Image(inner, a, b), k) != At(inner, a + k)
    ensures var c := Nullables(nulls, inner);
            && Sound(Image(c, a, b)) && k < Length(Image(c, a, b))
            && (k > 0 || StartsClean(c, a) ==> At(Image(c, a, b), k) == At(c, a + k))
            && (k == 0 && !StartsClean(c, a) ==> At(Image(c, a, b), k) != At(c, a + k))
  {
    ImageSound(Nullables(nulls, inner), a, b);
    hide Fit, Rising, WellTyped, FromPrecision, Pow256;
  }

  lemma FixedRow(width: u64, buffer: bytes, a: nat, b: nat, k: nat)
    requires Sound(FixedStrings(width, buffer)) && a <= b <= Length(FixedStrings(width, buffer)) && k < b - a
    ensures var c := FixedStrings(width, buffer);
            Sound(Image(c, a, b)) && k < Length(Image(c, a, b)) && At(Image(c, a, b), k) == At(c, a + k)
  {
    var c := FixedStrings(width, buffer);
    ImageSound(c, a, b);
    FixedSlice(width, |buffer|, a, b);
    FixedSlice(width, |buffer|, a + k, a + k + 1);
    Scaled(a, a + k, width);
    Scaled(a, a + k + 1, width);
    Scaled(a + k + 1, b, width);
    assert (k + 1) * width == (a + k + 1) * width - a * width;
    assert buffer[a * width..b * width][k * width..(k + 1) * width]
        == buffer[(a + k) * width..(a + k + 1) * width];
  }

  lemma {:induction false} ArrayRow(offsets: seq<nat>, inner: Column, a: nat, b: nat, k: nat)
    requires Sound(Arrays(offsets, inner)) && a <= b <= |offsets| && k < b - a
    ensures var c := Arrays(offsets, inner);
            && Sound(Image(c, a, b)) && k < Length(Image(c, a, b))
            && (At(Image(c, a, b), k) == At(c, a + k) <==> k > 0 || EndOf(offsets, a) == 0)
    decreases Arrays(offsets, inner), 0
  {
    var c := Arrays(offsets, inner);
    var n := InnerEnd(offsets, a, b, inner);
    ImageSound(c, a, b);
    ImageSound(inner, 0, n);
    var start, end := if k > 0 then offsets[a + k - 1] else 0, offsets[a + k];
    assert end <= n && start <= end;
    RowsOfImage(inner, n, start, end);
    assert At(Image(c, a, b), k) == ArrayCell(TypeOfColumn(inner), Rows(inner, start, end));
    assert At(c, a + k) == ArrayCell(TypeOfColumn(inner), Rows(inner, EndOf(offsets, a + k), end));
  }

  /** A slice from row 0 has its rows unchanged. */
  lemma {:induction false} RowsOfImage(c: Column, n: nat, a: nat, b: nat)
    requires Sound(c) && n <= Length(c) && a <= b <= n
    ensures Sound(Image(c, 0, n)) && Length(Image(c, 0, n)) == n
    ensures Rows(Image(c, 0, n), a, b) == Rows(c, a, b)
    decreases c, 2
  {
    hide Image, Sound, StartsClean, At, Length, Rows;
    ImageSound(c, 0, n);
    var x, y := Rows(Image(c, 0, n), a, b), Rows(c, a, b);
    forall k | 0 <= k < b - a ensures x[k] == y[k] {
      FirstIsClean(c);
      ImageRow(c, 0, n, a + k);
      assert x[k] == At(Image(c, 0, n), a + k) && y[k] == At(c, a + k);
    }
    assert x == y;
  }

  lemma {:induction false} FirstIsClean(c: Column)
    requires Sound(c)
    ensures Length(c) > 0 ==> StartsClean(c, 0)
  {
    match c
    case Nullables(_, inner) => FirstIsClean(inner);
    case _ =>
  }

  /** The rows of the column that a saved slice loads as. */
  lemma ImageRows(c: Column, a: nat, b: nat)
    requires Sound(c) && a <= b <= Length(c)
    ensures var e := Image(c, a, b);
            && Sound(e) && Length(e) == b - a && TypeOfColumn(e) == TypeOfColumn(c)
            && (Rows(e, 0, b - a) == Rows(c, a, b) <==> a == b || StartsClean(c, a))
  {
    ImageSound(c, a, b);
    hide Image, Sound, StartsClean, At, TypeOfColumn, Length;
    var e := Image(c, a, b);
    if a < b {
      forall k | 0 <= k < b - a
        ensures k > 0 || StartsClean(c, a) ==> Rows(e, 0, b - a)[k] == Rows(c, a, b)[k]
      {
        ImageRow(c, a, b, k);
      }
      ImageRow(c, a, b, 0);
      assert Rows(e, 0, b - a)[0] == At(e, 0) && Rows(c, a, b)[0] == At(c, a);
    }
  }

  /** The slice law: the loaded rows of a saved, non-empty slice are the rows `a` to `b - 1` of the
      column exactly when row `a` can stand first. */
  lemma SliceLaw(c: Column, a: nat, b: nat, s: bytes, p: nat)
    requires Sound(c) && a < b <= Length(c)
    requires Printable(TypeOfColumn(c)) && Holds(s, p, Save(c, a, b))
    ensures var d := Load(s, p, Print(TypeOfColumn(c)), b - a);
            && d.Ok? && d.pos == p + |Save(c, a, b)|
            && Sound(d.value) && Length(d.value) == b - a
            && (Rows(d.value, 0, b - a) == Rows(c, a, b) <==> StartsClean(c, a))
  {
    hide Load, Save, Image, Sound, StartsClean, Printable, Holds, At, Print, TypeOfColumn, Length, Rows;
    SaveLoad(c, a, b, s, p);
    ImageRows(c, a, b);
  }

  /** The column of the arrays [7] and [8], and what its second row is saved as. */
  lemma TwoArrays()
    ensures var c, e := Arrays([1, 2], Numbers(UInt8, [7, 8])), Arrays([2], Numbers(UInt8, [7, 8]));
            && Sound(c) && Length(c) == 2 && TypeOfColumn(c) == Array(Scalar(UInt8)) && Image(c, 1, 2) == e
            && Sound(e) && Length(e) == 1
  {
    assert Pow256(1) == 256;
    PowerRises(8);
  }

  lemma {:induction false} PowerRises(n: nat)
    requires n > 0
    ensures Pow256(n) >= 256
  {
    if n > 1 { PowerRises(n - 1); }
  }

  lemma ArrayShown(offsets: seq<nat>, a: nat, b: nat)
    requires |offsets| > 0 && EndOf(offsets, |offsets| - 1) == a && offsets[|offsets| - 1] == b && a < b <= 2
    requires Sound(Arrays(offsets, Numbers(UInt8, [7, 8])))
    ensures At(Arrays(offsets, Numbers(UInt8, [7, 8])), |offsets| - 1)
         == ArrayCell(Scalar(UInt8), [Number(UInt8, 7), Number(UInt8, 8)][a..b])
  {
    hide Fit;
    var inner := Numbers(UInt8, [7, 8]);
    assert Rows(inner, a, b) == [Number(UInt8, 7), Number(UInt8, 8)][a..b];
  }

  /** The second of the arrays [7] and [8], saved as a slice, loads as [7, 8]. */
  lemma SecondArray(s: bytes, p: nat)
    requires Holds(s, p, Save(Arrays([1, 2], Numbers(UInt8, [7, 8])), 1, 2))
    ensures var c, d := Arrays([1, 2], Numbers(UInt8, [7, 8])), Load(s, p, Print(Array(Scalar(UInt8))), 1);
            var seven, eight := Number(UInt8, 7), Number(UInt8, 8);
            && At(c, 1) == ArrayCell(Scalar(UInt8), [eight])
            && d.Ok? && Sound(d.value) && Length(d.value) == 1
            && At(d.value, 0) == ArrayCell(Scalar(UInt8), [seven, eight])
  {
    hide Load, Save, Holds, Print, Sound, Image, At, Length, TypeOfColumn;
    TwoArrays();
    SaveLoad(Arrays([1, 2], Numbers(UInt8, [7, 8])), 1, 2, s, p);
    ArrayShown([1, 2], 1, 2);
    ArrayShown([2], 0, 2);
    var cells := [Number(UInt8, 7), Number(UInt8, 8)];
    assert cells[1..2] == [cells[1]] && cells[0..2] == cells;
  }

  /** Two arrays of numbers whose offsets fall load as they are, and are of no use. */
  lemma FallingOffsets(s: bytes, p: nat)
    requires Holds(s, p, Pack([2, 1], 8) + [7])
    ensures p <= |s|
    ensures var c := Arrays([2, 1], Numbers(UInt8, [7]));
            Load(s, p, Print(Array(Scalar(UInt8))), 2) == Ok(c, p + 17) && !Sound(c)
  {
    hide Load, Holds, Print, ShapeOf, Words, Pack, ToLittleEndian;
    HoldsSplit(s, p, Pack([2, 1], 8), [7]);
    HoldsInside(s, p, Pack([2, 1], 8) + [7]);
    PowerRises(8);
    WordsRoundTrip(s, p, [2, 1], 8);
    PrintedShape(Array(Scalar(UInt8)));
    LoadArray(s, p, Scalar(UInt8), 2, p + 16);
    PrintedShape(Scalar(UInt8));
    LoadOther(s, p + 16, Print(Scalar(UInt8)), 1);
    OneByte(7);
    WordsRoundTrip(s, p + 16, [7], 1);
    assert [2, 1][0] > [2, 1][1];
  }

  lemma OneByte(b: byte)
    ensures Pack([b], 1) == [b] && Fit([b], 1)
  {
    assert Pow256(1) == 256;
  }

  /** Fixed strings of no width load for any number of rows, and have none. */
  lemma NoWidth(s: bytes, p: nat, size: nat)
    requires p <= |s|
    ensures Load(s, p, Print(FixedString(0)), size) == Ok(FixedStrings(0, []), p) && !Sound(FixedStrings(0, []))
  {
    hide Load, Print, ShapeOf;
    PrintedShape(FixedString(0));
    LoadOther(s, p, Print(FixedString(0)), size);
    assert s[p..p] == [];
  }
}
