/** Blocks cast to a header, written through the adapters, and loaded. */
module CastBlocks {
  import opened Basics
  import opened Text
  import opened Varint
  import opened Decoders
  import opened TypeNames
  import opened TypeNameRoundTrip
  import opened Columns
  import opened ColumnRoundTrip
  import opened Views
  import opened Blocks
  import opened BlockRoundTrip
  import opened Encoding
  import opened Decimals
  import opened Casting

  /** A column after `cast_to`: itself when it has the type, the addresses parsed from its texts, or an adapter around
      it. */
  datatype CastData = Same(view: View) | Stored(column: Column, view: View) | Adapted(cast: Cast, view: View)

  datatype NamedCast = NamedCast(name: bytes, data: CastData)

  function CastOne(net: Addresses, c: NamedColumn, dst: SqlType): Result<NamedCast>
    requires SoundView(c.data)
  {
    var src := ViewType(c.data);
    if dst == src then Success(NamedCast(c.name, Same(c.data)))
    else if IsAddressCast(dst, src) then
      TextRows(c.data);
      var words :- ParsedWords(net, dst.prim, ViewRows(c.data));
      Success(NamedCast(c.name, Stored(Numbers(dst.prim, words), c.data)))
    else
      var cast :- CastFor(dst, src);
      Success(NamedCast(c.name, Adapted(cast, c.data)))
  }

  ghost predicate AllViews(columns: seq<NamedColumn>) {
    forall i | 0 <= i < |columns| :: SoundView(columns[i].data)
  }

  /** The columns cast one after the other to the types of the header columns in the same places. The first that
      cannot be cast decides. */
  function CastColumns(net: Addresses, columns: seq<NamedColumn>, header: seq<NamedColumn>): Result<seq<NamedCast>>
    requires |columns| == |header| && AllViews(columns)
  {
    if |columns| == 0 then Success([])
    else
      var n := |columns| - 1;
      var done :- CastColumns(net, columns[..n], header[..n]);
      var c :- CastOne(net, columns[n], ViewType(header[n].data));
      Success(done + [c])
  }

  lemma CastStep(net: Addresses, columns: seq<NamedColumn>, header: seq<NamedColumn>, n: nat)
    requires |columns| == |header| && AllViews(columns) && n < |columns|
    ensures AllViews(columns[..n]) && AllViews(columns[..n + 1])
    ensures var done := CastColumns(net, columns[..n], header[..n]);
            var one := CastOne(net, columns[n], ViewType(header[n].data));
            CastColumns(net, columns[..n + 1], header[..n + 1])
            == if done.Failure? then done
               else if one.Failure? then Failure(one.error)
               else Success(done.value + [one.value])
  {
    hide CastOne, SoundView;
    assert columns[..n + 1][..n] == columns[..n] && header[..n + 1][..n] == header[..n];
  }

  lemma {:induction false} CastFails(net: Addresses, columns: seq<NamedColumn>, header: seq<NamedColumn>, n: nat)
    requires |columns| == |header| && n <= |columns| && AllViews(columns)
    requires CastColumns(net, columns[..n], header[..n]).Failure?
    ensures CastColumns(net, columns, header) == CastColumns(net, columns[..n], header[..n])
    decreases |columns|
  {
    hide CastOne, CastColumns, SoundView;
    if n == |columns| {
      assert columns[..n] == columns && header[..n] == header;
    } else {
      var m := |columns| - 1;
      assert columns[..m][..n] == columns[..n] && header[..m][..n] == header[..n];
      assert columns[..m + 1] == columns && header[..m + 1] == header;
      CastFails(net, columns[..m], header[..m], n);
      CastStep(net, columns, header, m);
    }
  }

  /** `Column::cast_to`. */
  method CastTo(net: Addresses, c: NamedColumn, dst: SqlType) returns (r: Result<NamedCast>)
    requires SoundView(c.data)
    ensures r == CastOne(net, c, dst)
  {
    hide SoundView, ViewAt, ParsedWords, CastFor;
    var src := ViewType(c.data);
    if dst != src && IsAddressCast(dst, src) {
      TextRows(c.data);
      var words :- ParseTexts(net, dst.prim, ViewRows(c.data));
      return Success(NamedCast(c.name, Stored(Numbers(dst.prim, words), c.data)));
    }
    return CastOne(net, c, dst);
  }

  /** `Block::cast_to`: the columns are reversed and taken from the end. */
  method CastBlock(net: Addresses, b: Block, head: Block) returns (r: Result<seq<NamedCast>>)
    requires AllViews(b.columns)
    ensures |head.columns| != |b.columns| ==> r == Failure(OutOfRange)
    ensures |head.columns| == |b.columns| ==> r == CastColumns(net, b.columns, head.columns)
  {
    hide SoundView, CastOne, CastColumns, ViewType;
    var columns, header := b.columns, head.columns;
    var stack: seq<NamedColumn> := [];
    for i := 0 to |columns|
      invariant |stack| == i && forall k | 0 <= k < i :: stack[k] == columns[i - 1 - k]
    {
      stack := [columns[i]] + stack;
    }
    if |header| != |stack| {
      return Failure(OutOfRange);
    }
    var cast: seq<NamedCast> := [];
    NothingCast(net);
    for i := 0 to |header|
      invariant |stack| == |columns| - i && forall k | 0 <= k < |stack| :: stack[k] == columns[|columns| - 1 - k]
      invariant CastColumns(net, columns[..i], header[..i]) == Success(cast)
    {
      var column := stack[|stack| - 1];
      stack := stack[..|stack| - 1];
      CastStep(net, columns, header, i);
      var one := CastTo(net, column, ViewType(header[i].data));
      if one.Failure? {
        CastFails(net, columns, header, i + 1);
        return Failure(one.error);
      }
      cast := cast + [one.value];
    }
    assert columns[..|header|] == columns && header[..|header|] == header;
    return Success(cast);
  }

  lemma NothingCast(net: Addresses)
    ensures CastColumns(net, [], []) == Success([])
  {
  }

  // ---------- writing through an adapter ----------

  method SaveFixed(encoder: Encoder, n: u64, cells: seq<Cell>)
    requires AllCastable(ToFixed(n), cells)
    modifies encoder
    ensures encoder.buffer == old(encoder.buffer) + FixedRows(cells, n)
  {
    hide IsBytes, BytesOf, Resized;
    for i := 0 to |cells|
      invariant encoder.buffer == old(encoder.buffer) + FixedRows(cells[..i], n)
    {
      assert cells[..i + 1][..i] == cells[..i];
      var buffer := Resized(BytesOf(cells[i]), n);
      encoder.WriteBytes(buffer);
      Regroup(old(encoder.buffer), FixedRows(cells[..i], n), buffer);
    }
    assert cells[..|cells|] == cells;
  }

  method SaveTexts(encoder: Encoder, cells: seq<Cell>)
    requires AllCastable(ToText, cells)
    modifies encoder
    ensures encoder.buffer
         == old(encoder.buffer) + EncodeBlobs(seq(|cells|, k requires 0 <= k < |cells| => BytesOf(cells[k])))
  {
    hide EncodeBlob;
    ghost var texts := seq(|cells|, k requires 0 <= k < |cells| => BytesOf(cells[k]));
    for i := 0 to |cells|
      invariant encoder.buffer == old(encoder.buffer) + EncodeBlobs(texts[..i])
    {
      assert texts[..i + 1] == texts[..i] + [texts[i]];
      EncodeBlobsAppend(texts[..i], texts[i]);
      encoder.ByteString(BytesOf(cells[i]));
    }
    assert texts[..|cells|] == texts;
  }

  method SaveDecimals(encoder: Encoder, shape: DecimalShape, cells: seq<Cell>) returns (r: Result<()>)
    requires AllCastable(ToDecimal(shape), cells)
    modifies encoder
    ensures var words := DecimalWords(cells, shape);
            && (words.Failure? ==> r == Failure(words.error))
            && (words.Success? ==>
                  r.Success? && encoder.buffer == old(encoder.buffer) + Pack(words.value, DecimalWidth(shape.nobits)))
  {
    hide ToLittleEndian, SetScale, Wrapped;
    var w := DecimalWidth(shape.nobits);
    ghost var words: seq<nat> := [];
    for i := 0 to |cells|
      invariant DecimalWords(cells[..i], shape) == Success(words)
      invariant encoder.buffer == old(encoder.buffer) + Pack(words, w)
    {
      assert cells[..i + 1][..i] == cells[..i];
      var rescaled := Rescaled(shape, cells[i]);
      if rescaled.Failure? {
        DecimalsFail(cells, shape, i + 1);
        return Failure(rescaled.error);
      }
      var word := Wrapped(rescaled.value.underlying, w);
      PackAppend(words, word, w);
      encoder.WriteWord(word, w);
      words := words + [word];
    }
    assert cells[..|cells|] == cells;
    return Success(());
  }

  lemma {:induction false} DecimalsFail(cells: seq<Cell>, shape: DecimalShape, n: nat)
    requires AllCastable(ToDecimal(shape), cells) && n <= |cells| && DecimalWords(cells[..n], shape).Failure?
    ensures DecimalWords(cells, shape) == DecimalWords(cells[..n], shape)
    decreases |cells|
  {
    hide SetScale, Wrapped, DecimalWords;
    if n == |cells| {
      assert cells[..n] == cells;
    } else {
      var m := |cells| - 1;
      assert cells[..m][..n] == cells[..n];
      DecimalsFail(cells[..m], shape, n);
      DecimalsStop(cells, shape);
    }
  }

  lemma DecimalsStop(cells: seq<Cell>, shape: DecimalShape)
    requires AllCastable(ToDecimal(shape), cells) && |cells| > 0
    ensures var front := DecimalWords(cells[..|cells| - 1], shape);
            front.Failure? ==> DecimalWords(cells, shape) == front
  {
    hide Rescaled, Wrapped;
  }

  method SaveEnums(encoder: Encoder, size: EnumSize, items: seq<Item>, cells: seq<Cell>)
    requires AllCastable(ToEnum(size, items), cells)
    modifies encoder
    ensures var w := EnumWidth(size);
            encoder.buffer == old(encoder.buffer)
              + Pack(seq(|cells|, k requires 0 <= k < |cells| => Wrapped(cells[k].value, w)), w)
  {
    hide ToLittleEndian, Wrapped;
    var w := EnumWidth(size);
    ghost var words := seq(|cells|, k requires 0 <= k < |cells| => Wrapped(cells[k].value, w));
    for i := 0 to |cells|
      invariant encoder.buffer == old(encoder.buffer) + Pack(words[..i], w)
    {
      assert words[..i + 1] == words[..i] + [words[i]];
      PackAppend(words[..i], words[i], w);
      encoder.WriteWord(Wrapped(cells[i].value, w), w);
    }
    assert words[..|cells|] == words;
  }

  /** The null flags and the values of the rows, in two vectors. */
  method Separate(cast: Cast, cells: seq<Cell>) returns (nulls: bytes, values: seq<Cell>)
    requires AllCastable(ToNullable(cast), cells)
    ensures nulls == Flags(cells) && values == Unwrapped(cast, cells)
  {
    hide Castable;
    nulls, values := [], [];
    for i := 0 to |cells|
      invariant nulls == Flags(cells)[..i] && values == Unwrapped(cast, cells)[..i]
    {
      if cells[i].Present? {
        nulls, values := nulls + [0], values + [cells[i].cell];
      } else {
        nulls, values := nulls + [if cells[i].Null? then 1 else 0], values + [Blank(cast)];
      }
    }
  }

  /** The bytes an adapter writes for some rows. */
  function CastBytes(cast: Cast, cells: seq<Cell>): Result<bytes>
    requires AllCastable(cast, cells)
    decreases cast
  {
    match cast
    case ToFixed(n) => Success(FixedRows(cells, n))
    case ToText => Success(EncodeBlobs(seq(|cells|, k requires 0 <= k < |cells| => BytesOf(cells[k]))))
    case ToDecimal(shape) =>
      var words :- DecimalWords(cells, shape);
      Success(Pack(words, DecimalWidth(shape.nobits)))
    case ToEnum(size, items) =>
      var w := EnumWidth(size);
      Success(Pack(seq(|cells|, k requires 0 <= k < |cells| => Wrapped(cells[k].value, w)), w))
    case ToNullable(inner) =>
      UnwrappedCastable(inner, cells);
      var values :- CastBytes(inner, Unwrapped(inner, cells));
      Success(Flags(cells) + values)
  }

  lemma OneNull(cast: Cast, t: SqlType)
    requires Castable(ToNullable(cast), Null(t)) && Castable(cast, Blank(cast))
    ensures AllCastable(ToNullable(cast), [Null(t)]) && AllCastable(cast, [Blank(cast)])
    ensures CastBytes(cast, [Blank(cast)]).Success? ==>
              CastBytes(ToNullable(cast), [Null(t)]) == Success([1] + CastBytes(cast, [Blank(cast)]).value)
  {
    hide CastBytes, Castable, Blank;
    assert Unwrapped(cast, [Null(t)]) == [Blank(cast)] && Flags([Null(t)]) == [1];
    NullStep(cast, [Null(t)]);
  }

  lemma NullStep(cast: Cast, cells: seq<Cell>)
    requires AllCastable(ToNullable(cast), cells) && AllCastable(cast, Unwrapped(cast, cells))
    ensures var values := CastBytes(cast, Unwrapped(cast, cells));
            values.Success? ==> CastBytes(ToNullable(cast), cells) == Success(Flags(cells) + values.value)
  {
    hide FixedRows, Pack, EncodeBlobs, DecimalWords, Castable, Wrapped, Flags, Unwrapped;
  }

  /** A null is written as its flag and a zero for each byte of its value. */
  lemma NullBytes(t: SqlType, shape: DecimalShape, size: EnumSize, items: seq<Item>)
    ensures AllCastable(ToNullable(ToFixed(2)), [Null(t)])
    ensures CastBytes(ToNullable(ToFixed(2)), [Null(t)]) == Success([1, 0, 0])
    ensures AllCastable(ToNullable(ToDecimal(shape)), [Null(t)])
    ensures CastBytes(ToNullable(ToDecimal(shape)), [Null(t)])
         == Success(if shape.nobits == N32 then [1, 0, 0, 0, 0] else [1, 0, 0, 0, 0, 0, 0, 0, 0])
    ensures AllCastable(ToNullable(ToEnum(size, items)), [Null(t)])
    ensures CastBytes(ToNullable(ToEnum(size, items)), [Null(t)]) == Success(if size == E8 then [1, 0] else [1, 0, 0])
  {
    FixedNull();
    DecimalNull(shape);
    EnumNull(size, items);
    hide FixedRows, CastBytes, DecimalWords;
    OneNull(ToFixed(2), t);
    OneNull(ToDecimal(shape), t);
    OneNull(ToEnum(size, items), t);
    assert [1] + [0] == [1, 0] && [1] + [0, 0] == [1, 0, 0] && [1] + [0, 0, 0, 0] == [1, 0, 0, 0, 0];
    assert [1] + [0, 0, 0, 0, 0, 0, 0, 0] == [1, 0, 0, 0, 0, 0, 0, 0, 0];
  }

  lemma FixedNull()
    ensures CastBytes(ToFixed(2), [Text([])]) == Success([0, 0])
  {
    assert [Text([])][..0] == [];
    assert FixedRows([Text([])], 2) == [0, 0];
  }

  lemma DecimalNull(shape: DecimalShape)
    ensures CastBytes(ToDecimal(shape), [DecimalCell(shape, 0)])
         == Success(if shape.nobits == N32 then [0, 0, 0, 0] else [0, 0, 0, 0, 0, 0, 0, 0])
  {
    hide Wrapped, Pack;
    var cells := [DecimalCell(shape, 0)];
    var w := DecimalWidth(shape.nobits);
    WrapsZero(w);
    assert cells[..0] == [] && DecimalWords([], shape) == Success([]);
    assert Rescaled(shape, cells[0]).value.underlying == 0;
    assert DecimalWords(cells, shape) == Success([] + [0]);
    assert [] + [0] == [0];
    OneZero(w);
  }

  lemma OneZero(w: nat)
    ensures w == 1 ==> Pack([0], w) == [0]
    ensures w == 2 ==> Pack([0], w) == [0, 0]
    ensures w == 4 ==> Pack([0], w) == [0, 0, 0, 0]
    ensures w == 8 ==> Pack([0], w) == [0, 0, 0, 0, 0, 0, 0, 0]
  {
    hide Pack;
    assert Pack([0], w) == ToLittleEndian(0, w) by { OneWord(w); }
    NoBytes(w);
  }

  lemma OneWord(w: nat)
    ensures Pack([0], w) == ToLittleEndian(0, w)
  {
    assert [0][1..] == [] && Pack([], w) == [];
  }

  lemma {:induction false} NoBytes(w: nat)
    ensures ToLittleEndian(0, w) == seq(w, _ => 0)
  {
    if w > 0 {
      NoBytes(w - 1);
    }
  }

  lemma EnumNull(size: EnumSize, items: seq<Item>)
    ensures CastBytes(ToEnum(size, items), [EnumCell(size, items, 0)])
         == Success(if size == E8 then [0] else [0, 0])
  {
    hide Wrapped, Pack;
    var w := EnumWidth(size);
    WrapsZero(w);
    var cells := [EnumCell(size, items, 0)];
    assert seq(1, k requires 0 <= k < 1 => Wrapped(cells[k].value, w)) == [0];
    OneZero(w);
  }

  /** The adapter writes what `save` of the cast column would, and fails where there is none. */
  lemma {:induction false} CastBytesSave(cast: Cast, cells: seq<Cell>)
    requires AllCastable(cast, cells) && GoodCast(cast) && (cast.ToNullable? ==> !cast.inner.ToNullable?)
    ensures var column, written := CastColumn(cast, cells), CastBytes(cast, cells);
            && (column.Failure? ==> written == Failure(column.error))
            && (column.Success? ==>
                  && Sound(column.value) && Length(column.value) == |cells|
                  && written == Success(Save(column.value, 0, |cells|)))
    decreases cast
  {
    hide FixedRows, Pack, EncodeBlobs, DecimalWords, GoodCast, Castable, Wrapped;
    if CastColumn(cast, cells).Success? {
      CastSound(cast, cells);
      WholeSave(CastColumn(cast, cells).value);
    }
    match cast
    case ToNullable(inner) =>
      NullableGood(inner, cells);
      CastBytesSave(inner, Unwrapped(inner, cells));
    case _ =>
  }

  /** `save` of an adapter over some rows, or the panic of a rescaling that fails. */
  method SaveCast(encoder: Encoder, cast: Cast, cells: seq<Cell>) returns (r: Result<()>)
    requires AllCastable(cast, cells)
    modifies encoder
    ensures var written := CastBytes(cast, cells);
            && (written.Failure? ==> r == Failure(written.error))
            && (written.Success? ==> r.Success? && encoder.buffer == old(encoder.buffer) + written.value)
    decreases cast
  {
    hide FixedRows, Pack, EncodeBlobs, DecimalWords, Castable, Wrapped;
    match cast
    case ToFixed(n) =>
      SaveFixed(encoder, n, cells);
      return Success(());
    case ToText =>
      SaveTexts(encoder, cells);
      return Success(());
    case ToDecimal(shape) =>
      r := SaveDecimals(encoder, shape, cells);
    case ToEnum(size, items) =>
      SaveEnums(encoder, size, items, cells);
      return Success(());
    case ToNullable(inner) =>
      var nulls, values := Separate(inner, cells);
      UnwrappedCastable(inner, cells);
      encoder.WriteBytes(nulls);
      r := SaveCast(encoder, inner, values);
      if r.Success? {
        Regroup(old(encoder.buffer), nulls, CastBytes(inner, values).value);
      }
  }

  lemma NullableGood(inner: Cast, cells: seq<Cell>)
    requires AllCastable(ToNullable(inner), cells) && GoodCast(ToNullable(inner)) && !inner.ToNullable?
    ensures AllCastable(inner, Unwrapped(inner, cells)) && GoodCast(inner)
  {
    UnwrappedCastable(inner, cells);
  }

  /** `save` of all rows of a column without slices: everything it holds. */
  lemma WholeSave(c: Column)
    requires Sound(c) && !c.Arrays?
    ensures var n := Length(c);
      Save(c, 0, n) == match c
        case Numbers(prim, words) => Pack(words, Width(prim))
        case Strings(cells) => EncodeBlobs(cells)
        case FixedStrings(width, buffer) => buffer
        case Decimals(shape, words) => Pack(words, DecimalWidth(shape.nobits))
        case Enums(size, _, words) => Pack(words, EnumWidth(size))
        case Nullables(nulls, inner) => nulls + Save(inner, 0, n)
        case Arrays(_, _) => []
  {
    hide Pack, EncodeBlobs, Fit, WellTyped, FromPrecision;
    match c
    case Numbers(prim, words) => assert words[0..|words|] == words;
    case Strings(cells) => assert cells[0..|cells|] == cells;
    case FixedStrings(width, buffer) => FixedSlice(width, |buffer|, 0, Length(c)); assert buffer[0..|buffer|] == buffer;
    case Decimals(shape, words) => assert words[0..|words|] == words;
    case Enums(size, _, words) => assert words[0..|words|] == words;
    case Nullables(nulls, inner) => assert nulls[0..|nulls|] == nulls;
  }

  // ---------- the cast block ----------

  /** Types that stored columns have. */
  predicate GoodType(t: SqlType) {
    match t
    case FixedString(n) => n > 0
    case Decimal(p, _) => FromPrecision(p).Some?
    case Enum(_, _) => WellTyped(t)
    case Nullable(inner) => GoodType(inner)
    case Array(inner) => GoodType(inner)
    case _ => true
  }

  lemma {:induction false} ColumnTypeGood(c: Column)
    requires Sound(c)
    ensures GoodType(TypeOfColumn(c))
  {
    hide WellTyped, FromPrecision, Fit;
    match c
    case Nullables(_, inner) => ColumnTypeGood(inner);
    case Arrays(_, inner) => ColumnTypeGood(inner);
    case _ =>
  }

  lemma {:induction false} ViewTypeGood(v: View)
    requires SoundView(v)
    ensures GoodType(ViewType(v))
  {
    hide Sound, GoodType, TypeOfColumn;
    match v
    case Plain(column) => ColumnTypeGood(column);
    case Chunk(data, _, _) => ViewTypeGood(data);
    case Joined(parts, _) => ViewTypeGood(parts[0]);
  }

  lemma GoodTarget(dst: SqlType, src: SqlType)
    requires GoodType(dst) && CastFor(dst, src).Success?
    ensures GoodCast(CastFor(dst, src).value)
  {
    hide WellTyped, FromPrecision;
  }

  function TypeOfData(d: CastData): SqlType {
    match d
    case Same(view) => ViewType(view)
    case Stored(column, _) => TypeOfColumn(column)
    case Adapted(cast, _) => TypeOfCast(cast)
  }

  /** A cast column that can be written: its names fit, and its adapter can take the rows. */
  ghost predicate ReadyCast(c: NamedCast) {
    && SoundView(c.data.view) && Utf8(c.name) && |c.name| < TWO_64
    && Utf8Items(TypeOfData(c.data)) && |Print(TypeOfData(c.data))| < TWO_64
    && (c.data.Same? ==> Saveable(c.data.view))
    && (c.data.Stored? ==> Sound(c.data.column) && Length(c.data.column) == ViewLength(c.data.view))
    && (c.data.Adapted? ==>
          var cast := c.data.cast;
          && AllCastable(cast, ViewRows(c.data.view)) && GoodCast(cast)
          && (cast.ToNullable? ==> !cast.inner.ToNullable?))
  }

  /** The column that is written for a cast column. */
  function CastImage(c: NamedCast): Result<NamedColumn>
    requires ReadyCast(c)
  {
    match c.data
    case Same(view) => Success(NamedColumn(c.name, view))
    case Stored(column, _) => Success(NamedColumn(c.name, Plain(column)))
    case Adapted(cast, view) =>
      var column :- CastColumn(cast, ViewRows(view));
      Success(NamedColumn(c.name, Plain(column)))
  }

  /** A column that can be cast to the type of the header column and written: joined data can only be written behind an
      adapter. */
  ghost predicate Source(c: NamedColumn, h: NamedColumn) {
    && SoundView(c.data) && Utf8(c.name) && |c.name| < TWO_64
    && (ViewType(c.data) == ViewType(h.data) ==> Saveable(c.data))
  }

  /** A stored column of addresses shows what was parsed from the texts. */
  ghost predicate ParsedCells(net: Addresses, c: Column, view: View)
    requires SoundView(view) && Sound(c) && Length(c) == ViewLength(view)
  {
    && c.Numbers? && (c.prim.IPv4? || c.prim.IPv6?) && AllTexts(ViewRows(view))
    && forall k | 0 <= k < ViewLength(view) ::
         && At(c, k).Number? && Utf8(ViewRows(view)[k].text)
         && (c.prim.IPv4? ==> net.v4(ViewRows(view)[k].text) == Some(At(c, k).word))
         && (c.prim.IPv6? ==> net.v6(ViewRows(view)[k].text) == Some(At(c, k).word))
  }

  lemma CastParsed(net: Addresses, prim: Prim, view: View)
    requires SoundView(view) && ViewType(view).String? && (prim.IPv4? || prim.IPv6?)
    requires AllTexts(ViewRows(view)) && ParsedWords(net, prim, ViewRows(view)).Success?
    ensures var c := Numbers(prim, ParsedWords(net, prim, ViewRows(view)).value);
            Sound(c) && Length(c) == ViewLength(view) && ParsedCells(net, c, view)
  {
    hide SoundView, ViewAt, ParsedWords, ParsedWord, Sound, Utf8;
    var cells := ViewRows(view);
    ParsedRow(net, prim, cells, |cells|);
    forall k | 0 <= k < |cells|
      ensures Utf8(cells[k].text)
      ensures prim.IPv4? ==> net.v4(cells[k].text) == Some(ParsedWords(net, prim, cells).value[k])
      ensures prim.IPv6? ==> net.v6(cells[k].text) == Some(ParsedWords(net, prim, cells).value[k])
    {
      ParsedRow(net, prim, cells, k);
    }
  }

  lemma CastReady(net: Addresses, c: NamedColumn, h: NamedColumn)
    requires Source(c, h) && SoundNamed(h) && CastOne(net, c, ViewType(h.data)).Success?
    ensures var one := CastOne(net, c, ViewType(h.data)).value;
            && ReadyCast(one) && one.name == c.name && one.data.view == c.data
            && TypeOfData(one.data) == ViewType(h.data)
            && (one.data.Same? <==> ViewType(c.data) == ViewType(h.data))
            && (one.data.Stored? ==> ParsedCells(net, one.data.column, c.data))
  {
    hide Utf8, Print, Utf8Items, SoundView, CastFor, GoodCast, ViewRows, AllCastable, GoodType, ParsedWords;
    hide Sound, ParsedCells;
    var dst := ViewType(h.data);
    if dst != ViewType(c.data) && IsAddressCast(dst, ViewType(c.data)) {
      TextRows(c.data);
      CastParsed(net, dst.prim, c.data);
    } else if dst != ViewType(c.data) {
      CastFits(dst, c.data);
      ViewTypeGood(h.data);
      GoodTarget(dst, ViewType(c.data));
    }
  }

  lemma ImageReady(c: NamedCast)
    requires ReadyCast(c) && CastImage(c).Success?
    ensures var image := CastImage(c).value;
            && SoundNamed(image) && image.name == c.name
            && ViewLength(image.data) == ViewLength(c.data.view) && ViewType(image.data) == TypeOfData(c.data)
  {
    hide Utf8, Print, Utf8Items, SoundView, CastColumn, GoodCast, ViewRows, AllCastable, Sound;
    match c.data
    case Same(view) =>
    case Stored(column, _) => PlainSound(column);
    case Adapted(cast, view) =>
      CastSound(cast, ViewRows(view));
      PlainSound(CastColumn(cast, ViewRows(view)).value);
  }

  lemma PlainSound(c: Column)
    requires Sound(c)
    ensures SoundView(Plain(c))
  {
  }

  /** Name, type name and rows of one cast column. */
  method WriteCastColumn(encoder: Encoder, c: NamedCast) returns (r: Result<()>)
    requires ReadyCast(c)
    modifies encoder
    ensures CastImage(c).Failure? ==> r == Failure(CastImage(c).error)
    ensures CastImage(c).Success? ==>
              r.Success? && SoundNamed(CastImage(c).value)
              && encoder.buffer == old(encoder.buffer) + WriteColumn(CastImage(c).value)
  {
    hide Utf8, Print, Utf8Items, SoundView, Saveable, CastColumn, GoodCast, ViewRows, AllCastable, Sound, Save;
    hide EncodeBlob, CastBytes;
    if CastImage(c).Success? {
      ImageReady(c);
    }
    ghost var start := encoder.buffer;
    var name, typeName := EncodeBlob(c.name), EncodeBlob(Print(TypeOfData(c.data)));
    encoder.ByteString(c.name);
    encoder.ByteString(Print(TypeOfData(c.data)));
    match c.data
    case Same(view) =>
      SaveView(encoder, view, 0, ViewLength(view));
      Regroup(start + name, typeName, ViewSave(view, 0, ViewLength(view)));
      Regroup(start, name, typeName + ViewSave(view, 0, ViewLength(view)));
      return Success(());
    case Stored(column, _) =>
      SaveColumn(encoder, column, 0, Length(column));
      Regroup(start + name, typeName, Save(column, 0, Length(column)));
      Regroup(start, name, typeName + Save(column, 0, Length(column)));
      return Success(());
    case Adapted(cast, view) =>
      r := SaveCast(encoder, cast, ViewRows(view));
      CastBytesSave(cast, ViewRows(view));
      if r.Success? {
        ghost var column := CastColumn(cast, ViewRows(view)).value;
        Regroup(start + name, typeName, Save(column, 0, ViewLength(view)));
        Regroup(start, name, typeName + Save(column, 0, ViewLength(view)));
      }
  }

  // ---------- the cast block on the wire ----------

  ghost predicate AllReady(casts: seq<NamedCast>) {
    forall i | 0 <= i < |casts| :: ReadyCast(casts[i])
  }

  /** The columns that are written for the columns of a cast block, or the first failure. */
  function CastImages(casts: seq<NamedCast>): Result<seq<NamedColumn>>
    requires AllReady(casts)
  {
    if |casts| == 0 then Success([])
    else
      var n := |casts| - 1;
      var images :- CastImages(casts[..n]);
      var image :- CastImage(casts[n]);
      Success(images + [image])
  }

  lemma ImagesStep(casts: seq<NamedCast>, n: nat)
    requires AllReady(casts) && n < |casts|
    ensures AllReady(casts[..n]) && AllReady(casts[..n + 1])
    ensures var images, image := CastImages(casts[..n]), CastImage(casts[n]);
            CastImages(casts[..n + 1]) == if images.Failure? then images
                                          else if image.Failure? then Failure(image.error)
                                          else Success(images.value + [image.value])
  {
    hide CastImage, ReadyCast;
    assert casts[..n + 1][..n] == casts[..n];
  }

  lemma {:induction false} ImagesFail(casts: seq<NamedCast>, n: nat)
    requires AllReady(casts) && n <= |casts| && AllReady(casts[..n]) && CastImages(casts[..n]).Failure?
    ensures CastImages(casts) == CastImages(casts[..n])
    decreases |casts|
  {
    hide CastImage, ReadyCast, CastImages;
    if n == |casts| {
      assert casts[..n] == casts;
    } else {
      var m := |casts| - 1;
      assert casts[..m][..n] == casts[..n] && casts[..m + 1] == casts;
      ImagesStep(casts, m);
      ImagesFail(casts[..m], n);
    }
  }

  lemma {:induction false} ImageOf(casts: seq<NamedCast>, i: nat)
    requires AllReady(casts) && CastImages(casts).Success? && i < |casts|
    ensures |CastImages(casts).value| == |casts| && CastImage(casts[i]) == Success(CastImages(casts).value[i])
    decreases |casts|
  {
    hide CastImage, ReadyCast, CastImages;
    var n := |casts| - 1;
    assert casts[..n + 1] == casts;
    ImagesStep(casts, n);
    ImagesCount(casts[..n]);
    if i < n {
      ImageOf(casts[..n], i);
      assert casts[..n][i] == casts[i];
    }
  }

  lemma {:induction false} ImagesCount(casts: seq<NamedCast>)
    requires AllReady(casts) && CastImages(casts).Success?
    ensures |CastImages(casts).value| == |casts|
    decreases |casts|
  {
    hide CastImage, ReadyCast;
    if |casts| > 0 {
      ImagesCount(casts[..|casts| - 1]);
    }
  }

  function CastRowCount(casts: seq<NamedCast>): nat {
    if |casts| == 0 then 0 else ViewLength(casts[0].data.view)
  }

  /** A cast block that can be written: as many rows in every column. */
  ghost predicate ReadyBlock(info: BlockInfo, casts: seq<NamedCast>) {
    && AllReady(casts) && info.bucket < 0x1_0000_0000 && |casts| < TWO_64 && CastRowCount(casts) < TWO_64
    && forall i | 0 <= i < |casts| :: ViewLength(casts[i].data.view) == CastRowCount(casts)
  }

  lemma ImagesSound(info: BlockInfo, casts: seq<NamedCast>)
    requires ReadyBlock(info, casts) && CastImages(casts).Success?
    ensures var images := CastImages(casts).value;
            SoundBlock(Block(info, images)) && |images| == |casts| && RowCount(images) == CastRowCount(casts)
  {
    hide ReadyCast, CastImage, CastImages, SoundNamed, ViewLength;
    var images := CastImages(casts).value;
    ImagesCount(casts);
    forall i | 0 <= i < |casts|
      ensures SoundNamed(images[i]) && ViewLength(images[i].data) == CastRowCount(casts)
    {
      ImageOf(casts, i);
      ImageReady(casts[i]);
    }
  }

  /** `Block::write` of a cast block: the bytes of the block of the written columns, or the first panic. */
  method WriteCastBlock(encoder: Encoder, info: BlockInfo, casts: seq<NamedCast>) returns (r: Result<()>)
    requires ReadyBlock(info, casts)
    modifies encoder
    ensures CastImages(casts).Failure? ==> r == Failure(CastImages(casts).error)
    ensures CastImages(casts).Success? ==>
              && r.Success? && SoundBlock(Block(info, CastImages(casts).value))
              && encoder.buffer == old(encoder.buffer) + Write(Block(info, CastImages(casts).value))
  {
    hide ReadyCast, CastImage, CastImages, SoundNamed, ViewLength, Leb128, WriteInfo, WriteColumn, WriteColumns;
    SaveInfo(encoder, info);
    encoder.Uvarint(|casts|);
    encoder.Uvarint(CastRowCount(casts));
    ghost var head := encoder.buffer;
    ghost var images: seq<NamedColumn> := [];
    NoColumns();
    NoImages();
    for i := 0 to |casts|
      invariant AllReady(casts[..i]) && CastImages(casts[..i]) == Success(images)
      invariant AllSound(images) && encoder.buffer == head + WriteColumns(images)
    {
      ImagesStep(casts, i);
      r := WriteCastColumn(encoder, casts[i]);
      if CastImage(casts[i]).Failure? {
        ImagesFail(casts, i + 1);
        return;
      }
      ghost var image := CastImage(casts[i]).value;
      ColumnsSnoc(images, image);
      Regroup(head, WriteColumns(images), WriteColumn(image));
      images := images + [image];
    }
    assert casts[..|casts|] == casts;
    ImagesSound(info, casts);
    ghost var start, n, rows := WriteInfo(info), Leb128(|images|), Leb128(RowCount(images));
    Regroup(old(encoder.buffer) + start + n, rows, WriteColumns(images));
    Regroup(old(encoder.buffer) + start, n, rows + WriteColumns(images));
    Regroup(old(encoder.buffer), start, n + (rows + WriteColumns(images)));
    return Success(());
  }

  lemma NoImages()
    ensures AllReady([]) && CastImages([]) == Success([])
  {
  }

  lemma ColumnsSnoc(columns: seq<NamedColumn>, c: NamedColumn)
    requires AllSound(columns) && SoundNamed(c)
    ensures AllSound(columns + [c]) && WriteColumns(columns + [c]) == WriteColumns(columns) + WriteColumn(c)
  {
    hide SoundNamed, WriteColumn, WriteColumns;
    var n := |columns|;
    assert (columns + [c])[..n] == columns && (columns + [c])[..n + 1] == columns + [c];
    WriteColumnsAppend(columns + [c], n);
  }

  // ---------- cast, write, load ----------

  /** The first row of a saved range can stand first. */
  ghost predicate StandsFirst(view: View)
    requires SoundView(view) && Saveable(view)
  {
    ViewLength(view) == 0 || (SlicesCollapse(view, 0, ViewLength(view)); StartsClean(BaseColumn(view), BaseFrom(view)))
  }

  ghost predicate SameCells(c: Column, view: View)
    requires SoundView(view) && Sound(c) && Length(c) == ViewLength(view)
  {
    forall k | 0 <= k < ViewLength(view) :: At(c, k) == ViewAt(view, k)
  }

  ghost predicate ConvertedCells(c: Column, cast: Cast, view: View)
    requires SoundView(view) && Sound(c) && Length(c) == ViewLength(view)
  {
    forall k | 0 <= k < ViewLength(view) :: Shown(cast, ViewRows(view)[k], At(c, k))
  }

  /** What loading gives for one cast column: the header's type, as many rows, and each row converted. A column that
      had the type shows its rows if and only if the first of them can stand first. */
  ghost predicate ConvertedColumn(loaded: View, data: CastData)
    requires SoundView(data.view) && (data.Adapted? ==> AllCastable(data.cast, ViewRows(data.view)))
    requires data.Same? ==> Saveable(data.view)
  {
    && loaded.Plain? && Sound(loaded.column)
    && TypeOfColumn(loaded.column) == TypeOfData(data) && Length(loaded.column) == ViewLength(data.view)
    && (data.Same? ==> (SameCells(loaded.column, data.view) <==> StandsFirst(data.view)))
    && (data.Stored? ==> loaded.column == data.column)
    && (data.Adapted? ==> ConvertedCells(loaded.column, data.cast, data.view))
  }

  lemma CastCells(cast: Cast, view: View)
    requires SoundView(view) && AllCastable(cast, ViewRows(view)) && GoodCast(cast)
    requires (cast.ToNullable? ==> !cast.inner.ToNullable?) && CastColumn(cast, ViewRows(view)).Success?
    ensures ConvertedColumn(Plain(CastColumn(cast, ViewRows(view)).value), Adapted(cast, view))
  {
    hide SoundView, ViewAt, CastColumn, GoodCast, Sound, At, Converted, Castable, Shown;
    var cells := ViewRows(view);
    CastSound(cast, cells);
    forall k | 0 <= k < |cells| ensures Shown(cast, cells[k], At(CastColumn(cast, cells).value, k)) {
      CastRow(cast, cells, k);
    }
  }

  lemma SameRow(view: View, k: nat)
    requires SoundView(view) && Saveable(view) && k < ViewLength(view)
    ensures Sound(LoadedAs(view)) && Length(LoadedAs(view)) == ViewLength(view)
    ensures At(LoadedAs(view), k) == ViewAt(view, k) <==> k > 0 || StandsFirst(view)
  {
    hide Sound, At, Length, SoundView, ViewAt, StartsClean, Image, ViewSave, Save;
    SlicesCollapse(view, k, k);
    ImageRow(BaseColumn(view), BaseFrom(view), BaseFrom(view) + ViewLength(view), k);
  }

  lemma LoadedShape(view: View)
    requires SoundView(view) && Saveable(view)
    ensures var c := LoadedAs(view); Sound(c) && Length(c) == ViewLength(view) && TypeOfColumn(c) == ViewType(view)
  {
    hide Sound, At, Length, SoundView, ViewAt, StartsClean, Image, ViewSave, Save, TypeOfColumn;
    SlicesCollapse(view, 0, 0);
    ImageRows(BaseColumn(view), BaseFrom(view), BaseFrom(view) + ViewLength(view));
  }

  lemma SameRows(view: View)
    requires SoundView(view) && Saveable(view)
    ensures ConvertedColumn(Plain(LoadedAs(view)), Same(view))
  {
    hide Sound, At, Length, SoundView, ViewAt, LoadedAs, TypeOfColumn, ViewType, ViewLength;
    LoadedShape(view);
    var c := LoadedAs(view);
    if StandsFirst(view) {
      forall k: nat | k < ViewLength(view) ensures At(c, k) == ViewAt(view, k) {
        SameRow(view, k);
      }
    } else {
      SameRow(view, 0);
    }
    assert SameCells(c, view) <==> StandsFirst(view);
  }

  /** The loaded column keeps the name, has the type of the header's column, and holds the converted cells. */
  ghost predicate LoadedCast(net: Addresses, loaded: NamedColumn, source: NamedColumn, header: NamedColumn,
                             c: NamedCast)
  {
    && loaded.name == source.name && ReadyCast(c) && c.data.view == source.data
    && (c.data.Same? <==> ViewType(source.data) == ViewType(header.data))
    && TypeOfData(c.data) == ViewType(header.data) && ConvertedColumn(loaded.data, c.data)
    && (c.data.Stored? ==> ParsedCells(net, c.data.column, source.data))
  }

  /** A block that can be cast to the header and written. */
  ghost predicate SourceBlock(b: Block, header: Block) {
    && b.info.bucket < 0x1_0000_0000 && |b.columns| < TWO_64 && RowCount(b.columns) < TWO_64
    && Rectangular(b.columns, RowCount(b.columns))
    && |b.columns| == |header.columns| && AllViews(b.columns)
    && forall i | 0 <= i < |b.columns| :: Source(b.columns[i], header.columns[i])
  }

  /** A block that `cast_to` gave can be written, and the columns written for it have printable types when those of
      the header do. */
  lemma ImagesMakeBlock(net: Addresses, b: Block, header: Block, casts: seq<NamedCast>)
    requires SourceBlock(b, header) && AllSound(header.columns) && AllPrintable(header.columns)
    requires CastColumns(net, b.columns, header.columns) == Success(casts)
    ensures ReadyBlock(b.info, casts) && |casts| == |b.columns|
    ensures CastImages(casts).Success? ==>
              SoundBlock(Block(b.info, CastImages(casts).value)) && AllPrintable(CastImages(casts).value)
  {
    hide SoundNamed, ReadyCast, CastImage, CastImages, CastColumns, Printable, ViewLength, ViewType, Source;
    CastCount(net, b.columns, header.columns);
    forall i | 0 <= i < |casts| ensures ReadyCast(casts[i]) && casts[i].data.view == b.columns[i].data {
      CastEach(net, b.columns, header.columns, casts, i);
    }
    assert ReadyBlock(b.info, casts);
    if CastImages(casts).Success? {
      ImagesSound(b.info, casts);
      forall i | 0 <= i < |casts| ensures Printable(ViewType(CastImages(casts).value[i].data)) {
        CastEach(net, b.columns, header.columns, casts, i);
        ImageOf(casts, i);
        ImageReady(casts[i]);
      }
    }
  }

  /** All cells behind adapters can be rescaled. */
  ghost predicate AllCellsRescale(casts: seq<NamedCast>)
    requires AllReady(casts)
  {
    forall i | 0 <= i < |casts| :: CellsRescale(casts[i])
  }

  ghost predicate CellsRescale(c: NamedCast)
    requires ReadyCast(c)
  {
    c.data.Adapted? ==> AllRescale(c.data.cast, ViewRows(c.data.view))
  }

  lemma ImageWhen(c: NamedCast)
    requires ReadyCast(c)
    ensures CastImage(c).Success? <==> CellsRescale(c)
  {
    hide Utf8, Print, Utf8Items, SoundView, CastColumn, GoodCast, ViewRows, AllCastable, Sound, AllRescale;
    if c.data.Adapted? {
      CastColumnWhen(c.data.cast, ViewRows(c.data.view));
    }
  }

  /** A cast block can be written exactly when every decimal cell can be rescaled. */
  lemma {:induction false} ImagesWhen(casts: seq<NamedCast>)
    requires AllReady(casts)
    ensures CastImages(casts).Success? <==> AllCellsRescale(casts)
    decreases |casts|
  {
    hide ReadyCast, CastImage, CellsRescale;
    if |casts| > 0 {
      var n := |casts| - 1;
      ImagesWhen(casts[..n]);
      ImageWhen(casts[n]);
      assert forall i | 0 <= i < n :: casts[..n][i] == casts[i];
    }
  }

  /** A block cast to a header can be written exactly when every decimal cell can be rescaled. Written, and followed by
      anything, it loads with the header's types in order, the same names and row count, and every cell converted. These
      are the bytes that `WriteCastBlock` writes. */
  lemma CastWriteLoad(net: Addresses, b: Block, header: Block, casts: seq<NamedCast>, s: bytes, p: nat)
    requires SourceBlock(b, header) && AllSound(header.columns) && AllPrintable(header.columns)
    requires CastColumns(net, b.columns, header.columns) == Success(casts)
    ensures ReadyBlock(b.info, casts) && |casts| == |b.columns|
    ensures CastImages(casts).Success? <==> AllCellsRescale(casts)
    ensures CastImages(casts).Success? ==> SoundBlock(Block(b.info, CastImages(casts).value))
    ensures CastImages(casts).Success? && Holds(s, p, Write(Block(b.info, CastImages(casts).value))) ==>
              var written, d := Write(Block(b.info, CastImages(casts).value)), RawLoad(s, p);
              && d.Ok? && d.pos == p + |written| && d.value.info == WireInfo(b.info) && |d.value.columns| == |casts|
              && forall i | 0 <= i < |casts| ::
                   LoadedCast(net, d.value.columns[i], b.columns[i], header.columns[i], casts[i])
  {
    hide RawLoad, Holds, Write, SoundNamed, ReadyCast, CastImage, CastImages, ConvertedColumn, AllPrintable, AsLoaded;
    hide CastColumns, Source, ViewType, AllCellsRescale;
    ImagesMakeBlock(net, b, header, casts);
    ImagesWhen(casts);
    if CastImages(casts).Success? && Holds(s, p, Write(Block(b.info, CastImages(casts).value))) {
      var images := CastImages(casts).value;
      BlockLoads(Block(b.info, images), s, p);
      ImagesCount(casts);
      forall i | 0 <= i < |casts|
        ensures LoadedCast(net, AsLoaded(images)[i], b.columns[i], header.columns[i], casts[i])
      {
        CastEach(net, b.columns, header.columns, casts, i);
        ImageOf(casts, i);
        LoadedImage(casts[i], images[i], images, i);
      }
    }
  }

  lemma {:induction false} CastEach(net: Addresses, columns: seq<NamedColumn>, header: seq<NamedColumn>,
                                    casts: seq<NamedCast>, i: nat)
    requires |columns| == |header| && AllViews(columns) && i < |columns|
    requires CastColumns(net, columns, header) == Success(casts)
    requires Source(columns[i], header[i]) && SoundNamed(header[i])
    ensures |casts| == |columns|
    ensures ReadyCast(casts[i]) && casts[i].name == columns[i].name && casts[i].data.view == columns[i].data
    ensures casts[i].data.Same? <==> ViewType(columns[i].data) == ViewType(header[i].data)
    ensures casts[i].data.Stored? ==> ParsedCells(net, casts[i].data.column, columns[i].data)
    ensures TypeOfData(casts[i].data) == ViewType(header[i].data)
    decreases |columns|
  {
    hide SoundNamed, ReadyCast, CastOne, Source, SoundView, ParsedCells;
    var n := |columns| - 1;
    CastCount(net, columns[..n], header[..n]);
    if i < n {
      CastEach(net, columns[..n], header[..n], casts[..n], i);
    } else {
      CastReady(net, columns[n], header[n]);
    }
  }

  lemma {:induction false} CastCount(net: Addresses, columns: seq<NamedColumn>, header: seq<NamedColumn>)
    requires |columns| == |header| && AllViews(columns)
    ensures CastColumns(net, columns, header).Success? ==> |CastColumns(net, columns, header).value| == |columns|
  {
    hide CastOne, SoundView;
    if |columns| > 0 {
      CastCount(net, columns[..|columns| - 1], header[..|header| - 1]);
    }
  }

  lemma LoadedImage(c: NamedCast, image: NamedColumn, images: seq<NamedColumn>, i: nat)
    requires ReadyCast(c) && CastImage(c) == Success(image)
    requires AllSound(images) && i < |images| && images[i] == image
    ensures AsLoaded(images)[i].name == c.name && ConvertedColumn(AsLoaded(images)[i].data, c.data)
  {
    hide Utf8, Print, Utf8Items, SoundView, CastColumn, GoodCast, AllCastable, Sound, Save, Image, Length;
    hide ConvertedColumn;
    ImageReady(c);
    assert SoundNamed(images[i]);
    match c.data
    case Same(view) => SameRows(view);
    case Stored(column, view) =>
      PlainLoaded(column);
      StoredKept(column, view);
    case Adapted(cast, view) =>
      SoundOf(image.data);
      PlainLoaded(image.data.column);
      CastCells(cast, view);
  }

  lemma StoredKept(c: Column, view: View)
    requires SoundView(view) && Sound(c) && Length(c) == ViewLength(view)
    ensures ConvertedColumn(Plain(c), Stored(c, view))
  {
  }

  lemma PlainLoaded(c: Column)
    requires Sound(c)
    ensures SoundView(Plain(c)) && LoadedAs(Plain(c)) == c
  {
    hide Image, Sound;
    ImageWhole(c);
  }

  lemma SoundOf(v: View)
    requires SoundView(v) && v.Plain?
    ensures Sound(v.column)
  {
  }
}
