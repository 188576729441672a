/** Blocks on the wire, uncompressed: `Block::write` and `Block::raw_load`. */
module Blocks {
  import opened Basics
  import opened Text
  import opened Varint
  import opened Decoders
  import opened TypeNames
  import opened Columns
  import opened Views

  /** The bucket number is kept as the unsigned word of the `i32`. */
  datatype BlockInfo = BlockInfo(num1: u64, overflows: bool, num2: u64, bucket: nat, num3: u64)

  datatype RawColumn = RawColumn(name: bytes, column: Column)

  datatype NamedColumn = NamedColumn(name: bytes, data: View)

  datatype Block = Block(info: BlockInfo, columns: seq<NamedColumn>)

  const DEFAULT_INFO := BlockInfo(0, false, 0, 0xFFFF_FFFF, 0)

  function RowCount(columns: seq<NamedColumn>): nat {
    if |columns| == 0 then 0 else ViewLength(columns[0].data)
  }

  // ---------- loading ----------

  function ReadInfo(s: bytes, p: nat): (d: Dec<BlockInfo>)
    requires p <= |s|
    ensures d.Ok? ==> p < d.pos <= |s|
  {
    var (num1, p1) :- Uvarint(s, p);
    var (flag, p2) :- Word(s, p1, 1);
    var (num2, p3) :- Uvarint(s, p2);
    var (bucket, p4) :- Word(s, p3, 4);
    var (num3, p5) :- Uvarint(s, p4);
    Ok(BlockInfo(num1, flag != 0, num2, bucket, num3), p5)
  }

  function ReadColumn(s: bytes, p: nat, rows: nat): (d: Dec<RawColumn>)
    requires p <= |s|
    ensures d.Ok? ==> p < d.pos <= |s|
  {
    var (name, p1) :- Str(s, p);
    var (typeName, p2) :- Str(s, p1);
    var (column, p3) :- Load(s, p2, typeName, rows);
    Ok(RawColumn(name, column), p3)
  }

  /** `append_column`, which asks the new column for its length first. */
  function Append(columns: seq<NamedColumn>, read: RawColumn): Result<seq<NamedColumn>> {
    if LengthPanics(read.column) then Failure(Panic(LengthPanic(read.column)))
    else if |columns| > 0 && RowCount(columns) != Length(read.column) then Failure(Panic(UnequalColumns))
    else Success(columns + [NamedColumn(read.name, Plain(read.column))])
  }

  /** The loop of `raw_load` with `k` columns to go. */
  function ReadColumns(s: bytes, p: nat, k: nat, rows: nat, columns: seq<NamedColumn>): (d: Dec<seq<NamedColumn>>)
    requires p <= |s|
    ensures d.Ok? ==> p <= d.pos <= |s|
    decreases k
  {
    if k == 0 then Ok(columns, p)
    else
      var (read, q) :- ReadColumn(s, p, rows);
      match Append(columns, read)
      case Failure(e) => Err(e)
      case Success(more) => ReadColumns(s, q, k - 1, rows, more)
  }

  function RawLoad(s: bytes, p: nat): (d: Dec<Block>)
    requires p <= |s|
    ensures d.Ok? ==> p < d.pos <= |s|
  {
    var (info, p1) :- ReadInfo(s, p);
    var (numColumns, p2) :- Uvarint(s, p1);
    var (numRows, p3) :- Uvarint(s, p2);
    var (columns, p4) :- ReadColumns(s, p3, numColumns, numRows, []);
    Ok(Block(info, columns), p4)
  }

  lemma ReadInfoLocal(s: bytes, t: bytes, p: nat)
    requires p <= |s| && p <= |t|
    requires Settled(ReadInfo(s, p), s, t)
    ensures ReadInfo(t, p) == ReadInfo(s, p)
  {
    hide Agree, UvarintFrom, Word;
    Shared(ReadInfo(s, p), s, t);
    hide Uvarint;
    UvarintLocal(s, t, p);
    if Uvarint(s, p).Ok? {
      var p1 := Uvarint(s, p).pos;
      WordLocal(s, t, p1, 1);
      if Word(s, p1, 1).Ok? {
        UvarintLocal(s, t, p1 + 1);
        if Uvarint(s, p1 + 1).Ok? {
          var p3 := Uvarint(s, p1 + 1).pos;
          WordLocal(s, t, p3, 4);
          if Word(s, p3, 4).Ok? {
            UvarintLocal(s, t, p3 + 4);
          }
        }
      }
    }
  }

  lemma ReadColumnLocal(s: bytes, t: bytes, p: nat, rows: nat)
    requires p <= |s| && p <= |t|
    requires Settled(ReadColumn(s, p, rows), s, t)
    ensures ReadColumn(t, p, rows) == ReadColumn(s, p, rows)
  {
    Shared(ReadColumn(s, p, rows), s, t);
    hide Agree, Str, Load;
    StrLocal(s, t, p);
    if Str(s, p).Ok? {
      StrLocal(s, t, Str(s, p).pos);
      if Str(s, Str(s, p).pos).Ok? {
        var d := Str(s, Str(s, p).pos);
        LoadLocal(s, t, d.pos, d.value, rows);
      }
    }
  }

  lemma ReadColumnsStep(s: bytes, p: nat, k: nat, rows: nat, columns: seq<NamedColumn>)
    requires p <= |s|
    ensures ReadColumns(s, p, k, rows, columns) ==
      if k == 0 then Ok(columns, p)
      else match ReadColumn(s, p, rows)
        case More => More
        case Err(e) => Err(e)
        case Ok(read, q) =>
          match Append(columns, read)
          case Failure(e) => Err(e)
          case Success(more) => ReadColumns(s, q, k - 1, rows, more)
  {
    hide ReadColumn, Append;
  }

  lemma {:induction false} ReadColumnsLocal(s: bytes, t: bytes, p: nat, k: nat, rows: nat, columns: seq<NamedColumn>)
    requires p <= |s| && p <= |t|
    requires Settled(ReadColumns(s, p, k, rows, columns), s, t)
    ensures ReadColumns(t, p, k, rows, columns) == ReadColumns(s, p, k, rows, columns)
    decreases k
  {
    hide Agree, ReadColumn, Append, ReadColumns;
    Shared(ReadColumns(s, p, k, rows, columns), s, t);
    ReadColumnsStep(s, p, k, rows, columns);
    ReadColumnsStep(t, p, k, rows, columns);
    if k > 0 {
      ReadColumnLocal(s, t, p, rows);
      var d := ReadColumn(s, p, rows);
      if d.Ok? && Append(columns, d.value).Success? {
        ReadColumnsLocal(s, t, d.pos, k - 1, rows, Append(columns, d.value).value);
      }
    }
  }

  lemma RawLoadLocal(s: bytes, t: bytes, p: nat)
    requires p <= |s| && p <= |t|
    requires Settled(RawLoad(s, p), s, t)
    ensures RawLoad(t, p) == RawLoad(s, p)
  {
    Shared(RawLoad(s, p), s, t);
    hide Agree, ReadInfo, Uvarint, ReadColumns;
    ReadInfoLocal(s, t, p);
    if ReadInfo(s, p).Ok? {
      var p1 := ReadInfo(s, p).pos;
      UvarintLocal(s, t, p1);
      if Uvarint(s, p1).Ok? {
        var p2 := Uvarint(s, p1).pos;
        UvarintLocal(s, t, p2);
        if Uvarint(s, p2).Ok? {
          ReadColumnsLocal(s, t, Uvarint(s, p2).pos, Uvarint(s, p1).value, Uvarint(s, p2).value, []);
        }
      }
    }
  }

  /** Why a column is not appended: its length divides by a width of 0, its flags are not as many as its rows, or it has
      not the rows of the block. */
  lemma AppendPanics(columns: seq<NamedColumn>, name: bytes, buffer: bytes, nulls: bytes, words: seq<nat>)
    ensures Append(columns, RawColumn(name, FixedStrings(0, buffer))) == Failure(Panic(DivideByZero))
    ensures Append(columns, RawColumn(name, Nullables([], FixedStrings(0, buffer)))) == Failure(Panic(DivideByZero))
    ensures |nulls| != |words| ==>
              Append(columns, RawColumn(name, Nullables(nulls, Numbers(UInt8, words)))) == Failure(Panic(UnequalFlags))
    ensures |columns| > 0 && ViewLength(columns[0].data) != |words| ==>
              Append(columns, RawColumn(name, Numbers(UInt8, words))) == Failure(Panic(UnequalColumns))
  {
  }

  // ---------- what loading keeps ----------

  ghost predicate Rectangular(columns: seq<NamedColumn>, rows: nat) {
    forall i | 0 <= i < |columns| :: ViewLength(columns[i].data) == rows
  }

  /** One column: its errors, and its row count when it has one. */
  lemma ColumnOfRows(s: bytes, p: nat, rows: nat)
    requires p <= |s|
    ensures var d := ReadColumn(s, p, rows);
            && (d.Err? ==> d.error != Panic(UnequalColumns) && d.error != WouldBlock)
            && (d.Ok? ==> LengthPanics(d.value.column) || Length(d.value.column) == rows)
  {
    hide Blob, Load, Utf8, LengthPanics, Length, TypeOf, TypeOfColumn, ZeroWidth;
    BlobErrors(s, p);
    if Str(s, p).Ok? {
      var q := Str(s, p).pos;
      BlobErrors(s, q);
      if Str(s, q).Ok? {
        var r := Str(s, q).pos;
        LoadErrors(s, r, Str(s, q).value, rows);
        if Load(s, r, Str(s, q).value, rows).Ok? {
          LoadedColumn(s, r, Str(s, q).value, rows);
        }
      }
    }
  }

  lemma {:induction false} LengthPanicOther(c: Column)
    requires LengthPanics(c)
    ensures LengthPanic(c) != UnequalColumns
  {
    match c
    case Nullables(_, inner) => if LengthPanics(inner) { LengthPanicOther(inner); }
    case _ =>
  }

  lemma AppendKeeps(columns: seq<NamedColumn>, read: RawColumn, rows: nat)
    requires Rectangular(columns, rows)
    requires LengthPanics(read.column) || Length(read.column) == rows
    ensures var more := Append(columns, read);
            && (more.Failure? ==> LengthPanics(read.column) && more.error == Panic(LengthPanic(read.column)))
            && (more.Success? ==> |more.value| == |columns| + 1 && Rectangular(more.value, rows))
  {
    hide Length, LengthPanics;
  }

  lemma {:induction false} LoadedColumns(s: bytes, p: nat, k: nat, rows: nat, columns: seq<NamedColumn>)
    requires p <= |s| && Rectangular(columns, rows)
    ensures var d := ReadColumns(s, p, k, rows, columns);
            && (d.Err? ==> d.error != Panic(UnequalColumns) && d.error != WouldBlock)
            && (d.Ok? ==> |d.value| == |columns| + k && Rectangular(d.value, rows))
    decreases k
  {
    hide ReadColumn, Append, Rectangular;
    if k > 0 {
      ColumnOfRows(s, p, rows);
      var d := ReadColumn(s, p, rows);
      if d.Ok? {
        AppendKeeps(columns, d.value, rows);
        if LengthPanics(d.value.column) { LengthPanicOther(d.value.column); }
        var more := Append(columns, d.value);
        if more.Success? {
          LoadedColumns(s, d.pos, k - 1, rows, more.value);
        }
      }
    }
  }

  lemma InfoErrors(s: bytes, p: nat)
    requires p <= |s|
    ensures ReadInfo(s, p).Err? ==> ReadInfo(s, p).error != Panic(UnequalColumns) && ReadInfo(s, p).error != WouldBlock
  {
    hide UvarintFrom, Word;
    UvarintErrors(s, p, 0, 0);
    if Uvarint(s, p).Ok? {
      var p1 := Uvarint(s, p).pos;
      if Word(s, p1, 1).Ok? {
        UvarintErrors(s, p1 + 1, 0, 0);
        if Uvarint(s, p1 + 1).Ok? {
          var p3 := Uvarint(s, p1 + 1).pos;
          if Word(s, p3, 4).Ok? {
            UvarintErrors(s, p3 + 4, 0, 0);
          }
        }
      }
    }
  }

  /** Whatever the bytes, loading never trips over columns of different sizes, what it loads is
      rectangular, and a wish for more bytes is never an error. */
  lemma LoadedBlock(s: bytes, p: nat)
    requires p <= |s|
    ensures RawLoad(s, p).Err? ==> RawLoad(s, p).error != Panic(UnequalColumns) && RawLoad(s, p).error != WouldBlock
    ensures RawLoad(s, p).Ok? ==> Rectangular(RawLoad(s, p).value.columns, RowCount(RawLoad(s, p).value.columns))
  {
    hide UvarintFrom, ReadInfo, ReadColumns;
    InfoErrors(s, p);
    if ReadInfo(s, p).Ok? {
      var p1 := ReadInfo(s, p).pos;
      UvarintErrors(s, p1, 0, 0);
      if Uvarint(s, p1).Ok? {
        var p2 := Uvarint(s, p1).pos;
        UvarintErrors(s, p2, 0, 0);
        if Uvarint(s, p2).Ok? {
          LoadedColumns(s, Uvarint(s, p2).pos, Uvarint(s, p1).value, Uvarint(s, p2).value, []);
        }
      }
    }
  }

  /** Rows, iterators and `save` can use a stored column exactly when it is ordered. */
  ghost predicate AllUsable(columns: seq<NamedColumn>) {
    forall i | 0 <= i < |columns| ::
      columns[i].data.Plain? && (SoundView(columns[i].data) <==> Ordered(columns[i].data.column))
  }

  lemma ColumnUsable(s: bytes, p: nat, rows: nat)
    requires p <= |s| && ReadColumn(s, p, rows).Ok?
    ensures var c := ReadColumn(s, p, rows).value.column; Sound(c) <==> Ordered(c)
  {
    hide Str, Load, Sound, Ordered;
    var q := Str(s, p).pos;
    LoadedSound(s, Str(s, q).pos, Str(s, q).value, rows);
  }

  lemma {:induction false} ColumnsUsable(s: bytes, p: nat, k: nat, rows: nat, columns: seq<NamedColumn>)
    requires p <= |s| && AllUsable(columns) && ReadColumns(s, p, k, rows, columns).Ok?
    ensures AllUsable(ReadColumns(s, p, k, rows, columns).value)
    decreases k
  {
    hide ReadColumn, LengthPanics, Length, Sound, Ordered;
    if k > 0 {
      ColumnUsable(s, p, rows);
      var d := ReadColumn(s, p, rows);
      ColumnsUsable(s, d.pos, k - 1, rows, Append(columns, d.value).value);
    }
  }

  /** A column of a loaded block keeps what rows, iterators and `save` rest on if and only if its offsets never fall and
      its fixed strings have room. */
  lemma LoadedUsable(s: bytes, p: nat)
    requires p <= |s| && RawLoad(s, p).Ok?
    ensures AllUsable(RawLoad(s, p).value.columns)
  {
    hide ReadInfo, Uvarint, ReadColumns, AllUsable;
    var p1 := ReadInfo(s, p).pos;
    var p2 := Uvarint(s, p1).pos;
    NoneUsable();
    ColumnsUsable(s, Uvarint(s, p2).pos, Uvarint(s, p1).value, Uvarint(s, p2).value, []);
  }

  lemma NoneUsable()
    ensures AllUsable([])
  {
  }
}
