/** The iterators that walk the raw storage of columns. */
module Iterators {
  import opened Basics
  import opened TypeNames
  import opened Columns
  import opened Views
  import opened Chunking

  /** What the iterator gives for row `i`: any flag but 0 makes a row null, where `at` asks for a 1. */
  function Entry(c: Column, i: nat): Cell
    requires Sound(c) && i < Length(c)
    decreases c, 1
  {
    match c
    case Nullables(nulls, inner) => if nulls[i] != 0 then Null(TypeOfColumn(inner)) else Present(Entry(inner, i))
    case Arrays(offsets, inner) =>
      ArrayEnds(c, i);
      ArrayCell(TypeOfColumn(inner), Entries(inner, EndOf(offsets, i), offsets[i]))
    case _ => At(c, i)
  }

  function Entries(c: Column, a: nat, b: nat): (r: seq<Cell>)
    requires Sound(c) && a <= b <= Length(c)
    ensures |r| == b - a
    ensures forall k | 0 <= k < b - a :: r[k] == Entry(c, a + k)
    decreases c, 2, b
  {
    if a == b then [] else Entries(c, a, b - 1) + [Entry(c, b - 1)]
  }

  lemma ArrayEnds(c: Column, i: nat)
    requires Sound(c) && c.Arrays? && i < Length(c)
    ensures EndOf(c.offsets, i) <= c.offsets[i] == EndOf(c.offsets, i + 1) <= Length(c.inner)
  {
    if i > 0 { assert c.offsets[i - 1] <= c.offsets[i]; }
    if i < |c.offsets| - 1 { assert c.offsets[i] <= c.offsets[|c.offsets| - 1]; }
  }

  lemma ArrayEntry(c: Column, i: nat)
    requires Sound(c) && c.Arrays? && i < Length(c)
    ensures |c.offsets| == Length(c) && Sound(c.inner)
    ensures EndOf(c.offsets, i) <= c.offsets[i] == EndOf(c.offsets, i + 1) <= Length(c.inner)
    ensures Entry(c, i) == ArrayCell(TypeOfColumn(c.inner), Entries(c.inner, EndOf(c.offsets, i), c.offsets[i]))
  {
    ArrayEnds(c, i);
  }

  // ---------- the nodes of a column ----------

  function Level(t: SqlType): nat {
    match t
    case Nullable(inner) => 1 + Level(inner)
    case Array(inner) => 1 + Level(inner)
    case _ => 0
  }

  /** `get_internal`: the nested column whose type has the wanted level. */
  function Select(c: Column, level: nat): Option<Column> {
    match c
    case Nullables(_, inner) => if level == Level(TypeOfColumn(c)) then Some(c) else Select(inner, level)
    case Arrays(_, inner) => if level == Level(TypeOfColumn(c)) then Some(c) else Select(inner, level)
    case _ => if level == 0 then Some(c) else None
  }

  ghost predicate Within(c: Column, node: Column) {
    c == node
    || match c
       case Nullables(_, inner) => Within(inner, node)
       case Arrays(_, inner) => Within(inner, node)
       case _ => false
  }

  lemma {:induction false} LevelsRise(c: Column, node: Column)
    requires Within(c, node)
    ensures Level(TypeOfColumn(node)) <= Level(TypeOfColumn(c))
    ensures Level(TypeOfColumn(node)) == Level(TypeOfColumn(c)) ==> c == node
  {
    match c
    case Nullables(_, inner) => if c != node { LevelsRise(inner, node); }
    case Arrays(_, inner) => if c != node { LevelsRise(inner, node); }
    case _ =>
  }

  /** A nested column is selected by the level of its type, from any column around it. */
  lemma {:induction false} SelectNode(c: Column, node: Column)
    requires Within(c, node)
    ensures Select(c, Level(TypeOfColumn(node))) == Some(node)
  {
    LevelsRise(c, node);
    if c != node {
      match c
      case Nullables(_, inner) => SelectNode(inner, node);
      case Arrays(_, inner) => SelectNode(inner, node);
      case _ =>
    }
  }

  lemma {:induction false} WithinInner(c: Column, node: Column)
    requires Within(c, node) && (node.Nullables? || node.Arrays?)
    ensures Within(c, node.inner)
  {
    if c != node {
      match c
      case Nullables(_, inner) => WithinInner(inner, node);
      case Arrays(_, inner) => WithinInner(inner, node);
      case _ =>
    }
  }

  // ---------- the iterator ----------

  /** `StringIterator`, `DecimalIterator` and their like when there is no inner iterator, else
      `NullableIterator` or `ArrayIterator`. */
  class ColumnIter {
    const column: Column
    const inner: ColumnIter?
    const size: nat
    var index: nat
    ghost const repr: set<object>

    ghost predicate Valid()
      reads this, repr
      decreases column, 0
    {
      && this in repr && Sound(column) && size == Length(column) && index <= size
      && match column
         case Nullables(_, c) => Inner(c) && inner.index == index
         case Arrays(offsets, c) => Inner(c) && inner.index == EndOf(offsets, index)
         case _ => inner == null
    }

    ghost predicate Inner(c: Column)
      requires c < column
      reads this, repr
      decreases c, 1
    {
      && inner != null && inner in repr && inner.repr <= repr && this !in inner.repr
      && inner.column == c && inner.Valid()
    }

    constructor (column: Column, inner: ColumnIter?)
      requires Sound(column)
      requires match column
        case Nullables(_, c) => inner != null && inner.Valid() && inner.column == c && inner.index == 0
        case Arrays(_, c) => inner != null && inner.Valid() && inner.column == c && inner.index == 0
        case _ => inner == null
      ensures Valid() && this.column == column && index == 0
      ensures fresh(repr - if inner == null then {} else inner.repr)
    {
      this.column, this.inner, size, index := column, inner, Length(column), 0;
      repr := {this} + if inner == null then {} else inner.repr;
    }

    /** The next item without an inner iterator: straight from storage. */
    method NextLeaf() returns (r: Option<Cell>)
      requires Valid() && inner == null
      modifies this`index
      ensures Valid()
      ensures r == if old(index) < size then Some(Entry(column, old(index))) else None
      ensures index == Min(size, old(index) + 1)
    {
      if index == size {
        return None;
      }
      match column {
        case Numbers(prim, words) => r := Some(Number(prim, words[index]));
        case Strings(cells) => r := Some(Text(cells[index]));
        case FixedStrings(width, buffer) =>
          FixedSlice(width, |buffer|, index, index + 1);
          var shift := index * width;
          assert (index + 1) * width == shift + width;
          r := Some(Text(buffer[shift..shift + width]));
        case Decimals(shape, words) => r := Some(DecimalCell(shape, Signed(words[index], DecimalWidth(shape.nobits))));
        case Enums(esize, items, words) => r := Some(EnumCell(esize, items, Signed(words[index], EnumWidth(esize))));
      }
      index := index + 1;
    }

    method Next() returns (r: Option<Cell>)
      requires Valid()
      modifies repr
      ensures Valid()
      ensures r == if old(index) < size then Some(Entry(column, old(index))) else None
      ensures index == Min(size, old(index) + 1)
      decreases column, 1
    {
      hide Sound, Length, Rising;
      match column
      case Nullables(nulls, c) => r := NextNullable(nulls, c);
      case Arrays(offsets, c) => r := NextArray(offsets, c);
      case _ => r := NextLeaf();
    }

    method NextNullable(nulls: bytes, c: Column) returns (r: Option<Cell>)
      requires Valid() && column == Nullables(nulls, c)
      modifies repr
      ensures Valid()
      ensures r == if old(index) < size then Some(Entry(column, old(index))) else None
      ensures index == Min(size, old(index) + 1)
      decreases column, 0
    {
      if index == size {
        return None;
      }
      var value := inner.Next();
      if value.None? {
        return None;
      }
      var flag := nulls[index];
      index := index + 1;
      return Some(if flag != 0 then Null(TypeOfColumn(c)) else Present(value.value));
    }

    method NextArray(offsets: seq<nat>, c: Column) returns (r: Option<Cell>)
      requires Valid() && column == Arrays(offsets, c)
      modifies repr
      ensures Valid()
      ensures r == if old(index) < size then Some(Entry(column, old(index))) else None
      ensures index == Min(size, old(index) + 1)
      decreases column, 0
    {
      hide Sound, Length, Rising, Entry;
      if index == size {
        return None;
      }
      ArrayEntry(column, index);
      var start := if index > 0 then offsets[index - 1] else 0;
      var end := offsets[index];
      var v: seq<Cell> := [];
      for k := start to end
        invariant Inner(c) && inner.index == k && index == old(index)
        invariant v == Entries(c, start, k)
      {
        var item := inner.Next();
        if item.Some? {
          v := v + [item.value];
        }
      }
      index := index + 1;
      return Some(ArrayCell(TypeOfColumn(c), v));
    }

    /** `nth`: the iterators over storage jump, the others take items one by one. */
    method Nth(n: nat) returns (r: Option<Cell>)
      requires Valid()
      modifies repr
      ensures Valid()
      ensures r == if old(index) + n < size then Some(Entry(column, old(index) + n)) else None
      ensures index == Min(size, old(index) + n + 1)
    {
      hide Sound, Length, Rising, Entry;
      if inner == null {
        if n >= size - index {
          index := size;
          return None;
        }
        index := index + n;
        r := NextLeaf();
        return;
      }
      for k := 0 to n
        invariant Valid() && index == Min(size, old(index) + k)
      {
        var skipped := Next();
        if skipped.None? {
          return None;
        }
      }
      r := Next();
    }

    /** All the remaining items. */
    method Collect() returns (r: seq<Cell>)
      requires Valid()
      modifies repr
      ensures Valid() && index == size == Length(column)
      ensures r == Entries(column, old(index), Length(column))
    {
      hide Sound, Length, Rising, Entry;
      r := [];
      while true
        invariant Valid() && old(index) <= index <= Length(column) && Sound(column) && size == Length(column)
        invariant r == Entries(column, old(index), index)
        decreases size - index
      {
        var next := Next();
        if next.None? {
          break;
        }
        r := r + [next.value];
      }
    }
  }

  /** `T::iter`: every level of the type takes its storage from the whole column. */
  method MakeIter(top: Column, t: SqlType, ghost node: Column) returns (it: ColumnIter)
    requires Within(top, node) && TypeOfColumn(node) == t && Sound(node)
    ensures it.Valid() && it.column == node && it.index == 0 && fresh(it.repr)
    decreases t
  {
    hide Within, Level;
    SelectNode(top, node);
    var data := Select(top, Level(t)).value;
    match t
    case Nullable(innerType) =>
      WithinInner(top, node);
      var inner := MakeIter(top, innerType, node.inner);
      it := new ColumnIter(data, inner);
    case Array(innerType) =>
      WithinInner(top, node);
      var inner := MakeIter(top, innerType, node.inner);
      it := new ColumnIter(data, inner);
    case _ =>
      it := new ColumnIter(data, null);
  }

  // ---------- items against cells ----------

  /** The flags that decide whether row `i` is shown are 0 or 1. */
  ghost predicate PlainFlags(c: Column, i: nat)
    requires Sound(c) && i < Length(c)
    decreases c
  {
    match c
    case Nullables(nulls, inner) => nulls[i] == 1 || (nulls[i] == 0 && PlainFlags(inner, i))
    case Arrays(offsets, inner) =>
      ArrayEnds(c, i);
      forall k: nat | EndOf(offsets, i) <= k < offsets[i] :: PlainFlags(inner, k)
    case _ => true
  }

  /** Iterator and `at` agree on the rows `a` to `b - 1`. */
  ghost predicate Agreeing(c: Column, a: nat, b: nat)
    requires Sound(c) && a <= b <= Length(c)
  {
    forall k: nat | a <= k < b :: Entry(c, k) == At(c, k)
  }

  ghost predicate AllPlainFlags(c: Column, a: nat, b: nat)
    requires Sound(c) && a <= b <= Length(c)
  {
    forall k: nat | a <= k < b :: PlainFlags(c, k)
  }

  lemma RowsMatch(c: Column, a: nat, b: nat)
    requires Sound(c) && a <= b <= Length(c)
    ensures Entries(c, a, b) == Rows(c, a, b) <==> Agreeing(c, a, b)
  {
    hide Sound, Length, Entry, At, Entries, Rows;
    var entries, rows := Entries(c, a, b), Rows(c, a, b);
    assert forall j: nat | j < b - a :: entries[j] == Entry(c, a + j) && rows[j] == At(c, a + j);
    if entries == rows {
      forall k: nat | a <= k < b ensures Entry(c, k) == At(c, k) {
        var j: nat := k - a;
        assert entries[j] == Entry(c, a + j) && rows[j] == At(c, a + j);
      }
    }
    if Agreeing(c, a, b) {
      assert forall j: nat | j < b - a :: entries[j] == rows[j];
      assert entries == rows;
    }
  }

  lemma ArrayParts(c: Column, i: nat)
    requires Sound(c) && c.Arrays? && i < Length(c)
    ensures |c.offsets| == Length(c) && Sound(c.inner)
    ensures var a, b := EndOf(c.offsets, i), c.offsets[i];
            && a <= b <= Length(c.inner)
            && Entry(c, i) == ArrayCell(TypeOfColumn(c.inner), Entries(c.inner, a, b))
            && At(c, i) == ArrayCell(TypeOfColumn(c.inner), Rows(c.inner, a, b))
            && (PlainFlags(c, i) <==> AllPlainFlags(c.inner, a, b))
  {
    ArrayEnds(c, i);
    hide Rising;
  }

  lemma NullableParts(c: Column, i: nat)
    requires Sound(c) && c.Nullables? && i < Length(c)
    ensures |c.nulls| == Length(c) == Length(c.inner) && Sound(c.inner)
    ensures Entry(c, i) == if c.nulls[i] != 0 then Null(TypeOfColumn(c.inner)) else Present(Entry(c.inner, i))
    ensures At(c, i) == if c.nulls[i] == 1 then Null(TypeOfColumn(c.inner)) else Present(At(c.inner, i))
    ensures PlainFlags(c, i) <==> c.nulls[i] == 1 || (c.nulls[i] == 0 && PlainFlags(c.inner, i))
  {
  }

  lemma LeafParts(c: Column, i: nat)
    requires Sound(c) && !c.Nullables? && !c.Arrays? && i < Length(c)
    ensures Entry(c, i) == At(c, i) && PlainFlags(c, i)
  {
    hide At;
  }

  /** The iterator and `at` show the same row exactly when its null flags are 0 or 1. */
  lemma {:induction false} EntryIsCell(c: Column, i: nat)
    requires Sound(c) && i < Length(c)
    ensures Entry(c, i) == At(c, i) <==> PlainFlags(c, i)
    decreases c
  {
    hide Sound, Length, Entry, At, PlainFlags, Entries, Rows, EndOf;
    match c
    case Nullables(nulls, inner) =>
      NullableParts(c, i);
      EntryIsCell(inner, i);
    case Arrays(offsets, inner) =>
      ArrayParts(c, i);
      var a, b := EndOf(offsets, i), offsets[i];
      forall k: nat | a <= k < b ensures Entry(inner, k) == At(inner, k) <==> PlainFlags(inner, k) {
        EntryIsCell(inner, k);
      }
      RowsMatch(inner, a, b);
    case _ => LeafParts(c, i);
  }

  /** A whole column: iterating gives the cells of all rows, in order, exactly when all flags are 0 or 1. */
  lemma IterationIsRows(c: Column)
    requires Sound(c)
    ensures Entries(c, 0, Length(c)) == Rows(c, 0, Length(c)) <==> AllPlainFlags(c, 0, Length(c))
  {
    hide Sound, Length, Entry, At, PlainFlags, Entries, Rows;
    forall i: nat | i < Length(c) ensures Entry(c, i) == At(c, i) <==> PlainFlags(c, i) {
      EntryIsCell(c, i);
    }
    RowsMatch(c, 0, Length(c));
  }

  /** A flag of 2 hides a value from the iterator that `at` still shows. */
  lemma FlagOfTwo()
    ensures var c := Nullables([2], Numbers(UInt8, [7]));
            Sound(c) && Entry(c, 0) == Null(Scalar(UInt8)) && At(c, 0) == Present(Number(UInt8, 7))
  {
    assert Pow256(1) == 256;
  }

  // ---------- joined columns ----------

  ghost predicate AllSoundColumns(parts: seq<Column>) {
    forall k | 0 <= k < |parts| :: Sound(parts[k])
  }

  /** The items of the parts from `k` on, one part after the other. */
  ghost function Later(parts: seq<Column>, k: nat): seq<Cell>
    requires AllSoundColumns(parts) && k <= |parts|
    decreases |parts| - k
  {
    if k == |parts| then [] else Entries(parts[k], 0, Length(parts[k])) + Later(parts, k + 1)
  }

  class ComplexIterator {
    const data: seq<Column>
    var current: ColumnIter?
    var currentIndex: nat
    ghost var repr: set<object>

    constructor (data: seq<Column>)
      requires AllSoundColumns(data)
      ensures Valid() && fresh(repr) && this.data == data && Ahead() == Later(data, 0)
    {
      this.data, current, currentIndex := data, null, 0;
      repr := {this};
    }

    ghost predicate Valid()
      reads this, repr
    {
      && this in repr && AllSoundColumns(data) && currentIndex <= |data|
      && (current != null ==>
            && current in repr && current.repr <= repr && this !in current.repr
            && current.Valid() && current.size == Length(current.column))
    }

    /** The items still to come. */
    ghost function Ahead(): seq<Cell>
      requires Valid()
      reads this, repr
    {
      (if current == null then [] else Entries(current.column, current.index, Length(current.column)))
      + Later(data, currentIndex)
    }

    method Next() returns (r: Option<Cell>)
      requires Valid()
      modifies repr
      ensures Valid() && fresh(repr - old(repr))
      ensures if |old(Ahead())| == 0 then r == None && Ahead() == []
              else r == Some(old(Ahead())[0]) && Ahead() == old(Ahead())[1..]
      decreases |data| - currentIndex, if current == null then 0 else 1
    {
      hide Sound, Length, Entry;
      if currentIndex == |data| && current == null {
        return None;
      }
      if current == null {
        Open();
      }
      r := Step();
      if r.None? {
        r := Next();
      }
    }

    /** One item of the current part, which is put away when it has none left. */
    method Step() returns (r: Option<Cell>)
      requires Valid() && current != null
      modifies repr
      ensures Valid() && repr == old(repr) && currentIndex == old(currentIndex)
      ensures r.None? ==> current == null && Ahead() == old(Ahead())
      ensures r.Some? ==> |old(Ahead())| > 0 && r == Some(old(Ahead())[0]) && Ahead() == old(Ahead())[1..]
    {
      hide Sound, Length, Entry, Entries, Later;
      FirstEntry(current.column, current.index);
      r := current.Next();
      if r.None? {
        current := null;
      }
    }

    /** Starts on the next part. */
    method Open()
      requires Valid() && current == null && currentIndex < |data|
      modifies this
      ensures Valid() && fresh(repr - old(repr)) && Ahead() == old(Ahead())
      ensures current != null && currentIndex == old(currentIndex) + 1
    {
      hide Sound, Length, Entry;
      var column := data[currentIndex];
      assert Within(column, column);
      current := MakeIter(column, TypeOfColumn(column), column);
      currentIndex := currentIndex + 1;
      repr := repr + current.repr;
      assert Ahead() == old(Ahead());
    }
  }

  lemma FirstEntry(c: Column, i: nat)
    requires Sound(c) && i <= Length(c)
    ensures i < Length(c) ==> Entries(c, i, Length(c)) == [Entry(c, i)] + Entries(c, i + 1, Length(c))
    ensures i == Length(c) ==> Entries(c, i, Length(c)) == []
  {
    hide Sound, Length, Entry;
  }

  function Plains(parts: seq<Column>): (r: seq<View>)
    ensures |r| == |parts|
  {
    seq(|parts|, k requires 0 <= k < |parts| => Plain(parts[k]))
  }

  lemma PlainRows(c: Column)
    requires Sound(c)
    ensures ViewRows(Plain(c)) == Entries(c, 0, Length(c)) <==> AllPlainFlags(c, 0, Length(c))
  {
    hide Sound, SoundView, Length, ViewRows, Entries, Rows, AllPlainFlags;
    IterationIsRows(c);
    PlainShows(c);
  }

  /** A plain view shows the rows of its column. */
  lemma PlainShows(c: Column)
    requires Sound(c)
    ensures SoundView(Plain(c)) && ViewRows(Plain(c)) == Rows(c, 0, Length(c))
  {
    hide Sound, Length, At, Rows;
    var shown, rows := ViewRows(Plain(c)), Rows(c, 0, Length(c));
    assert forall i: nat | i < Length(c) :: shown[i] == ViewAt(Plain(c), i) && ViewAt(Plain(c), i) == At(c, i);
    assert forall i: nat | i < Length(c) :: rows[i] == At(c, 0 + i);
    assert shown == rows;
  }

  /** The items of all parts, the last part split off. */
  ghost function AllEntries(parts: seq<Column>): seq<Cell>
    requires AllSoundColumns(parts)
  {
    if |parts| == 0 then []
    else
      var n := |parts| - 1;
      AllEntries(parts[..n]) + Entries(parts[n], 0, Length(parts[n]))
  }

  lemma OneMore(parts: seq<Column>, k: nat)
    requires AllSoundColumns(parts) && k < |parts|
    ensures AllEntries(parts[..k + 1]) == AllEntries(parts[..k]) + Entries(parts[k], 0, Length(parts[k]))
    ensures Later(parts, k) == Entries(parts[k], 0, Length(parts[k])) + Later(parts, k + 1)
  {
    hide Sound, Length, Entries;
    assert parts[..k + 1][..k] == parts[..k];
  }

  lemma {:induction false} LaterSplit(parts: seq<Column>, k: nat)
    requires AllSoundColumns(parts) && k <= |parts|
    ensures AllEntries(parts) == AllEntries(parts[..k]) + Later(parts, k)
    decreases |parts| - k
  {
    hide Sound, Length, Entries, Later, AllEntries;
    if k == |parts| {
      NoneLater(parts);
      assert parts[..k] == parts;
    } else {
      LaterSplit(parts, k + 1);
      OneMore(parts, k);
    }
  }

  lemma NoneLater(parts: seq<Column>)
    requires AllSoundColumns(parts)
    ensures Later(parts, |parts|) == []
  {
    hide Sound, Entries;
  }

  ghost predicate FlagsPlain(parts: seq<Column>)
    requires AllSoundColumns(parts)
  {
    forall k | 0 <= k < |parts| :: AllPlainFlags(parts[k], 0, Length(parts[k]))
  }

  lemma {:induction false} EntriesMatch(parts: seq<Column>)
    requires AllSoundColumns(parts) && AllSoundViews(Plains(parts))
    ensures |AllRows(Plains(parts))| == |AllEntries(parts)|
    ensures AllRows(Plains(parts)) == AllEntries(parts) <==> FlagsPlain(parts)
    decreases |parts|
  {
    hide Sound, SoundView, Length, ViewRows, AllPlainFlags, Entries, AllRows, AllEntries, FlagsPlain;
    LastPart(parts);
    if |parts| > 0 {
      var n := |parts| - 1;
      EntriesMatch(parts[..n]);
      PlainRows(parts[n]);
      SameLength(parts[n]);
      SamePieces(AllRows(Plains(parts[..n])), ViewRows(Plain(parts[n])),
                 AllEntries(parts[..n]), Entries(parts[n], 0, Length(parts[n])));
    }
  }

  lemma PlainsSplit(parts: seq<Column>)
    requires |parts| > 0
    ensures var n := |parts| - 1; Plains(parts)[..n] == Plains(parts[..n]) && Plains(parts)[n] == Plain(parts[n])
  {
  }

  lemma RowsSplit(views: seq<View>)
    requires AllSoundViews(views) && |views| > 0
    ensures var n := |views| - 1;
            && AllSoundViews(views[..n]) && SoundView(views[n])
            && AllRows(views) == AllRows(views[..n]) + ViewRows(views[n])
  {
    hide SoundView, ViewRows;
  }

  lemma ItemsSplit(parts: seq<Column>)
    requires AllSoundColumns(parts) && |parts| > 0
    ensures var n := |parts| - 1;
            && AllSoundColumns(parts[..n])
            && AllEntries(parts) == AllEntries(parts[..n]) + Entries(parts[n], 0, Length(parts[n]))
  {
    hide Sound, Length, Entries;
  }

  lemma FlagsSplit(parts: seq<Column>)
    requires AllSoundColumns(parts) && |parts| > 0
    ensures var n := |parts| - 1;
            && AllSoundColumns(parts[..n])
            && (FlagsPlain(parts) <==> FlagsPlain(parts[..n]) && AllPlainFlags(parts[n], 0, Length(parts[n])))
  {
    hide Sound, Length, AllPlainFlags;
    var n := |parts| - 1;
    if FlagsPlain(parts[..n]) && AllPlainFlags(parts[n], 0, Length(parts[n])) {
      forall k | 0 <= k < |parts| ensures AllPlainFlags(parts[k], 0, Length(parts[k])) {
        if k < n { assert parts[..n][k] == parts[k]; }
      }
    }
  }

  lemma NoParts()
    ensures AllRows(Plains([])) == [] && AllEntries([]) == [] && FlagsPlain([])
  {
  }

  /** The last part split off the rows, the items and the flags. */
  lemma LastPart(parts: seq<Column>)
    requires AllSoundColumns(parts) && AllSoundViews(Plains(parts))
    ensures if |parts| == 0 then AllRows(Plains(parts)) == [] && AllEntries(parts) == [] && FlagsPlain(parts)
            else
              var n := |parts| - 1;
              && AllSoundColumns(parts[..n]) && AllSoundViews(Plains(parts[..n])) && SoundView(Plain(parts[n]))
              && AllRows(Plains(parts)) == AllRows(Plains(parts[..n])) + ViewRows(Plain(parts[n]))
              && AllEntries(parts) == AllEntries(parts[..n]) + Entries(parts[n], 0, Length(parts[n]))
              && (FlagsPlain(parts) <==> FlagsPlain(parts[..n]) && AllPlainFlags(parts[n], 0, Length(parts[n])))
  {
    hide Sound, SoundView, Length, ViewRows, AllPlainFlags, Entries, AllRows, AllEntries, FlagsPlain, Plains;
    if |parts| > 0 {
      PlainsSplit(parts);
      RowsSplit(Plains(parts));
      ItemsSplit(parts);
      FlagsSplit(parts);
    } else {
      NoParts();
    }
  }

  lemma SameLength(c: Column)
    requires Sound(c)
    ensures SoundView(Plain(c)) && |ViewRows(Plain(c))| == |Entries(c, 0, Length(c))|
  {
  }

  lemma SamePieces(a: seq<Cell>, b: seq<Cell>, c: seq<Cell>, d: seq<Cell>)
    requires |a| == |c|
    ensures a + b == c + d <==> a == c && b == d
  {
    if a + b == c + d {
      assert a == (a + b)[..|a|] && b == (a + b)[|a|..] && c == (c + d)[..|a|] && d == (c + d)[|a|..];
    }
  }

  lemma PlainsSound(parts: seq<Column>)
    requires AllSoundColumns(parts) && |parts| > 0
    requires forall k | 0 <= k < |parts| :: TypeOfColumn(parts[k]) == TypeOfColumn(parts[0])
    ensures AllSoundViews(Plains(parts)) && SoundView(Joined(Plains(parts), Sums(Sizes(Plains(parts)))))
  {
    hide Sound, Sums, Sizes;
    var views := Plains(parts);
    assert forall k | 0 <= k < |views| :: SoundView(views[k]) && ViewType(views[k]) == ViewType(views[0]);
  }

  /** Iterating joined columns, whatever parts are empty, gives the rows that `at` shows for the joined
      column exactly when all flags are 0 or 1. */
  lemma JoinedIteration(parts: seq<Column>)
    requires AllSoundColumns(parts) && |parts| > 0
    requires forall k | 0 <= k < |parts| :: TypeOfColumn(parts[k]) == TypeOfColumn(parts[0])
    ensures var v := Joined(Plains(parts), Sums(Sizes(Plains(parts))));
            SoundView(v) && (ViewRows(v) == Later(parts, 0) <==> FlagsPlain(parts))
  {
    PlainsSound(parts);
    hide Sound, AllPlainFlags, Sums, Sizes;
    var views := Plains(parts);
    hide SoundView, ViewRows, AllRows, Later, FlagsPlain, ViewType;
    JoinedRows(views);
    EntriesMatch(parts);
    LaterSplit(parts, 0);
    assert AllEntries(parts[..0]) == [];
  }
}
