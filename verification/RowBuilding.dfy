/** Building a block row by row. */
module RowBuilding {
  import opened Basics
  import opened TypeNames
  import opened Columns
  import opened Blocks
  import opened Pushing

  datatype Param = Param(key: bytes, value: Cell)

  /** A block after a push, complete or not, and how the push ended. */
  datatype Pushed = Pushed(columns: seq<RawColumn>, result: Result<()>)

  /** The first column of a name; the number of columns when there is none. */
  function IndexOf(columns: seq<RawColumn>, key: bytes): (i: nat)
    ensures i <= |columns| && (i < |columns| ==> columns[i].name == key)
    ensures forall k | 0 <= k < i :: columns[k].name != key
  {
    if |columns| == 0 then 0
    else
      var i := IndexOf(columns[..|columns| - 1], key);
      if i < |columns| - 1 || columns[|columns| - 1].name == key then i else |columns|
  }

  function RawRows(columns: seq<RawColumn>): nat {
    if |columns| == 0 then 0 else Length(columns[0].column)
  }

  function PushTo(columns: seq<RawColumn>, i: nat, v: Cell): Pushed
    requires i < |columns|
  {
    match PushColumn(columns[i].column, v)
    case Failure(e) => Pushed(columns, Failure(e))
    case Success(c) => Pushed(columns[i := columns[i].(column := c)], Success(()))
  }

  /** `put_param`: an unknown name makes a new column while the block has at most one row. Asking for the rows can
      panic: a nullable address column made with room has more addresses than flags. */
  function Put(columns: seq<RawColumn>, p: Param, capacity: nat): Pushed {
    var i := IndexOf(columns, p.key);
    if i < |columns| then PushTo(columns, i, p.value)
    else if |columns| > 0 && LengthPanics(columns[0].column) then
      Pushed(columns, Failure(Panic(LengthPanic(columns[0].column))))
    else if RawRows(columns) <= 1 then
      match EmptyColumn(ValueType(p.value), capacity)
      case Failure(e) => Pushed(columns, Failure(e))
      case Success(c) => PushTo(columns + [RawColumn(p.key, c)], |columns|, p.value)
    else Pushed(columns, Failure(OutOfRange))
  }

  /** `apply` of a row builder. */
  function PutRow(columns: seq<RawColumn>, row: seq<Param>, capacity: nat): Pushed
    decreases |row|
  {
    if |row| == 0 then Pushed(columns, Success(()))
    else
      var first := Put(columns, row[0], capacity);
      if first.result.Failure? then first else PutRow(first.columns, row[1..], capacity)
  }

  /** The block as the builder changes it. */
  class BlockBuilder {
    var columns: seq<RawColumn>
    const capacity: nat

    constructor (capacity: nat)
      ensures columns == [] && this.capacity == capacity
    {
      columns, this.capacity := [], capacity;
    }

    method Find(key: bytes) returns (i: nat)
      ensures i == IndexOf(columns, key)
    {
      i := 0;
      while i < |columns|
        invariant i <= |columns| && forall k | 0 <= k < i :: columns[k].name != key
      {
        if columns[i].name == key {
          return;
        }
        i := i + 1;
      }
    }

    method PutParam(p: Param) returns (r: Result<()>)
      modifies this`columns
      ensures Pushed(columns, r) == Put(old(columns), p, capacity)
      decreases if IndexOf(columns, p.key) < |columns| then 0 else 1
    {
      hide PushColumn, EmptyColumn, ValueType, RawRows, IndexOf, LengthPanics, LengthPanic;
      var i := Find(p.key);
      if i == |columns| {
        if |columns| > 0 && LengthPanics(columns[0].column) {
          return Failure(Panic(LengthPanic(columns[0].column)));
        }
        var n := RawRows(columns);
        if n > 1 {
          return Failure(OutOfRange);
        }
        var empty := EmptyColumn(ValueType(p.value), capacity);
        if empty.Failure? {
          return Failure(empty.error);
        }
        ghost var before := columns;
        columns := columns + [RawColumn(p.key, empty.value)];
        IndexAppend(before, RawColumn(p.key, empty.value), p.key);
        r := PutParam(p);
        return;
      }
      var pushed := PushColumn(columns[i].column, p.value);
      if pushed.Failure? {
        return Failure(pushed.error);
      }
      columns := columns[i := columns[i].(column := pushed.value)];
      return Success(());
    }

    method Push(row: seq<Param>) returns (r: Result<()>)
      modifies this`columns
      ensures Pushed(columns, r) == PutRow(old(columns), row, capacity)
    {
      hide Put;
      for k := 0 to |row|
        invariant PutRow(columns, row[k..], capacity) == PutRow(old(columns), row, capacity)
      {
        assert row[k..][1..] == row[k + 1..];
        var put := PutParam(row[k]);
        if put.Failure? {
          return put;
        }
      }
      return Success(());
    }
  }

  // ---------- one row ----------

  ghost predicate HasKey(row: seq<Param>, key: bytes) {
    exists k :: 0 <= k < |row| && row[k].key == key
  }

  ghost predicate HasName(columns: seq<RawColumn>, key: bytes) {
    exists j :: 0 <= j < |columns| && columns[j].name == key
  }

  /** All keys of the row are names of columns. */
  ghost predicate AllKnown(columns: seq<RawColumn>, row: seq<Param>) {
    forall k | 0 <= k < |row| :: HasName(columns, row[k].key)
  }

  ghost predicate DistinctKeys(row: seq<Param>) {
    forall i, j | 0 <= i < j < |row| :: row[i].key != row[j].key
  }

  ghost predicate DistinctNames(columns: seq<RawColumn>) {
    forall i, j | 0 <= i < j < |columns| :: columns[i].name != columns[j].name
  }

  /** The value can be pushed onto the column and will be kept as it is. */
  ghost predicate Takes(c: Column, v: Cell) {
    Sound(c) && StableType(TypeOfColumn(c)) && GoodValue(v, TypeOfColumn(c)) && Room(c, v)
  }

  /** The value suits the column of its name, or the column that would be made for it. */
  ghost predicate Suits(columns: seq<RawColumn>, p: Param, capacity: nat) {
    var i := IndexOf(columns, p.key);
    if i < |columns| then Takes(columns[i].column, p.value)
    else
      var t := ValueType(p.value);
      && StableType(t) && StartsEmpty(t, capacity) && EmptyColumn(t, capacity).Success?
      && Takes(EmptyColumn(t, capacity).value, p.value)
  }

  ghost predicate RowSuits(columns: seq<RawColumn>, row: seq<Param>, capacity: nat) {
    forall k | 0 <= k < |row| :: Suits(columns, row[k], capacity)
  }

  /** Column `j` after the row: with its value added, or as it was. */
  ghost predicate RowGiven(before: Column, after: Column, name: bytes, row: seq<Param>) {
    && (!HasKey(row, name) ==> after == before)
    && (forall k | 0 <= k < |row| && row[k].key == name :: PushColumn(before, row[k].value) == Success(after))
  }

  lemma IndexUnique(columns: seq<RawColumn>, j: nat)
    requires DistinctNames(columns) && j < |columns|
    ensures IndexOf(columns, columns[j].name) == j
  {
    var i := IndexOf(columns, columns[j].name);
  }

  lemma {:induction false} IndexAppend(columns: seq<RawColumn>, c: RawColumn, key: bytes)
    ensures IndexOf(columns + [c], key)
         == if IndexOf(columns, key) < |columns| then IndexOf(columns, key)
            else if c.name == key then |columns| else |columns| + 1
  {
    assert (columns + [c])[..|columns|] == columns;
  }

  lemma {:induction false} IndexReplace(columns: seq<RawColumn>, i: nat, c: Column, key: bytes)
    requires i < |columns|
    ensures IndexOf(columns[i := columns[i].(column := c)], key) == IndexOf(columns, key)
  {
    var n := |columns| - 1;
    var updated := columns[i := columns[i].(column := c)];
    if i < n {
      IndexReplace(columns[..n], i, c, key);
      assert updated[..n] == columns[..n][i := columns[i].(column := c)];
    } else {
      assert updated[..n] == columns[..n];
    }
  }

  /** What one `put_param` leaves. */
  lemma PutStep(columns: seq<RawColumn>, p: Param, capacity: nat)
    requires DistinctNames(columns) && Suits(columns, p, capacity)
    ensures var r, i := Put(columns, p, capacity), IndexOf(columns, p.key);
            && (i < |columns| ==> r.result.Success? && |r.columns| == |columns|)
            && (r.result.Success? ==>
                  && DistinctNames(r.columns) && |columns| <= |r.columns| <= |columns| + 1
                  && (|r.columns| > |columns| <==> i == |columns|)
                  && (forall j | 0 <= j < |columns| ::
                        r.columns[j].name == columns[j].name
                        && (if j == i then PushColumn(columns[j].column, p.value) == Success(r.columns[j].column)
                            else r.columns[j] == columns[j]))
                  && (i == |columns| ==>
                        r.columns[i].name == p.key && Sound(r.columns[i].column) && Length(r.columns[i].column) == 1))
  {
    hide PushColumn, EmptyColumn, Sound, Length, StableType, GoodValue, ValueType, At, TypeOfColumn;
    var i := IndexOf(columns, p.key);
    if i < |columns| {
      PushCell(columns[i].column, p.value);
    } else {
      EmptySound(ValueType(p.value), capacity);
      var c := EmptyColumn(ValueType(p.value), capacity).value;
      PushCell(c, p.value);
    }
  }

  /** What is left of a row suits what one `put_param` leaves. */
  lemma SuitsStill(columns: seq<RawColumn>, row: seq<Param>, capacity: nat)
    requires DistinctNames(columns) && DistinctKeys(row) && |row| > 0 && RowSuits(columns, row, capacity)
    requires Put(columns, row[0], capacity).result.Success?
    ensures RowSuits(Put(columns, row[0], capacity).columns, row[1..], capacity)
  {
    hide PushColumn, EmptyColumn, Takes, StableType, ValueType, Length;
    var p, i := row[0], IndexOf(columns, row[0].key);
    var after := Put(columns, p, capacity).columns;
    forall k | 0 <= k < |row[1..]| ensures Suits(after, row[1..][k], capacity) {
      var q := row[k + 1];
      assert Suits(columns, q, capacity) && q.key != p.key;
      if i < |columns| {
        IndexReplace(columns, i, PushColumn(columns[i].column, p.value).value, q.key);
      } else {
        var c := EmptyColumn(ValueType(p.value), capacity).value;
        IndexAppend(columns, RawColumn(p.key, c), q.key);
        IndexReplace(columns + [RawColumn(p.key, c)], i, PushColumn(c, p.value).value, q.key);
      }
    }
  }

  ghost predicate OneRow(c: Column) { Sound(c) && Length(c) == 1 }

  lemma RowStep(columns: seq<RawColumn>, row: seq<Param>, capacity: nat)
    requires |row| > 0
    ensures var first := Put(columns, row[0], capacity);
            PutRow(columns, row, capacity)
            == if first.result.Failure? then first else PutRow(first.columns, row[1..], capacity)
  {
    hide Put;
  }

  lemma NameIndex(columns: seq<RawColumn>, key: bytes)
    ensures HasName(columns, key) <==> IndexOf(columns, key) < |columns|
  {
    var i := IndexOf(columns, key);
    assert i < |columns| ==> columns[i].name == key;
  }

  lemma KnownStep(columns: seq<RawColumn>, after: seq<RawColumn>, row: seq<Param>)
    requires |row| > 0 && |after| == |columns| && forall j | 0 <= j < |columns| :: after[j].name == columns[j].name
    ensures AllKnown(columns, row) <==> HasName(columns, row[0].key) && AllKnown(after, row[1..])
  {
    forall key ensures HasName(columns, key) <==> HasName(after, key) {
      if HasName(columns, key) {
        var j :| 0 <= j < |columns| && columns[j].name == key;
        assert after[j].name == key;
      }
    }
    assert forall k | 0 < k < |row| :: row[1..][k - 1] == row[k];
    assert forall k | 0 <= k < |row[1..]| :: row[1..][k] == row[k + 1];
  }

  lemma GivenStep(before: Column, mid: Column, after: Column, name: bytes, row: seq<Param>)
    requires |row| > 0 && DistinctKeys(row) && RowGiven(mid, after, name, row[1..])
    requires if row[0].key == name then PushColumn(before, row[0].value) == Success(mid) else mid == before
    ensures RowGiven(before, after, name, row)
  {
    hide PushColumn;
    if row[0].key == name {
      assert !HasKey(row[1..], name);
      assert HasKey(row, name);
    } else {
      if HasKey(row[1..], name) {
        var k :| 0 <= k < |row[1..]| && row[1..][k].key == name;
        assert row[k + 1].key == name;
      }
      forall k | 0 <= k < |row| && row[k].key == name ensures PushColumn(before, row[k].value) == Success(after) {
        assert row[1..][k - 1] == row[k];
      }
      if HasKey(row, name) {
        var k :| 0 <= k < |row| && row[k].key == name;
        assert row[1..][k - 1].key == name;
      }
    }
  }

  lemma KeptNew(c: Column, after: Column, name: bytes, row: seq<Param>)
    requires |row| > 0 && DistinctKeys(row) && row[0].key == name && RowGiven(c, after, name, row[1..])
    ensures after == c
  {
    assert !HasKey(row[1..], name);
  }

  /** What a whole row leaves, when it is taken. */
  ghost predicate Shaped(columns: seq<RawColumn>, after: seq<RawColumn>, row: seq<Param>) {
    && DistinctNames(after) && |columns| <= |after|
    && (forall j | 0 <= j < |columns| ::
          after[j].name == columns[j].name && RowGiven(columns[j].column, after[j].column, columns[j].name, row))
    && (forall j | |columns| <= j < |after| :: OneRow(after[j].column))
    && (|after| == |columns| <==> AllKnown(columns, row))
  }

  lemma ShapedStep(columns: seq<RawColumn>, row: seq<Param>, capacity: nat, after: seq<RawColumn>)
    requires DistinctNames(columns) && DistinctKeys(row) && |row| > 0 && Suits(columns, row[0], capacity)
    requires Put(columns, row[0], capacity).result.Success?
    requires Shaped(Put(columns, row[0], capacity).columns, after, row[1..])
    ensures Shaped(columns, after, row)
  {
    hide PushColumn, Suits, Put, HasKey, HasName, OneRow, AllKnown, RowGiven;
    var p, i := row[0], IndexOf(columns, row[0].key);
    var mid := Put(columns, p, capacity).columns;
    PutStep(columns, p, capacity);
    NameIndex(columns, p.key);
    forall j | 0 <= j < |columns|
      ensures after[j].name == columns[j].name && RowGiven(columns[j].column, after[j].column, columns[j].name, row)
    {
      IndexUnique(columns, j);
      GivenStep(columns[j].column, mid[j].column, after[j].column, columns[j].name, row);
    }
    if i < |columns| {
      KnownStep(columns, mid, row);
    } else {
      KeptNew(mid[i].column, after[i].column, p.key, row);
      NewIsOneRow(mid[i].column);
      NotAllKnown(columns, row);
    }
  }

  lemma NewIsOneRow(c: Column)
    requires Sound(c) && Length(c) == 1
    ensures OneRow(c)
  {
  }

  lemma NotAllKnown(columns: seq<RawColumn>, row: seq<Param>)
    requires |row| > 0 && !HasName(columns, row[0].key)
    ensures !AllKnown(columns, row)
  {
  }

  lemma NothingPut(columns: seq<RawColumn>)
    requires DistinctNames(columns)
    ensures Shaped(columns, columns, [])
  {
  }

  /** What a whole row leaves, when it is taken: the old columns with the row's values added, and one-row columns
      for the keys that were no names. It is taken whenever all its keys are names. */
  lemma {:induction false} RowShape(columns: seq<RawColumn>, row: seq<Param>, capacity: nat)
    requires DistinctNames(columns) && DistinctKeys(row) && RowSuits(columns, row, capacity)
    ensures var r := PutRow(columns, row, capacity);
            && (AllKnown(columns, row) ==> r.result.Success?)
            && (r.result.Success? ==> Shaped(columns, r.columns, row))
    decreases |row|
  {
    if |row| == 0 {
      NothingPut(columns);
    } else {
      hide PushColumn, Suits, Put, PutRow, Shaped, AllKnown, HasName;
      RowStep(columns, row, capacity);
      PutStep(columns, row[0], capacity);
      NameIndex(columns, row[0].key);
      var first := Put(columns, row[0], capacity);
      if first.result.Success? {
        SuitsStill(columns, row, capacity);
        RowShape(first.columns, row[1..], capacity);
        var r := PutRow(columns, row, capacity);
        if r.result.Success? {
          ShapedStep(columns, row, capacity, r.columns);
        }
        if |first.columns| == |columns| {
          KnownStep(columns, first.columns, row);
        } else {
          NotAllKnown(columns, row);
        }
      } else {
        NotAllKnown(columns, row);
      }
    }
  }

  // ---------- rectangular blocks ----------

  ghost predicate AllRowsAre(columns: seq<RawColumn>, m: nat) {
    forall j | 0 <= j < |columns| :: Length(columns[j].column) == m
  }

  ghost predicate AllGiven(columns: seq<RawColumn>, row: seq<Param>) {
    forall j | 0 <= j < |columns| :: HasKey(row, columns[j].name)
  }

  /** A further row is taken and leaves a rectangular block with one row more exactly when its keys are the names of the
      columns, in whatever order. */
  lemma NextRow(columns: seq<RawColumn>, row: seq<Param>, capacity: nat, m: nat)
    requires DistinctNames(columns) && DistinctKeys(row) && RowSuits(columns, row, capacity)
    requires AllRowsAre(columns, m) && m >= 1
    ensures var r := PutRow(columns, row, capacity);
            r.result.Success? && AllRowsAre(r.columns, m + 1)
            <==> AllKnown(columns, row) && AllGiven(columns, row)
  {
    hide PushColumn, Suits, PutRow, AllKnown, HasName;
    RowShape(columns, row, capacity);
    var r := PutRow(columns, row, capacity);
    if r.result.Success? {
      forall j | 0 <= j < |columns|
        ensures Length(r.columns[j].column) == m + 1 <==> HasKey(row, columns[j].name)
      {
        GivenLength(columns, row, capacity, j, r.columns[j].column);
      }
      if |r.columns| > |columns| {
        assert OneRow(r.columns[|columns|].column);
      }
    }
  }

  lemma GivenLength(columns: seq<RawColumn>, row: seq<Param>, capacity: nat, j: nat, after: Column)
    requires DistinctNames(columns) && RowSuits(columns, row, capacity) && j < |columns|
    requires RowGiven(columns[j].column, after, columns[j].name, row)
    ensures Length(after) == Length(columns[j].column) + if HasKey(row, columns[j].name) then 1 else 0
  {
    hide PushColumn, Sound, Length, StableType, GoodValue, At;
    if HasKey(row, columns[j].name) {
      var k :| 0 <= k < |row| && row[k].key == columns[j].name;
      IndexUnique(columns, j);
      assert Suits(columns, row[k], capacity);
      PushCell(columns[j].column, row[k].value);
    }
  }

  // ---------- many rows ----------

  /** All rows pushed onto an empty block, one after the other. */
  function PutRows(rows: seq<seq<Param>>, capacity: nat): Pushed {
    if |rows| == 0 then Pushed([], Success(()))
    else
      var before := PutRows(rows[..|rows| - 1], capacity);
      if before.result.Failure? then before else PutRow(before.columns, rows[|rows| - 1], capacity)
  }

  /** The rows carry the same distinct keys, in any order. */
  ghost predicate SameKeys(rows: seq<seq<Param>>) {
    && (forall i | 0 <= i < |rows| :: DistinctKeys(rows[i]))
    && (forall i, key | 0 <= i < |rows| :: HasKey(rows[i], key) <==> HasKey(rows[0], key))
  }

  /** The value is of the type given for its key. */
  ghost predicate TypedParam(p: Param, ty: map<bytes, SqlType>) {
    p.key in ty && StableType(ty[p.key]) && GoodValue(p.value, ty[p.key])
  }

  ghost predicate TypedRow(row: seq<Param>, ty: map<bytes, SqlType>) {
    forall k | 0 <= k < |row| :: TypedParam(row[k], ty)
  }

  ghost predicate Typed(rows: seq<seq<Param>>, ty: map<bytes, SqlType>) {
    forall i | 0 <= i < |rows| :: TypedRow(rows[i], ty)
  }

  /** The array elements that a row gives for a key. */
  function RowElements(row: seq<Param>, key: bytes): nat {
    if |row| == 0 then 0
    else
      var p := row[|row| - 1];
      RowElements(row[..|row| - 1], key) + if p.key == key then Weight(p.value) else 0
  }

  function Elements(rows: seq<seq<Param>>, key: bytes): nat {
    if |rows| == 0 then 0 else Elements(rows[..|rows| - 1], key) + RowElements(rows[|rows| - 1], key)
  }

  /** The array elements given for a key can be counted in 64 bits. */
  ghost predicate Countable(rows: seq<seq<Param>>) {
    forall key :: Elements(rows, key) < TWO_64
  }

  /** The columns made for the keys of the row have no rows of their own. */
  ghost predicate AllStartEmpty(row: seq<Param>, ty: map<bytes, SqlType>, capacity: nat) {
    forall k | 0 <= k < |row| && row[k].key in ty :: StartsEmpty(ty[row[k].key], capacity)
  }

  /** Column `c`, of the given name, shows the value of every row. */
  ghost predicate Shows(c: Column, name: bytes, rows: seq<seq<Param>>) {
    && Sound(c) && Length(c) == |rows|
    && forall i, k | 0 <= i < |rows| && 0 <= k < |rows[i]| && rows[i][k].key == name :: At(c, i) == rows[i][k].value
  }

  /** The column has the type given for its name, and the elements that the rows gave for it. */
  ghost predicate OfType(c: RawColumn, rows: seq<seq<Param>>, ty: map<bytes, SqlType>) {
    && c.name in ty && Sound(c.column) && TypeOfColumn(c.column) == ty[c.name]
    && Bulk(c.column) == Elements(rows, c.name)
  }

  ghost predicate AllOfType(columns: seq<RawColumn>, rows: seq<seq<Param>>, ty: map<bytes, SqlType>) {
    forall j | 0 <= j < |columns| :: OfType(columns[j], rows, ty)
  }

  ghost predicate Filled(columns: seq<RawColumn>, rows: seq<seq<Param>>) {
    && |rows| > 0 && DistinctNames(columns)
    && (forall i | 0 <= i < |rows| :: AllKnown(columns, rows[i]) && AllGiven(columns, rows[i]))
    && forall j | 0 <= j < |columns| :: Shows(columns[j].column, columns[j].name, rows)
  }

  // ---------- the first row ----------

  /** One column for each parameter so far, with its value. */
  ghost predicate Begun(columns: seq<RawColumn>, done: seq<Param>) {
    && |columns| == |done|
    && forall j | 0 <= j < |done| ::
         columns[j].name == done[j].key && OneRow(columns[j].column) && Starts(columns[j].column, done[j].value)
  }

  ghost predicate Starts(c: Column, v: Cell) {
    Sound(c) && Length(c) == 1 && At(c, 0) == v && TypeOfColumn(c) == ValueType(v) && Bulk(c) == Weight(v)
  }

  lemma NewKey(columns: seq<RawColumn>, done: seq<Param>, key: bytes)
    requires Begun(columns, done)
    ensures IndexOf(columns, key) < |columns| ==> HasKey(done, key)
  {
    var i := IndexOf(columns, key);
    if i < |columns| {
      assert done[i].key == key;
    }
  }

  lemma PutNew(columns: seq<RawColumn>, done: seq<Param>, p: Param, capacity: nat)
    requires Begun(columns, done) && Suits(columns, p, capacity) && !HasKey(done, p.key)
    ensures var r := Put(columns, p, capacity);
            r.result.Success? && Begun(r.columns, done + [p])
  {
    hide PushColumn, EmptyColumn, Sound, Length, StableType, GoodValue, ValueType, At, TypeOfColumn;
    NewKey(columns, done, p.key);
    if |columns| > 0 {
      assert OneRow(columns[0].column);
      SoundLength(columns[0].column);
    }
    EmptySound(ValueType(p.value), capacity);
    PushCell(EmptyColumn(ValueType(p.value), capacity).value, p.value);
  }

  lemma {:induction false} FirstRow(columns: seq<RawColumn>, done: seq<Param>, row: seq<Param>, capacity: nat)
    requires Begun(columns, done) && DistinctKeys(done + row) && DistinctNames(columns)
    requires RowSuits(columns, row, capacity)
    ensures var r := PutRow(columns, row, capacity); r.result.Success? && Begun(r.columns, done + row)
    decreases |row|
  {
    hide Suits, Put, PutRow, Starts, OneRow;
    if |row| > 0 {
      RowStep(columns, row, capacity);
      assert (done + row)[|done|] == row[0];
      assert forall k | 0 <= k < |done| :: (done + row)[k] == done[k];
      assert DistinctKeys(row) by {
        assert forall k | 0 <= k < |row| :: (done + row)[|done| + k] == row[k];
      }
      assert !HasKey(done, row[0].key);
      PutNew(columns, done, row[0], capacity);
      PutStep(columns, row[0], capacity);
      SuitsStill(columns, row, capacity);
      assert done + [row[0]] + row[1..] == done + row;
      FirstRow(Put(columns, row[0], capacity).columns, done + [row[0]], row[1..], capacity);
    } else {
      NoneLeft(columns, done, capacity);
    }
  }

  lemma NoneLeft(columns: seq<RawColumn>, done: seq<Param>, capacity: nat)
    requires Begun(columns, done)
    ensures PutRow(columns, [], capacity) == Pushed(columns, Success(())) && done + [] == done
  {
  }

  lemma FirstFilled(row: seq<Param>, columns: seq<RawColumn>)
    requires Begun(columns, row) && DistinctKeys(row)
    ensures Filled(columns, [row])
  {
    hide Sound, Length, At;
    forall k | 0 <= k < |row| ensures HasName(columns, row[k].key) {
      assert columns[k].name == row[k].key;
    }
    forall j | 0 <= j < |columns|
      ensures HasKey(row, columns[j].name) && Shows(columns[j].column, columns[j].name, [row])
    {
      assert row[j].key == columns[j].name;
      assert Starts(columns[j].column, row[j].value);
    }
  }

  // ---------- the rows after it ----------

  lemma ShowsNext(before: RawColumn, after: Column, rows: seq<seq<Param>>, row: seq<Param>)
    requires Shows(before.column, before.name, rows) && DistinctKeys(row) && HasKey(row, before.name)
    requires RowGiven(before.column, after, before.name, row)
    requires forall k | 0 <= k < |row| && row[k].key == before.name :: Takes(before.column, row[k].value)
    ensures Shows(after, before.name, rows + [row])
  {
    hide PushColumn, Sound, Length, StableType, GoodValue, At, TypeOfColumn;
    var k :| 0 <= k < |row| && row[k].key == before.name;
    PushCell(before.column, row[k].value);
    forall i, q | 0 <= i < |rows + [row]| && 0 <= q < |(rows + [row])[i]| && (rows + [row])[i][q].key == before.name
      ensures At(after, i) == (rows + [row])[i][q].value
    {
      if i < |rows| {
        assert (rows + [row])[i] == rows[i];
        assert At(after, i) == At(before.column, i);
      }
    }
  }

  lemma FilledNext(columns: seq<RawColumn>, rows: seq<seq<Param>>, row: seq<Param>, capacity: nat)
    requires Filled(columns, rows) && DistinctKeys(row) && RowSuits(columns, row, capacity)
    requires forall key :: HasKey(row, key) <==> HasKey(rows[0], key)
    ensures var r := PutRow(columns, row, capacity); r.result.Success? && Filled(r.columns, rows + [row])
  {
    hide PutRow, Suits, Shows, RowGiven, OneRow;
    RowKeysKnown(columns, rows[0], row);
    RowShape(columns, row, capacity);
    var after := PutRow(columns, row, capacity).columns;
    forall j | 0 <= j < |columns| ensures Shows(after[j].column, columns[j].name, rows + [row]) {
      SuitsTakes(columns, row, capacity, j);
      ShowsNext(columns[j], after[j].column, rows, row);
    }
    forall i | 0 <= i < |rows + [row]|
      ensures AllKnown(after, (rows + [row])[i]) && AllGiven(after, (rows + [row])[i])
    {
      assert (rows + [row])[i] == if i < |rows| then rows[i] else row;
      SameNames(columns, after, (rows + [row])[i]);
    }
  }

  lemma RowKeysKnown(columns: seq<RawColumn>, first: seq<Param>, row: seq<Param>)
    requires AllKnown(columns, first) && AllGiven(columns, first)
    requires forall key :: HasKey(row, key) <==> HasKey(first, key)
    ensures AllKnown(columns, row) && AllGiven(columns, row)
  {
    forall k | 0 <= k < |row| ensures HasName(columns, row[k].key) {
      assert HasKey(row, row[k].key);
      var q :| 0 <= q < |first| && first[q].key == row[k].key;
      assert HasName(columns, first[q].key);
    }
  }

  lemma SuitsTakes(columns: seq<RawColumn>, row: seq<Param>, capacity: nat, j: nat)
    requires DistinctNames(columns) && RowSuits(columns, row, capacity) && j < |columns|
    ensures forall k | 0 <= k < |row| && row[k].key == columns[j].name :: Takes(columns[j].column, row[k].value)
  {
    hide Takes, StableType, EmptyColumn;
    IndexUnique(columns, j);
    forall k | 0 <= k < |row| && row[k].key == columns[j].name ensures Takes(columns[j].column, row[k].value) {
      assert Suits(columns, row[k], capacity);
    }
  }

  lemma SameNames(columns: seq<RawColumn>, after: seq<RawColumn>, row: seq<Param>)
    requires |after| == |columns| && forall j | 0 <= j < |columns| :: after[j].name == columns[j].name
    requires AllKnown(columns, row) && AllGiven(columns, row)
    ensures AllKnown(after, row) && AllGiven(after, row)
  {
    hide HasKey;
    forall k | 0 <= k < |row| ensures HasName(after, row[k].key) {
      assert HasName(columns, row[k].key);
      var j :| 0 <= j < |columns| && columns[j].name == row[k].key;
      assert after[j].name == row[k].key;
    }
  }

  // ---------- types of the columns ----------

  lemma {:induction false} NoElements(row: seq<Param>, key: bytes)
    requires !HasKey(row, key)
    ensures RowElements(row, key) == 0
    decreases |row|
  {
    if |row| > 0 {
      var n := |row| - 1;
      assert row[n].key != key;
      assert forall k | 0 <= k < n :: row[..n][k] == row[k];
      NoElements(row[..n], key);
    }
  }

  lemma {:induction false} ElementsOf(row: seq<Param>, k: nat)
    requires DistinctKeys(row) && k < |row|
    ensures RowElements(row, row[k].key) == Weight(row[k].value)
    decreases |row|
  {
    hide Weight;
    var n := |row| - 1;
    var front := row[..n];
    assert forall i | 0 <= i < n :: front[i] == row[i];
    if k < n {
      ElementsOf(front, k);
      assert row[n].key != row[k].key;
    } else {
      NoElements(front, row[k].key);
    }
  }

  lemma ElementsStep(rows: seq<seq<Param>>, row: seq<Param>, key: bytes)
    ensures Elements(rows + [row], key) == Elements(rows, key) + RowElements(row, key)
  {
    hide RowElements;
    assert (rows + [row])[..|rows|] == rows;
  }

  lemma ElementsOne(row: seq<Param>, key: bytes)
    ensures Elements([row], key) == RowElements(row, key)
  {
    ElementsStep([], row, key);
    assert [] + [row] == [row];
  }

  lemma FirstSuits(row: seq<Param>, ty: map<bytes, SqlType>, capacity: nat)
    requires DistinctKeys(row) && TypedRow(row, ty) && Countable([row]) && AllStartEmpty(row, ty, capacity)
    ensures RowSuits([], row, capacity)
  {
    hide StableType, GoodValue, Weight, Bulk, Sound, EmptyColumn, ValueType, StartsEmpty, TypeOfColumn;
    hide RowElements, Elements;
    forall k | 0 <= k < |row| ensures Suits([], row[k], capacity) {
      var p := row[k];
      assert TypedParam(p, ty);
      TypeIsUnique(p.value, ty[p.key]);
      EmptySound(ty[p.key], capacity);
      ElementsOf(row, k);
      ElementsOne(row, p.key);
      assert Elements([row], p.key) < TWO_64;
    }
  }

  lemma FirstTyped(columns: seq<RawColumn>, row: seq<Param>, ty: map<bytes, SqlType>)
    requires Begun(columns, row) && DistinctKeys(row) && TypedRow(row, ty)
    ensures AllOfType(columns, [row], ty)
  {
    hide StableType, GoodValue, Weight, Bulk, Sound, ValueType, TypeOfColumn, RowElements, Elements, At, Length;
    forall j | 0 <= j < |columns| ensures OfType(columns[j], [row], ty) {
      var p := row[j];
      assert TypedParam(p, ty) && Starts(columns[j].column, p.value);
      TypeIsUnique(p.value, ty[p.key]);
      ElementsOf(row, j);
      ElementsOne(row, p.key);
    }
  }

  lemma NextSuits(columns: seq<RawColumn>, rows: seq<seq<Param>>, row: seq<Param>, ty: map<bytes, SqlType>,
                  capacity: nat)
    requires AllOfType(columns, rows, ty) && AllKnown(columns, row)
    requires DistinctKeys(row) && TypedRow(row, ty) && Countable(rows + [row])
    ensures RowSuits(columns, row, capacity)
  {
    hide StableType, GoodValue, Weight, Bulk, Sound, EmptyColumn, ValueType, StartsEmpty, TypeOfColumn;
    hide RowElements, Elements;
    hide HasName;
    forall k | 0 <= k < |row| ensures Suits(columns, row[k], capacity) {
      var p := row[k];
      assert TypedParam(p, ty) && HasName(columns, p.key);
      NameIndex(columns, p.key);
      assert OfType(columns[IndexOf(columns, p.key)], rows, ty);
      ElementsOf(row, k);
      ElementsStep(rows, row, p.key);
      assert Elements(rows + [row], p.key) < TWO_64;
    }
  }

  lemma TypedNext(before: RawColumn, after: RawColumn, rows: seq<seq<Param>>, row: seq<Param>, ty: map<bytes, SqlType>)
    requires OfType(before, rows, ty) && after.name == before.name && DistinctKeys(row) && HasKey(row, before.name)
    requires RowGiven(before.column, after.column, before.name, row)
    requires forall k | 0 <= k < |row| && row[k].key == before.name :: Takes(before.column, row[k].value)
    ensures OfType(after, rows + [row], ty)
  {
    hide PushColumn, Sound, Length, StableType, GoodValue, At, TypeOfColumn, Bulk, Weight, RowElements, Elements;
    var k :| 0 <= k < |row| && row[k].key == before.name;
    PushCell(before.column, row[k].value);
    ElementsOf(row, k);
    ElementsStep(rows, row, before.name);
  }

  lemma AllTypedNext(columns: seq<RawColumn>, rows: seq<seq<Param>>, row: seq<Param>, ty: map<bytes, SqlType>,
                     capacity: nat)
    requires Filled(columns, rows) && DistinctKeys(row) && RowSuits(columns, row, capacity)
    requires AllOfType(columns, rows, ty) && forall key :: HasKey(row, key) <==> HasKey(rows[0], key)
    ensures var r := PutRow(columns, row, capacity); r.result.Success? && AllOfType(r.columns, rows + [row], ty)
  {
    hide PutRow, Suits, Shows, RowGiven, OneRow, OfType;
    RowKeysKnown(columns, rows[0], row);
    RowShape(columns, row, capacity);
    var after := PutRow(columns, row, capacity).columns;
    forall j | 0 <= j < |columns| ensures OfType(after[j], rows + [row], ty) {
      SuitsTakes(columns, row, capacity, j);
      TypedNext(columns[j], after[j], rows, row, ty);
    }
  }

  lemma CountableFront(rows: seq<seq<Param>>, row: seq<Param>)
    requires Countable(rows + [row])
    ensures Countable(rows)
  {
    hide Elements, RowElements;
    forall key ensures Elements(rows, key) < TWO_64 {
      ElementsStep(rows, row, key);
      assert Elements(rows + [row], key) < TWO_64;
    }
  }

  lemma FirstFills(row: seq<Param>, ty: map<bytes, SqlType>, capacity: nat)
    requires DistinctKeys(row) && TypedRow(row, ty) && Countable([row]) && AllStartEmpty(row, ty, capacity)
    ensures var r := PutRow([], row, capacity);
            r.result.Success? && Filled(r.columns, [row]) && AllOfType(r.columns, [row], ty)
  {
    hide RowSuits, PutRow, Filled, AllOfType;
    FirstSuits(row, ty, capacity);
    assert [] + row == row;
    FirstRow([], [], row, capacity);
    FirstFilled(row, PutRow([], row, capacity).columns);
    FirstTyped(PutRow([], row, capacity).columns, row, ty);
  }

  lemma NextFills(columns: seq<RawColumn>, rows: seq<seq<Param>>, row: seq<Param>, ty: map<bytes, SqlType>,
                  capacity: nat)
    requires Filled(columns, rows) && AllOfType(columns, rows, ty)
    requires DistinctKeys(row) && TypedRow(row, ty) && Countable(rows + [row])
    requires forall key :: HasKey(row, key) <==> HasKey(rows[0], key)
    ensures var r := PutRow(columns, row, capacity);
            r.result.Success? && Filled(r.columns, rows + [row]) && AllOfType(r.columns, rows + [row], ty)
  {
    hide RowSuits, PutRow, AllOfType, HasKey, Shows;
    RowKeysKnown(columns, rows[0], row);
    NextSuits(columns, rows, row, ty, capacity);
    FilledNext(columns, rows, row, capacity);
    AllTypedNext(columns, rows, row, ty, capacity);
  }

  /** Columns that start empty are filled by the rows. */
  lemma {:induction false} EmptyColumnsFill(rows: seq<seq<Param>>, ty: map<bytes, SqlType>, capacity: nat)
    requires |rows| > 0 && SameKeys(rows) && Typed(rows, ty) && Countable(rows)
    requires AllStartEmpty(rows[0], ty, capacity)
    ensures var r := PutRows(rows, capacity);
            r.result.Success? && Filled(r.columns, rows) && AllOfType(r.columns, rows, ty)
    decreases |rows|
  {
    hide PutRow, TypedRow, Filled, AllOfType, HasKey, Countable, AllStartEmpty;
    var n := |rows| - 1;
    var front := rows[..n];
    assert front + [rows[n]] == rows;
    if n == 0 {
      FirstFills(rows[0], ty, capacity);
    } else {
      assert forall i | 0 <= i < n :: front[i] == rows[i];
      CountableFront(front, rows[n]);
      EmptyColumnsFill(front, ty, capacity);
      NextFills(PutRows(front, capacity).columns, front, rows[n], ty, capacity);
    }
  }

  // ---------- counting what a key was given ----------

  /** How often a row gives a value for a key. */
  function Times(row: seq<Param>, key: bytes): nat {
    if |row| == 0 then 0
    else Times(row[..|row| - 1], key) + if row[|row| - 1].key == key then 1 else 0
  }

  /** All parameters, row after row. */
  function Flat(rows: seq<seq<Param>>): seq<Param> {
    if |rows| == 0 then [] else Flat(rows[..|rows| - 1]) + rows[|rows| - 1]
  }

  lemma TimesSnoc(row: seq<Param>, p: Param, key: bytes)
    ensures Times(row + [p], key) == Times(row, key) + if p.key == key then 1 else 0
    ensures RowElements(row + [p], key) == RowElements(row, key) + if p.key == key then Weight(p.value) else 0
    ensures HasKey(row + [p], key) <==> HasKey(row, key) || p.key == key
  {
    hide Weight;
    assert (row + [p])[..|row|] == row;
    assert (row + [p])[|row|] == p;
    if HasKey(row, key) {
      var k :| 0 <= k < |row| && row[k].key == key;
      assert (row + [p])[k].key == key;
    }
  }

  lemma {:induction false} TimesSum(a: seq<Param>, b: seq<Param>, key: bytes)
    ensures Times(a + b, key) == Times(a, key) + Times(b, key)
    ensures RowElements(a + b, key) == RowElements(a, key) + RowElements(b, key)
    decreases |b|
  {
    hide Times, RowElements, Weight;
    if |b| == 0 {
      assert a + b == a;
      NoTimes(key);
    } else {
      var n := |b| - 1;
      assert a + b == a + b[..n] + [b[n]] && b[..n] + [b[n]] == b;
      TimesSum(a, b[..n], key);
      TimesSnoc(a + b[..n], b[n], key);
      TimesSnoc(b[..n], b[n], key);
    }
  }

  lemma NoTimes(key: bytes)
    ensures Times([], key) == 0 && RowElements([], key) == 0
  {
  }

  lemma {:induction false} FlatElements(rows: seq<seq<Param>>, key: bytes)
    ensures RowElements(Flat(rows), key) == Elements(rows, key)
    decreases |rows|
  {
    hide RowElements;
    if |rows| == 0 {
      NoTimes(key);
    } else {
      FlatElements(rows[..|rows| - 1], key);
      TimesSum(Flat(rows[..|rows| - 1]), rows[|rows| - 1], key);
    }
  }

  /** A key is given exactly when it is given at least once. */
  lemma {:induction false} TimesGiven(row: seq<Param>, key: bytes)
    ensures HasKey(row, key) <==> Times(row, key) > 0
    decreases |row|
  {
    if |row| > 0 {
      var n := |row| - 1;
      TimesGiven(row[..n], key);
      TimesSnoc(row[..n], row[n], key);
      assert row[..n] + [row[n]] == row;
    }
  }

  ghost predicate NoneTwice(row: seq<Param>) {
    forall key :: Times(row, key) <= 1
  }

  /** Keys are distinct exactly when none is given twice. */
  lemma {:induction false} TimesDistinct(row: seq<Param>)
    ensures DistinctKeys(row) <==> NoneTwice(row)
    decreases |row|
  {
    hide Times;
    if |row| == 0 {
      forall key ensures Times(row, key) <= 1 { NoTimes(key); }
    } else {
      var n := |row| - 1;
      var front := row[..n];
      TimesDistinct(front);
      assert front + [row[n]] == row;
      TimesGiven(front, row[n].key);
      TimesSnoc(front, row[n], row[n].key);
      DistinctFront(row);
      if DistinctKeys(row) {
        forall key ensures Times(row, key) <= 1 {
          TimesSnoc(front, row[n], key);
          assert Times(front, key) <= 1;
        }
      }
      if NoneTwice(row) {
        forall key ensures Times(front, key) <= 1 {
          TimesSnoc(front, row[n], key);
          assert Times(row, key) <= 1;
        }
        assert Times(row, row[n].key) <= 1;
      }
    }
  }

  lemma DistinctFront(row: seq<Param>)
    requires |row| > 0
    ensures var n := |row| - 1; DistinctKeys(row) <==> DistinctKeys(row[..n]) && !HasKey(row[..n], row[n].key)
  {
    var n := |row| - 1;
    assert forall k | 0 <= k < n :: row[..n][k] == row[k];
  }

  // ---------- the column of a key ----------

  /** The column after its key was given some values: as many rows, or more at its bottom when it did not start
      empty. */
  ghost predicate Grown(c: Column, t: SqlType, capacity: nat, times: nat, elements: nat) {
    if StartsEmpty(t, capacity) then Sound(c) && TypeOfColumn(c) == t && Length(c) == times && Bulk(c) == elements
    else Overfull(c, times)
  }

  lemma GrownStart(t: SqlType, capacity: nat)
    requires StableType(t)
    ensures EmptyColumn(t, capacity).Success? && Grown(EmptyColumn(t, capacity).value, t, capacity, 0, 0)
  {
    hide Sound, TypeOfColumn, Length, Bulk, Overfull, EmptyColumn, StableType, StartsEmpty;
    if StartsEmpty(t, capacity) {
      EmptySound(t, capacity);
    } else {
      EmptyOverfull(t, capacity);
    }
  }

  lemma GrownPush(c: Column, t: SqlType, capacity: nat, times: nat, elements: nat, v: Cell)
    requires Grown(c, t, capacity, times, elements) && PushColumn(c, v).Success?
    requires StableType(t) && GoodValue(v, t) && elements + Weight(v) < TWO_64
    ensures Grown(PushColumn(c, v).value, t, capacity, times + 1, elements + Weight(v))
  {
    hide Sound, At, TypeOfColumn, Length, Bulk, Overfull, PushColumn, StableType, GoodValue, StartsEmpty, Weight;
    if StartsEmpty(t, capacity) {
      PushCell(c, v);
    } else {
      PushOverfull(c, v, times);
    }
  }

  /** The first column of the key shows what the key was given so far; there is none before that. */
  ghost predicate Kept(columns: seq<RawColumn>, done: seq<Param>, key: bytes, t: SqlType, capacity: nat) {
    var i := IndexOf(columns, key);
    if Times(done, key) == 0 then i == |columns|
    else i < |columns| && Grown(columns[i].column, t, capacity, Times(done, key), RowElements(done, key))
  }

  /** The key has the column it had, or still none. */
  ghost predicate Untouched(columns: seq<RawColumn>, after: seq<RawColumn>, key: bytes) {
    var i, j := IndexOf(columns, key), IndexOf(after, key);
    if i == |columns| then j == |after| else j < |after| && after[j] == columns[i]
  }

  lemma PutOther(columns: seq<RawColumn>, p: Param, capacity: nat, key: bytes)
    requires p.key != key && Put(columns, p, capacity).result.Success?
    ensures Untouched(columns, Put(columns, p, capacity).columns, key)
  {
    hide PushColumn, EmptyColumn, ValueType, Length;
    var i := IndexOf(columns, p.key);
    if i < |columns| {
      IndexReplace(columns, i, PushColumn(columns[i].column, p.value).value, key);
    } else {
      var c := EmptyColumn(ValueType(p.value), capacity).value;
      IndexAppend(columns, RawColumn(p.key, c), key);
      IndexReplace(columns + [RawColumn(p.key, c)], i, PushColumn(c, p.value).value, key);
    }
  }

  lemma PushToGrown(columns: seq<RawColumn>, i: nat, v: Cell, t: SqlType, capacity: nat, times: nat, elements: nat)
    requires i < |columns| && IndexOf(columns, columns[i].name) == i && PushTo(columns, i, v).result.Success?
    requires Grown(columns[i].column, t, capacity, times, elements)
    requires StableType(t) && GoodValue(v, t) && elements + Weight(v) < TWO_64
    ensures var r, key := PushTo(columns, i, v).columns, columns[i].name;
            var j := IndexOf(r, key);
            j < |r| && Grown(r[j].column, t, capacity, times + 1, elements + Weight(v))
  {
    hide PushColumn, Grown, StableType, GoodValue, Weight;
    var c := PushColumn(columns[i].column, v).value;
    IndexReplace(columns, i, c, columns[i].name);
    GrownPush(columns[i].column, t, capacity, times, elements, v);
    assert PushTo(columns, i, v).columns == columns[i := columns[i].(column := c)];
  }

  /** An unknown name that is taken: the value goes to a new column. */
  lemma PutMakes(columns: seq<RawColumn>, p: Param, capacity: nat)
    requires Put(columns, p, capacity).result.Success? && IndexOf(columns, p.key) == |columns|
    ensures EmptyColumn(ValueType(p.value), capacity).Success?
    ensures var c := RawColumn(p.key, EmptyColumn(ValueType(p.value), capacity).value);
            Put(columns, p, capacity) == PushTo(columns + [c], |columns|, p.value)
  {
    hide EmptyColumn, ValueType, IndexOf, PushTo, Length;
  }

  lemma PutFirst(columns: seq<RawColumn>, p: Param, t: SqlType, capacity: nat)
    requires Put(columns, p, capacity).result.Success? && IndexOf(columns, p.key) == |columns|
    requires StableType(t) && GoodValue(p.value, t) && Weight(p.value) < TWO_64
    ensures var r := Put(columns, p, capacity).columns;
            var j := IndexOf(r, p.key);
            j < |r| && Grown(r[j].column, t, capacity, 1, Weight(p.value))
  {
    hide EmptyColumn, ValueType, IndexOf, PushTo, Put, Grown, StableType, GoodValue, Weight;
    TypeIsUnique(p.value, t);
    PutMakes(columns, p, capacity);
    GrownStart(t, capacity);
    var c := RawColumn(p.key, EmptyColumn(t, capacity).value);
    IndexAppend(columns, c, p.key);
    PushToGrown(columns + [c], |columns|, p.value, t, capacity, 0, 0);
  }

  lemma PutKnown(columns: seq<RawColumn>, p: Param, capacity: nat)
    requires IndexOf(columns, p.key) < |columns|
    ensures Put(columns, p, capacity) == PushTo(columns, IndexOf(columns, p.key), p.value)
  {
    hide IndexOf, PushTo;
  }

  lemma PutKept(columns: seq<RawColumn>, done: seq<Param>, p: Param, key: bytes, t: SqlType, capacity: nat)
    requires Kept(columns, done, key, t, capacity) && Put(columns, p, capacity).result.Success?
    requires p.key == key ==> StableType(t) && GoodValue(p.value, t)
    requires RowElements(done + [p], key) < TWO_64
    ensures Kept(Put(columns, p, capacity).columns, done + [p], key, t, capacity)
  {
    hide Put, PushTo, IndexOf, Grown, Times, RowElements, Weight, StableType, GoodValue;
    TimesSnoc(done, p, key);
    var i := IndexOf(columns, key);
    if p.key != key {
      PutOther(columns, p, capacity, key);
    } else if Times(done, key) == 0 {
      NoneGiven(done, key);
      PutFirst(columns, p, t, capacity);
    } else {
      PutKnown(columns, p, capacity);
      PushToGrown(columns, i, p.value, t, capacity, Times(done, key), RowElements(done, key));
    }
  }

  lemma NoneGiven(row: seq<Param>, key: bytes)
    requires Times(row, key) == 0
    ensures RowElements(row, key) == 0
  {
    hide Times, RowElements;
    TimesGiven(row, key);
    NoElements(row, key);
  }

  lemma NoRow(columns: seq<RawColumn>, capacity: nat)
    ensures PutRow(columns, [], capacity) == Pushed(columns, Success(()))
  {
  }

  lemma {:induction false} RowKept(columns: seq<RawColumn>, done: seq<Param>, row: seq<Param>, key: bytes,
                                   ty: map<bytes, SqlType>, capacity: nat)
    requires key in ty && TypedRow(row, ty) && Kept(columns, done, key, ty[key], capacity)
    requires PutRow(columns, row, capacity).result.Success? && RowElements(done + row, key) < TWO_64
    ensures Kept(PutRow(columns, row, capacity).columns, done + row, key, ty[key], capacity)
    decreases |row|
  {
    hide Put, PutRow, Kept, RowElements, StableType, GoodValue;
    if |row| == 0 {
      NoRow(columns, capacity);
      assert done + row == done;
    } else {
      RowStep(columns, row, capacity);
      var p, rest := row[0], row[1..];
      assert TypedParam(p, ty);
      assert done + row == done + [p] + rest;
      TimesSum(done + [p], rest, key);
      PutKept(columns, done, p, key, ty[key], capacity);
      assert TypedRow(rest, ty) by { assert forall k | 0 <= k < |rest| :: rest[k] == row[k + 1]; }
      RowKept(Put(columns, p, capacity).columns, done + [p], rest, key, ty, capacity);
    }
  }

  lemma NothingKept(key: bytes, t: SqlType, capacity: nat)
    ensures Kept([], [], key, t, capacity)
  {
  }

  /** After all rows, the first column of a key shows what all of them gave for it. */
  lemma {:induction false} RowsKept(rows: seq<seq<Param>>, key: bytes, ty: map<bytes, SqlType>, capacity: nat)
    requires key in ty && Typed(rows, ty) && PutRows(rows, capacity).result.Success? && Countable(rows)
    ensures Kept(PutRows(rows, capacity).columns, Flat(rows), key, ty[key], capacity)
    decreases |rows|
  {
    hide PutRow, TypedRow, Kept, RowElements, Elements;
    if |rows| == 0 {
      NothingKept(key, ty[key], capacity);
    } else {
      var n := |rows| - 1;
      var front := rows[..n];
      assert front + [rows[n]] == rows && forall i | 0 <= i < n :: front[i] == rows[i];
      CountableFront(front, rows[n]);
      RowsKept(front, key, ty, capacity);
      FlatElements(rows, key);
      assert Elements(rows, key) < TWO_64;
      RowKept(PutRows(front, capacity).columns, Flat(front), rows[n], key, ty, capacity);
    }
  }

  // ---------- when rows make a rectangular block ----------

  /** A key given by every row, as often as there are rows, is given once by each. The same holds of a key that no
      row gives twice. */
  lemma {:induction false} OnceEach(rows: seq<seq<Param>>, key: bytes)
    ensures (forall i | 0 <= i < |rows| :: Times(rows[i], key) >= 1) ==>
              Times(Flat(rows), key) >= |rows|
              && (Times(Flat(rows), key) == |rows| ==> forall i | 0 <= i < |rows| :: Times(rows[i], key) == 1)
    ensures (forall i | 0 <= i < |rows| :: Times(rows[i], key) <= 1) ==>
              Times(Flat(rows), key) <= |rows|
              && (Times(Flat(rows), key) == |rows| ==> forall i | 0 <= i < |rows| :: Times(rows[i], key) == 1)
    decreases |rows|
  {
    hide Times;
    if |rows| == 0 {
      NoTimes(key);
    } else {
      var n := |rows| - 1;
      var front := rows[..n];
      assert forall i | 0 <= i < n :: front[i] == rows[i];
      OnceEach(front, key);
      TimesSum(Flat(front), rows[n], key);
    }
  }

  lemma FlatGiven(rows: seq<seq<Param>>, i: nat, key: bytes)
    requires i < |rows| && HasKey(rows[i], key)
    ensures Times(Flat(rows), key) > 0
    decreases |rows|
  {
    hide Times, HasKey;
    var n := |rows| - 1;
    TimesSum(Flat(rows[..n]), rows[n], key);
    if i < n {
      FlatGiven(rows[..n], i, key);
    } else {
      TimesGiven(rows[n], key);
    }
  }

  /** What a filled block says of a key: its column started empty, and every row gave it once. */
  lemma FilledKey(rows: seq<seq<Param>>, ty: map<bytes, SqlType>, capacity: nat, i: nat, key: bytes)
    requires Typed(rows, ty) && Countable(rows) && i < |rows| && HasKey(rows[i], key)
    requires var r := PutRows(rows, capacity); r.result.Success? && Filled(r.columns, rows)
    ensures key in ty && StartsEmpty(ty[key], capacity)
    ensures forall j | 0 <= j < |rows| :: Times(rows[j], key) == 1
  {
    hide PutRows, Times, Grown, StartsEmpty, Countable, StableType, GoodValue, RowElements;
    KeyTyped(rows, ty, i, key);
    RowsKept(rows, key, ty, capacity);
    FlatGiven(rows, i, key);
    var columns := PutRows(rows, capacity).columns;
    var c := columns[IndexOf(columns, key)];
    forall j | 0 <= j < |rows| ensures Times(rows[j], key) >= 1 {
      assert AllGiven(columns, rows[j]) && HasKey(rows[j], c.name);
      TimesGiven(rows[j], key);
    }
    OnceEach(rows, key);
    GrownLength(c.column, ty[key], capacity, Times(Flat(rows), key), RowElements(Flat(rows), key), |rows|);
  }

  lemma GrownLength(c: Column, t: SqlType, capacity: nat, times: nat, elements: nat, m: nat)
    requires Grown(c, t, capacity, times, elements) && m <= times && Sound(c) && Length(c) == m
    ensures StartsEmpty(t, capacity) && times == m
  {
    hide Sound, Length, Overfull, TypeOfColumn, Bulk, StartsEmpty;
    if !StartsEmpty(t, capacity) {
      OverfullWrong(c, times, m);
    }
  }

  lemma KeyTyped(rows: seq<seq<Param>>, ty: map<bytes, SqlType>, i: nat, key: bytes)
    requires Typed(rows, ty) && i < |rows| && HasKey(rows[i], key)
    ensures key in ty && StableType(ty[key])
  {
    hide StableType, GoodValue;
    assert TypedRow(rows[i], ty);
    var k :| 0 <= k < |rows[i]| && rows[i][k].key == key;
    assert TypedParam(rows[i][k], ty);
  }

  /** In a filled block all rows gave the same distinct keys. */
  lemma FilledKeys(rows: seq<seq<Param>>, ty: map<bytes, SqlType>, capacity: nat)
    requires Typed(rows, ty) && Countable(rows) && |rows| > 0
    requires var r := PutRows(rows, capacity); r.result.Success? && Filled(r.columns, rows)
    ensures SameKeys(rows) && AllStartEmpty(rows[0], ty, capacity)
  {
    hide PutRows, Times, Filled, HasKey, StartsEmpty, Countable, Typed;
    forall i, key | 0 <= i < |rows| ensures HasKey(rows[i], key) <==> HasKey(rows[0], key) {
      TimesGiven(rows[i], key);
      TimesGiven(rows[0], key);
      if HasKey(rows[i], key) { FilledKey(rows, ty, capacity, i, key); }
      if HasKey(rows[0], key) { FilledKey(rows, ty, capacity, 0, key); }
    }
    forall i | 0 <= i < |rows| ensures DistinctKeys(rows[i]) {
      forall key ensures Times(rows[i], key) <= 1 {
        TimesGiven(rows[i], key);
        if HasKey(rows[i], key) { FilledKey(rows, ty, capacity, i, key); }
      }
      TimesDistinct(rows[i]);
    }
    forall k | 0 <= k < |rows[0]| && rows[0][k].key in ty ensures StartsEmpty(ty[rows[0][k].key], capacity) {
      KeyAt(rows[0], k);
      FilledKey(rows, ty, capacity, 0, rows[0][k].key);
    }
  }

  lemma KeyAt(row: seq<Param>, k: nat)
    requires k < |row|
    ensures HasKey(row, row[k].key)
  {
  }

  /** Rows with values of one stable type for each key make a rectangular block: as many rows as were pushed, a
      column of its type for every key, and in row `i` the value that row gave for it. They do so if and only if all
      rows give the same distinct keys, in any order, and no column starts with rows of its own, as address columns
      do in a block with a capacity. */
  lemma RowsFill(rows: seq<seq<Param>>, ty: map<bytes, SqlType>, capacity: nat)
    requires |rows| > 0 && Typed(rows, ty) && Countable(rows)
    ensures var r := PutRows(rows, capacity);
            r.result.Success? && Filled(r.columns, rows) && AllOfType(r.columns, rows, ty)
            <==> SameKeys(rows) && AllStartEmpty(rows[0], ty, capacity)
  {
    hide PutRows, Filled, AllOfType, StartsEmpty, Countable, SameKeys, AllStartEmpty, Typed;
    if SameKeys(rows) && AllStartEmpty(rows[0], ty, capacity) {
      EmptyColumnsFill(rows, ty, capacity);
    }
    var r := PutRows(rows, capacity);
    if r.result.Success? && Filled(r.columns, rows) {
      FilledKeys(rows, ty, capacity);
    }
  }

  /** Rows that give no key twice leave columns of equal length, one row for each, exactly when they give the same
      keys. */
  lemma RectangularKeys(rows: seq<seq<Param>>, ty: map<bytes, SqlType>, capacity: nat)
    requires |rows| > 0 && Typed(rows, ty) && Countable(rows)
    requires forall i | 0 <= i < |rows| :: DistinctKeys(rows[i]) && AllStartEmpty(rows[i], ty, capacity)
    ensures var r := PutRows(rows, capacity);
            r.result.Success? && AllRowsAre(r.columns, |rows|) <==> SameKeys(rows)
  {
    hide PutRows, Times, HasKey, DistinctKeys, StartsEmpty, Countable, Typed, Length, AllStartEmpty;
    var r := PutRows(rows, capacity);
    if SameKeys(rows) {
      EmptyColumnsFill(rows, ty, capacity);
      forall j | 0 <= j < |r.columns| ensures Length(r.columns[j].column) == |rows| {
        assert Shows(r.columns[j].column, r.columns[j].name, rows);
      }
    }
    if r.result.Success? && AllRowsAre(r.columns, |rows|) {
      forall i, key | 0 <= i < |rows| ensures HasKey(rows[i], key) <==> HasKey(rows[0], key) {
        if HasKey(rows[i], key) { EveryRowGives(rows, ty, capacity, i, key, 0); }
        if HasKey(rows[0], key) { EveryRowGives(rows, ty, capacity, 0, key, i); }
      }
    }
  }

  lemma EveryRowGives(rows: seq<seq<Param>>, ty: map<bytes, SqlType>, capacity: nat, i: nat, key: bytes, j: nat)
    requires Typed(rows, ty) && Countable(rows) && i < |rows| && j < |rows| && HasKey(rows[i], key)
    requires forall i | 0 <= i < |rows| :: DistinctKeys(rows[i]) && AllStartEmpty(rows[i], ty, capacity)
    requires var r := PutRows(rows, capacity); r.result.Success? && AllRowsAre(r.columns, |rows|)
    ensures HasKey(rows[j], key)
  {
    hide PutRows, Times, DistinctKeys, StartsEmpty, Countable, StableType, GoodValue, RowElements, Sound, TypeOfColumn;
    hide Length, Bulk, Overfull;
    KeyTyped(rows, ty, i, key);
    RowsKept(rows, key, ty, capacity);
    FlatGiven(rows, i, key);
    assert StartsEmpty(ty[key], capacity) by {
      assert AllStartEmpty(rows[i], ty, capacity);
      var k :| 0 <= k < |rows[i]| && rows[i][k].key == key;
    }
    forall n | 0 <= n < |rows| ensures Times(rows[n], key) <= 1 {
      TimesDistinct(rows[n]);
    }
    OnceEach(rows, key);
    TimesGiven(rows[j], key);
  }

  lemma {:induction false} NewFails(t: SqlType, capacity: nat)
    ensures EmptyColumn(t, capacity).Failure? ==> EmptyColumn(t, capacity).error.Panic?
  {
    match t
    case Nullable(inner) => NewFails(inner, capacity);
    case Array(inner) => NewFails(inner, capacity);
    case _ =>
  }

  lemma PushFails(columns: seq<RawColumn>, i: nat, v: Cell)
    requires i < |columns|
    ensures PushTo(columns, i, v).result.Failure? ==> PushTo(columns, i, v).result.error.Panic?
  {
    hide KindFits, PushColumn;
    PushTakes(columns[i].column, v);
  }

  /** A parameter is refused exactly when no column has its name and the first column has more than one row. */
  lemma KeyRefused(columns: seq<RawColumn>, p: Param, capacity: nat)
    requires |columns| > 0 ==> Sound(columns[0].column)
    ensures Put(columns, p, capacity).result == Failure(OutOfRange) <==>
              !HasName(columns, p.key) && |columns| > 0 && Length(columns[0].column) >= 2
    ensures Put(columns, p, capacity).result == Failure(OutOfRange) ==> Put(columns, p, capacity).columns == columns
  {
    hide IndexOf, PushTo, EmptyColumn, ValueType, LengthPanics, LengthPanic, Sound, Length;
    if |columns| > 0 {
      SoundLength(columns[0].column);
    }
    var i := IndexOf(columns, p.key);
    NewFails(ValueType(p.value), capacity);
    if i < |columns| {
      PushFails(columns, i, p.value);
    } else if EmptyColumn(ValueType(p.value), capacity).Success? {
      PushFails(columns + [RawColumn(p.key, EmptyColumn(ValueType(p.value), capacity).value)], i, p.value);
    }
  }

  // ---------- rows that fail to ----------

  lemma PutOne(columns: seq<RawColumn>, key: bytes, word: byte, capacity: nat)
    requires IndexOf(columns, key) == |columns| && RawRows(columns) <= 1
    requires |columns| > 0 ==> !LengthPanics(columns[0].column)
    ensures PutRow(columns, [Param(key, Number(UInt8, word))], capacity)
         == Pushed(columns + [RawColumn(key, Numbers(UInt8, [word]))], Success(()))
  {
    hide IndexOf, RawRows;
    var p := Param(key, Number(UInt8, word));
    var c, d := RawColumn(key, Numbers(UInt8, [])), RawColumn(key, Numbers(UInt8, [word]));
    assert EmptyColumn(ValueType(p.value), capacity) == Success(c.column);
    assert [] + [word] == [word];
    assert PushColumn(c.column, p.value) == Success(d.column);
    assert (columns + [c])[|columns| := d] == columns + [d];
    assert Put(columns, p, capacity).columns == columns + [d];
    RowStep(columns, [p], capacity);
    NoRow(columns + [RawColumn(key, Numbers(UInt8, [word]))], capacity);
    assert [p][1..] == [];
  }

  /** Two rows with one key each, not the same, leave two columns of one row: the second is taken, and the block shows
      both values in its first row. */
  lemma LateKey(a: bytes, b: bytes, capacity: nat)
    requires a != b
    ensures var rows := [[Param(a, Number(UInt8, 7))], [Param(b, Number(UInt8, 8))]];
            var r := PutRows(rows, capacity);
            && r.result.Success? && !Filled(r.columns, rows)
            && r.columns == [RawColumn(a, Numbers(UInt8, [7])), RawColumn(b, Numbers(UInt8, [8]))]
  {
    var rows := [[Param(a, Number(UInt8, 7))], [Param(b, Number(UInt8, 8))]];
    var first, second := RawColumn(a, Numbers(UInt8, [7])), RawColumn(b, Numbers(UInt8, [8]));
    PutOne([], a, 7, capacity);
    OneIndex(first, b);
    PutOne([first], b, 8, capacity);
    TwoRows(rows, capacity);
    assert [] + [first] == [first] && [first] + [second] == [first, second];
    assert Length(first.column) != |rows|;
  }

  /** An address pushed as the first row of a block with room for one more row is its second. */
  lemma AddressKey(a: bytes)
    ensures var rows := [[Param(a, Number(IPv4, 7))]];
            var r := PutRows(rows, 1);
            r.result.Success? && r.columns == [RawColumn(a, Numbers(IPv4, [0, 7]))] && !Filled(r.columns, rows)
  {
    var p := Param(a, Number(IPv4, 7));
    assert seq(1, _ => 0) == [0];
    assert EmptyColumn(Scalar(IPv4), 1) == Success(Numbers(IPv4, [0]));
    assert [0] + [7] == [0, 7];
    OnlyRow(p, 1, Numbers(IPv4, [0]), Numbers(IPv4, [0, 7]));
  }

  lemma OnlyRow(p: Param, capacity: nat, made: Column, pushed: Column)
    requires EmptyColumn(ValueType(p.value), capacity) == Success(made) && PushColumn(made, p.value) == Success(pushed)
    ensures PutRow([], [p], capacity) == Pushed([RawColumn(p.key, pushed)], Success(()))
    ensures PutRows([[p]], capacity) == PutRow([], [p], capacity)
  {
    hide EmptyColumn, PushColumn, ValueType;
    var c := RawColumn(p.key, made);
    assert [] + [c] == [c] && [c][0 := RawColumn(p.key, pushed)] == [RawColumn(p.key, pushed)];
    RowStep([], [p], capacity);
    NoRow([RawColumn(p.key, pushed)], capacity);
    assert [p][1..] == [] && [[p]][..0] == [];
  }

  /** After a nullable address in a block with room for a row, a further key asks for a length that panics. */
  lemma NullableAddress(a: bytes, b: bytes)
    requires a != b
    ensures PutRow([], [Param(a, Present(Number(IPv4, 7))), Param(b, Number(UInt8, 8))], 1).result
         == Failure(Panic(UnequalFlags))
  {
    var p, q := Param(a, Present(Number(IPv4, 7))), Param(b, Number(UInt8, 8));
    var made, pushed := Nullables([], Numbers(IPv4, [0])), Nullables([0], Numbers(IPv4, [0, 7]));
    assert seq(1, _ => 0) == [0] && [0] + [7] == [0, 7] && [] + [0] == [0];
    assert PushColumn(made, p.value) == Success(pushed);
    OnlyRow(p, 1, made, pushed);
    RowStep([], [p], 1);
    RowStep([], [p, q], 1);
    assert [p][1..] == [] && [p, q][1..] == [q];
    NoRow(Put([], p, 1).columns, 1);
    OneIndex(RawColumn(a, pushed), b);
    RowStep([RawColumn(a, pushed)], [q], 1);
  }

  lemma OneIndex(c: RawColumn, key: bytes)
    requires c.name != key
    ensures IndexOf([c], key) == 1 && RawRows([c]) == Length(c.column)
  {
    assert [c][..0] == [];
  }

  lemma TwoRows(rows: seq<seq<Param>>, capacity: nat)
    requires |rows| == 2 && PutRow([], rows[0], capacity).result.Success?
    ensures PutRows(rows, capacity) == PutRow(PutRow([], rows[0], capacity).columns, rows[1], capacity)
  {
    hide PutRow;
    assert rows[..1][..0] == [] && rows[..1][0] == rows[0];
    assert PutRows(rows[..1], capacity) == PutRow([], rows[0], capacity);
  }
}
