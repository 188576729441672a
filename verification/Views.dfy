/** Column data as a block holds it: stored columns, slices of column data, and joined parts. */
module Views {
  import opened Basics
  import opened TypeNames
  import opened Columns

  datatype View =
    | Plain(column: Column)
    | Chunk(data: View, from: nat, to: nat)
    | Joined(parts: seq<View>, index: seq<nat>)

  function ViewType(v: View): SqlType {
    match v
    case Plain(column) => TypeOfColumn(column)
    case Chunk(data, _, _) => ViewType(data)
    case Joined(parts, _) => if |parts| == 0 then String else ViewType(parts[0])
  }

  function ViewLength(v: View): nat {
    match v
    case Plain(column) => Length(column)
    case Chunk(_, from, to) => if from <= to then to - from else 0
    case Joined(_, index) => if |index| == 0 then 0 else index[|index| - 1]
  }

  /** `build_index`: the running sum of the sizes, from 0. */
  function Sums(sizes: seq<nat>): (r: seq<nat>)
    ensures |r| == |sizes| + 1 && r[0] == 0
  {
    if |sizes| == 0 then [0]
    else Sums(sizes[..|sizes| - 1]) + [Last(Sums(sizes[..|sizes| - 1])) + sizes[|sizes| - 1]]
  }

  function Last(s: seq<nat>): nat
    requires |s| > 0
  {
    s[|s| - 1]
  }

  function Sizes(parts: seq<View>): (r: seq<nat>)
    ensures |r| == |parts|
    ensures forall k | 0 <= k < |parts| :: r[k] == ViewLength(parts[k])
  {
    seq(|parts|, k requires 0 <= k < |parts| => ViewLength(parts[k]))
  }

  ghost predicate SoundView(v: View) {
    match v
    case Plain(column) => Sound(column)
    case Chunk(data, from, to) => SoundView(data) && from <= to <= ViewLength(data)
    case Joined(parts, index) =>
      && |parts| > 0 && index == Sums(Sizes(parts))
      && forall k | 0 <= k < |parts| :: SoundView(parts[k]) && ViewType(parts[k]) == ViewType(parts[0])
  }

  lemma {:induction false} SumsStep(sizes: seq<nat>, k: nat)
    requires k < |sizes|
    ensures Sums(sizes)[k + 1] == Sums(sizes)[k] + sizes[k]
  {
    var n := |sizes| - 1;
    if k < n {
      SumsStep(sizes[..n], k);
    }
  }

  lemma {:induction false} SumsRise(sizes: seq<nat>, j: nat, k: nat)
    requires j <= k <= |sizes|
    ensures Sums(sizes)[j] <= Sums(sizes)[k]
  {
    if j < k {
      SumsRise(sizes, j, k - 1);
      SumsStep(sizes, k - 1);
    }
  }

  /** The part that row `ix` falls in: the last one that starts at or before it. */
  function PartOf(index: seq<nat>, ix: nat): (k: nat)
    requires |index| > 1 && index[0] <= ix
    ensures k < |index| - 1 && index[k] <= ix
    ensures ix < Last(index) ==> ix < index[k + 1]
  {
    if |index| == 2 || index[|index| - 2] <= ix then |index| - 2 else PartOf(index[..|index| - 1], ix)
  }

  /** `at` of column data. */
  function ViewAt(v: View, i: nat): Cell
    requires SoundView(v) && i < ViewLength(v)
  {
    match v
    case Plain(column) => At(column, i)
    case Chunk(data, from, _) => ViewAt(data, from + i)
    case Joined(parts, index) =>
      var k := PartOf(index, i);
      SumsStep(Sizes(parts), k);
      ViewAt(parts[k], i - index[k])
  }

  function ViewRows(v: View): (r: seq<Cell>)
    requires SoundView(v)
    ensures |r| == ViewLength(v)
    ensures forall i | 0 <= i < |r| :: r[i] == ViewAt(v, i)
  {
    seq(ViewLength(v), i requires 0 <= i < ViewLength(v) => ViewAt(v, i))
  }

  // ---------- slices ----------

  /** No joined parts inside; `save` of those is not implemented in the source. */
  predicate Saveable(v: View) {
    match v
    case Plain(_) => true
    case Chunk(data, _, _) => Saveable(data)
    case Joined(_, _) => false
  }

  /** `save(start, end)`. */
  function ViewSave(v: View, a: nat, b: nat): bytes
    requires SoundView(v) && Saveable(v) && a <= b <= ViewLength(v)
  {
    match v
    case Plain(column) => Save(column, a, b)
    case Chunk(data, from, to) => ViewSave(data, from + a, Min(to, from + b))
  }

  function BaseColumn(v: View): Column
    requires Saveable(v)
  {
    match v case Plain(column) => column case Chunk(data, _, _) => BaseColumn(data)
  }

  function BaseFrom(v: View): nat
    requires Saveable(v)
  {
    match v case Plain(_) => 0 case Chunk(data, from, _) => BaseFrom(data) + from
  }

  /** A slice of slices is one slice of the stored column, for `at` and for `save`. */
  lemma {:induction false} SlicesCollapse(v: View, a: nat, b: nat)
    requires SoundView(v) && Saveable(v) && a <= b <= ViewLength(v)
    ensures Sound(BaseColumn(v)) && BaseFrom(v) + ViewLength(v) <= Length(BaseColumn(v))
    ensures ViewType(v) == TypeOfColumn(BaseColumn(v))
    ensures ViewSave(v, a, b) == Save(BaseColumn(v), BaseFrom(v) + a, BaseFrom(v) + b)
    ensures forall i | 0 <= i < ViewLength(v) :: ViewAt(v, i) == At(BaseColumn(v), BaseFrom(v) + i)
  {
    hide Save, At, Sound, Length, TypeOfColumn;
    match v
    case Plain(_) =>
    case Chunk(data, from, to) => SlicesCollapse(data, from + a, from + b);
  }
}
