/** Splitting a block into chunks and joining chunks into a block. */
module Chunking {
  import opened Basics
  import opened Decoders
  import opened Columns
  import opened Views
  import opened Blocks

  // ---------- the index of joined parts ----------

  /** `build_index`. */
  method BuildIndex(sizes: seq<nat>) returns (index: seq<nat>)
    ensures index == Sums(sizes)
  {
    var acc := 0;
    index := [acc];
    for i := 0 to |sizes|
      invariant index == Sums(sizes[..i]) && acc == Last(index)
    {
      acc := acc + sizes[i];
      index := index + [acc];
      assert sizes[..i + 1][..i] == sizes[..i];
    }
    assert sizes[..|sizes|] == sizes;
  }

  /** `find_chunk`: a binary search that walks over empty parts. */
  method FindChunk(index: seq<nat>, ix: nat) returns (k: nat)
    requires |index| > 0 && index[0] == 0 && Rising(index)
    ensures ix < Last(index) ==> k < |index| - 1 && index[k] <= ix < index[k + 1]
    ensures ix >= Last(index) ==> k == 0
  {
    var lo, hi := 0, |index| - 1;
    while lo < hi
      invariant 0 <= lo <= hi < |index|
      invariant ix < Last(index) ==> index[lo] <= ix < index[hi]
      decreases hi - lo
    {
      var mid := lo + (hi - lo) / 2;
      if index[lo] == index[lo + 1] {
        lo := lo + 1;
        continue;
      }
      if ix < index[mid] {
        hi := mid;
      } else if ix >= index[mid + 1] {
        lo := mid + 1;
      } else {
        return mid;
      }
    }
    return 0;
  }

  lemma RisingAt(index: seq<nat>, i: nat, j: nat)
    requires Rising(index) && i <= j < |index|
    ensures index[i] <= index[j]
  {
  }

  /** The part a row falls in is the only one, so the search finds it. */
  lemma PartIsUnique(index: seq<nat>, ix: nat, k: nat)
    requires |index| > 1 && index[0] == 0 && Rising(index)
    requires k < |index| - 1 && index[k] <= ix < index[k + 1]
    ensures ix < Last(index) && k == PartOf(index, ix)
  {
    hide Rising;
    RisingAt(index, k + 1, |index| - 1);
    var j := PartOf(index, ix);
    if j < k {
      RisingAt(index, j + 1, k);
    }
    if k < j {
      RisingAt(index, k + 1, j);
    }
  }

  lemma SumsRising(sizes: seq<nat>)
    ensures Rising(Sums(sizes))
  {
    forall i, j | 0 <= i < j < |Sums(sizes)| ensures Sums(sizes)[i] <= Sums(sizes)[j] {
      SumsRise(sizes, i, j);
    }
  }

  // ---------- joined rows ----------

  ghost predicate AllSoundViews(parts: seq<View>) {
    forall k | 0 <= k < |parts| :: SoundView(parts[k])
  }

  /** The rows of the parts, one part after the other. */
  function AllRows(parts: seq<View>): seq<Cell>
    requires AllSoundViews(parts)
  {
    if |parts| == 0 then [] else AllRows(parts[..|parts| - 1]) + ViewRows(parts[|parts| - 1])
  }

  lemma SizesPrefix(parts: seq<View>, n: nat)
    requires n <= |parts|
    ensures Sizes(parts[..n]) == Sizes(parts)[..n]
  {
  }

  lemma SumsSnoc(parts: seq<View>)
    requires |parts| > 0
    ensures var front := Sums(Sizes(parts[..|parts| - 1]));
            Sums(Sizes(parts)) == front + [Last(front) + ViewLength(parts[|parts| - 1])]
  {
    hide ViewLength;
    SizesPrefix(parts, |parts| - 1);
  }

  lemma PartOfSnoc(index: seq<nat>, next: nat, ix: nat)
    requires |index| > 0 && index[0] <= ix
    ensures PartOf(index + [next], ix) == if index[|index| - 1] <= ix then |index| - 1 else PartOf(index, ix)
  {
    assert (index + [next])[..|index|] == index;
  }

  /** Row `i` of the parts put together is row `i - index[k]` of the part `k` it falls in. */
  lemma {:induction false} AllRowsAt(parts: seq<View>, i: nat)
    requires AllSoundViews(parts)
    ensures |AllRows(parts)| == Last(Sums(Sizes(parts)))
    ensures i < |AllRows(parts)| ==>
              var index := Sums(Sizes(parts));
              |index| > 1 && index[0] == 0 && i < Last(index) &&
              var k := PartOf(index, i);
              k < |parts| && index[k] <= i && i - index[k] < ViewLength(parts[k])
              && AllRows(parts)[i] == ViewAt(parts[k], i - index[k])
    decreases |parts|
  {
    hide ViewAt, ViewLength, SoundView, Sums, Sizes, PartOf;
    if |parts| > 0 {
      var n := |parts| - 1;
      var front := Sums(Sizes(parts[..n]));
      AllRowsAt(parts[..n], i);
      SumsSnoc(parts);
      PartOfSnoc(front, Last(front) + ViewLength(parts[n]), i);
    } else {
      assert Sizes(parts) == [];
      assert Sums([]) == [0];
    }
  }

  lemma JoinedAt(parts: seq<View>, i: nat)
    requires SoundView(Joined(parts, Sums(Sizes(parts)))) && i < ViewLength(Joined(parts, Sums(Sizes(parts))))
    ensures AllSoundViews(parts) && i < |AllRows(parts)|
    ensures ViewAt(Joined(parts, Sums(Sizes(parts))), i) == AllRows(parts)[i]
  {
    hide Sums, Sizes, AllRows;
    AllRowsAt(parts, i);
  }

  /** Joined column data shows the rows of its parts, in order. */
  lemma JoinedRows(parts: seq<View>)
    requires SoundView(Joined(parts, Sums(Sizes(parts))))
    ensures AllSoundViews(parts) && ViewRows(Joined(parts, Sums(Sizes(parts)))) == AllRows(parts)
  {
    AllRowsAt(parts, 0);
    hide Sums, Sizes, AllRows, ViewAt, SoundView, PartOf;
    var v := Joined(parts, Sums(Sizes(parts)));
    forall i | 0 <= i < ViewLength(v) ensures ViewAt(v, i) == AllRows(parts)[i] {
      JoinedAt(parts, i);
    }
  }

  // ---------- at ----------

  /** `at` of a stored column: an array collects its elements one by one. */
  method CellOfColumn(c: Column, i: nat) returns (cell: Cell)
    requires Sound(c) && i < Length(c)
    ensures cell == At(c, i)
    decreases c
  {
    hide Fit, Pow256, Signed;
    match c
    case Nullables(nulls, inner) =>
      if nulls[i] == 1 {
        return Null(TypeOfColumn(inner));
      }
      var value := CellOfColumn(inner, i);
      return Present(value);
    case Arrays(offsets, inner) =>
      var start := if i > 0 then offsets[i - 1] else 0;
      var end := offsets[i];
      assert start <= end <= Length(inner) by {
        assert i > 0 ==> offsets[i - 1] <= offsets[i];
      }
      var vs: seq<Cell> := [];
      for k := start to end
        invariant vs == Rows(inner, start, k)
      {
        var v := CellOfColumn(inner, k);
        vs := vs + [v];
      }
      return ArrayCell(TypeOfColumn(inner), vs);
    case _ => return At(c, i);
  }

  /** `at` of column data: a slice shifts the row, joined parts search their index for it. */
  method CellOfView(v: View, i: nat) returns (cell: Cell)
    requires SoundView(v) && i < ViewLength(v)
    ensures cell == ViewAt(v, i)
    decreases v
  {
    hide At, Sound, Length, Sums, Sizes, Rising, PartOf;
    match v
    case Plain(column) => cell := CellOfColumn(column, i);
    case Chunk(data, from, _) => cell := CellOfView(data, from + i);
    case Joined(parts, index) =>
      SumsRising(Sizes(parts));
      var k := FindChunk(index, i);
      PartShows(parts, index, i, k);
      cell := CellOfView(parts[k], i - index[k]);
  }

  lemma PartShows(parts: seq<View>, index: seq<nat>, i: nat, k: nat)
    requires SoundView(Joined(parts, index)) && i < ViewLength(Joined(parts, index))
    requires k < |index| - 1 && index[k] <= i < index[k + 1]
    ensures k < |parts| && SoundView(parts[k]) && i - index[k] < ViewLength(parts[k])
    ensures ViewAt(Joined(parts, index), i) == ViewAt(parts[k], i - index[k])
  {
    SumsRising(Sizes(parts));
    hide Sizes, Rising, PartOf;
    PartIsUnique(index, i, k);
    SumsStep(Sizes(parts), k);
  }

  // ---------- cutting ----------

  datatype Cut = Cut(from: nat, to: nat)

  /** Where the chunk iterator cuts from `pos` on. */
  function CutsFrom(pos: nat, m: nat, n: nat): seq<Cut>
    requires n > 0
    decreases m - pos
  {
    if pos >= m then [] else [Cut(pos, pos + Min(n, m - pos))] + CutsFrom(pos + Min(n, m - pos), m, n)
  }

  /** A block without rows still gives a chunk. */
  function Cuts(m: nat, n: nat): seq<Cut>
    requires n > 0
  {
    if m == 0 then [Cut(0, 0)] else CutsFrom(0, m, n)
  }

  lemma {:induction false} CutsCount(j: nat, m: nat, n: nat)
    requires n > 0 && j * n < m
    ensures var c := |CutsFrom(j * n, m, n)|; c > 0 && (j + c - 1) * n < m <= (j + c) * n
    decreases m - j * n
  {
    assert (j + 1) * n == j * n + n;
    if (j + 1) * n < m {
      CutsCount(j + 1, m, n);
      assert j + 1 + |CutsFrom((j + 1) * n, m, n)| == j + |CutsFrom(j * n, m, n)|;
    } else {
      assert CutsFrom(m, m, n) == [];
    }
  }

  /** From `j * n` on, chunk `k` takes the rows `(j + k) * n` up to `(j + k + 1) * n` or the end. */
  lemma {:induction false} CutAt(j: nat, m: nat, n: nat, k: nat)
    requires n > 0 && j * n < m && k < |CutsFrom(j * n, m, n)|
    ensures CutsFrom(j * n, m, n)[k] == Cut((j + k) * n, Min((j + k + 1) * n, m))
    decreases k
  {
    assert (j + 1) * n == j * n + n;
    if k > 0 {
      assert (j + 1) * n < m;
      CutAt(j + 1, m, n, k - 1);
      assert j + 1 + (k - 1) == j + k;
    }
  }

  /** All chunks but the last have `n` rows, the chunks cover the rows, and there are as few as can be:
      `m / n` rounded up, one if there are no rows. */
  lemma CutsExact(m: nat, n: nat)
    requires n > 0
    ensures var cuts := Cuts(m, n);
            && |cuts| > 0
            && (m == 0 ==> cuts == [Cut(0, 0)])
            && (m > 0 ==> (|cuts| - 1) * n < m <= |cuts| * n)
            && forall k | 0 <= k < |cuts| :: cuts[k] == Cut(k * n, Min((k + 1) * n, m))
  {
    assert 0 * n == 0;
    if m > 0 {
      CutsCount(0, m, n);
      forall k | 0 <= k < |Cuts(m, n)| ensures Cuts(m, n)[k] == Cut(k * n, Min((k + 1) * n, m)) {
        CutAt(0, m, n, k);
      }
    }
  }

  /** The chunk with rows `cut.from` to `cut.to - 1`, under fresh block info. */
  function ChunkOf(b: Block, cut: Cut): (r: Block)
    ensures |r.columns| == |b.columns|
  {
    Block(DEFAULT_INFO, seq(|b.columns|, i requires 0 <= i < |b.columns| =>
      NamedColumn(b.columns[i].name, Chunk(b.columns[i].data, cut.from, cut.to))))
  }

  function ChunksOf(b: Block, cuts: seq<Cut>): (r: seq<Block>)
    ensures |r| == |cuts|
  {
    seq(|cuts|, k requires 0 <= k < |cuts| => ChunkOf(b, cuts[k]))
  }

  function Chunks(b: Block, n: nat): seq<Block>
    requires n > 0
  {
    ChunksOf(b, Cuts(RowCount(b.columns), n))
  }

  lemma ChunksRest(b: Block, cuts: seq<Cut>)
    requires |cuts| > 0
    ensures ChunksOf(b, cuts)[0] == ChunkOf(b, cuts[0]) && ChunksOf(b, cuts)[1..] == ChunksOf(b, cuts[1..])
  {
    hide ChunkOf;
  }

  class ChunkIterator {
    const block: Block
    const size: nat
    var position: nat

    constructor (block: Block, size: nat)
      ensures this.block == block && this.size == size && position == 0
    {
      this.block, this.size, position := block, size, 0;
    }

    /** The chunks still to come. */
    ghost function Ahead(): seq<Block>
      requires size > 0
      reads this
    {
      var m := RowCount(block.columns);
      ChunksOf(block, if position == 0 then Cuts(m, size) else CutsFrom(position, m, size))
    }

    /** With a size of 0, chunks without rows come for ever, unless the block has no rows. */
    method Next() returns (r: Option<Block>)
      modifies this
      ensures size > 0 ==>
                if |old(Ahead())| == 0 then r == None && Ahead() == []
                else r == Some(old(Ahead())[0]) && Ahead() == old(Ahead())[1..]
      ensures size == 0 ==>
                var m, p := RowCount(block.columns), old(position);
                if p < m then r == Some(ChunkOf(block, Cut(p, p))) && position == p
                else if p == 0 then r == Some(ChunkOf(block, Cut(0, 0))) && position == 1
                else r == None && position == p
    {
      hide ChunkOf, ChunksOf, RowCount;
      var m := RowCount(block.columns);
      ghost var cuts := if size == 0 then [] else if position == 0 then Cuts(m, size) else CutsFrom(position, m, size);
      if m == 0 && position == 0 {
        position := position + 1;
        var chunk := Sliced(Cut(0, 0));
        if size > 0 {
          ChunksRest(block, cuts);
          assert CutsFrom(position, m, size) == [] == cuts[1..];
        }
        return Some(chunk);
      }
      if position >= m {
        return None;
      }
      if size > 0 {
        ChunksRest(block, cuts);
      }
      var n := Min(size, m - position);
      var chunk := Sliced(Cut(position, position + n));
      position := position + n;
      return Some(chunk);
    }

    /** Every column sliced and appended to a new block. */
    method Sliced(cut: Cut) returns (result: Block)
      requires cut.from <= cut.to
      ensures result == ChunkOf(block, cut)
    {
      var columns: seq<NamedColumn> := [];
      for i := 0 to |block.columns|
        invariant columns == ChunkOf(block, cut).columns[..i]
      {
        var column := block.columns[i];
        columns := columns + [NamedColumn(column.name, Chunk(column.data, cut.from, cut.to))];
      }
      return Block(DEFAULT_INFO, columns);
    }
  }

  // ---------- joining blocks ----------

  /** Column `i` of every block. */
  function PartsOf(blocks: seq<Block>, i: nat): (r: seq<View>)
    requires forall k | 0 <= k < |blocks| :: i < |blocks[k].columns|
    ensures |r| == |blocks|
  {
    seq(|blocks|, k requires 0 <= k < |blocks| => blocks[k].columns[i].data)
  }

  predicate SameCounts(blocks: seq<Block>) {
    forall k | 0 <= k < |blocks| :: |blocks[k].columns| == |blocks[0].columns|
  }

  predicate OneType(parts: seq<View>) {
    forall k | 0 <= k < |parts| :: ViewType(parts[k]) == ViewType(parts[0])
  }

  predicate Joinable(blocks: seq<Block>) {
    && |blocks| > 0 && SameCounts(blocks)
    && forall i | 0 <= i < |blocks[0].columns| :: OneType(PartsOf(blocks, i))
  }

  /** `ConcatColumnData::concat`: parts of one type, and their index. */
  method ConcatData(parts: seq<View>) returns (r: Result<View>)
    requires |parts| > 0
    ensures r == if OneType(parts) then Success(Joined(parts, Sums(Sizes(parts)))) else Failure(Panic(MixedTypes))
  {
    var first := ViewType(parts[0]);
    for k := 1 to |parts|
      invariant forall j | 0 <= j < k :: ViewType(parts[j]) == first
    {
      if ViewType(parts[k]) != first {
        return Failure(Panic(MixedTypes));
      }
    }
    var index := BuildIndex(Sizes(parts));
    return Success(Joined(parts, index));
  }

  /** `Block::concat`. */
  method Concat(blocks: seq<Block>) returns (r: Result<Block>)
    ensures r.Success? <==> Joinable(blocks)
    ensures r.Success? ==> r.value == Concatenated(blocks)
    ensures r.Success? ==> r.value.info == blocks[0].info && |r.value.columns| == |blocks[0].columns|
    ensures r.Success? ==> forall i | 0 <= i < |r.value.columns| :: r.value.columns[i].name == blocks[0].columns[i].name
    ensures r.Failure? ==> r.error == Panic(if |blocks| == 0 then NoBlocks
                                            else if !SameCounts(blocks) then UnequalCounts else MixedTypes)
  {
    if |blocks| == 0 {
      return Failure(Panic(NoBlocks));
    }
    var first := blocks[0];
    for k := 0 to |blocks|
      invariant forall j | 0 <= j < k :: |blocks[j].columns| == |first.columns|
    {
      if |blocks[k].columns| != |first.columns| {
        return Failure(Panic(UnequalCounts));
      }
    }
    var columns: seq<NamedColumn> := [];
    for i := 0 to |first.columns|
      invariant |columns| == i
      invariant forall j | 0 <= j < i :: OneType(PartsOf(blocks, j)) && columns[j] == JoinedColumn(blocks, j)
    {
      var data :- ConcatData(PartsOf(blocks, i));
      columns := columns + [NamedColumn(first.columns[i].name, data)];
    }
    return Success(Block(first.info, columns));
  }

  function JoinedColumn(blocks: seq<Block>, i: nat): NamedColumn
    requires |blocks| > 0 && SameCounts(blocks) && i < |blocks[0].columns|
  {
    var parts := PartsOf(blocks, i);
    NamedColumn(blocks[0].columns[i].name, Joined(parts, Sums(Sizes(parts))))
  }

  function Concatenated(blocks: seq<Block>): Block
    requires |blocks| > 0 && SameCounts(blocks)
  {
    var n := |blocks[0].columns|;
    Block(blocks[0].info, seq(n, i requires 0 <= i < n => JoinedColumn(blocks, i)))
  }

  // ---------- split and join ----------

  lemma SliceAt(data: View, from: nat, to: nat)
    requires SoundView(data) && from <= to <= ViewLength(data)
    ensures SoundView(Chunk(data, from, to)) && ViewLength(Chunk(data, from, to)) == to - from
    ensures forall i | 0 <= i < to - from :: ViewAt(Chunk(data, from, to), i) == ViewAt(data, from + i)
  {
  }

  lemma SliceRows(data: View, from: nat, to: nat)
    requires SoundView(data) && from <= to <= ViewLength(data)
    ensures SoundView(Chunk(data, from, to)) && ViewRows(Chunk(data, from, to)) == ViewRows(data)[from..to]
  {
    SliceAt(data, from, to);
    hide ViewAt, SoundView, ViewLength;
    var v := Chunk(data, from, to);
    forall i | 0 <= i < to - from ensures ViewRows(v)[i] == ViewRows(data)[from..to][i] {
      assert ViewRows(v)[i] == ViewAt(v, i) == ViewAt(data, from + i);
    }
  }

  /** The cuts lie end to end from 0 to `m`. */
  ghost predicate Tiling(cuts: seq<Cut>, m: nat) {
    && |cuts| > 0 && cuts[0].from == 0 && cuts[|cuts| - 1].to == m
    && (forall k | 0 <= k < |cuts| :: cuts[k].from <= cuts[k].to <= m)
    && (forall k | 0 < k < |cuts| :: cuts[k - 1].to == cuts[k].from)
  }

  lemma CutsTile(m: nat, n: nat)
    requires n > 0
    ensures Tiling(Cuts(m, n), m)
  {
    var cuts := Cuts(m, n);
    CutsExact(m, n);
    var last := |cuts| - 1;
    forall k | 0 <= k < |cuts|
      ensures cuts[k].from <= cuts[k].to <= m && (k < last ==> cuts[k].to == (k + 1) * n)
    {
      assert (k + 1) * n == k * n + n;
      if m > 0 {
        Scaled(k, last, n);
        if k < last { Scaled(k + 1, last, n); }
      }
    }
    assert (last + 1) * n >= m;
  }

  function Slices(data: View, cuts: seq<Cut>): (r: seq<View>)
    ensures |r| == |cuts|
  {
    seq(|cuts|, k requires 0 <= k < |cuts| => Chunk(data, cuts[k].from, cuts[k].to))
  }

  lemma {:induction false} TiledRows(data: View, cuts: seq<Cut>, k: nat)
    requires SoundView(data) && Tiling(cuts, ViewLength(data)) && k < |cuts|
    ensures AllSoundViews(Slices(data, cuts[..k + 1]))
    ensures AllRows(Slices(data, cuts[..k + 1])) == ViewRows(data)[..cuts[k].to]
  {
    hide ViewLength, ViewRows, SoundView;
    SlicesSound(data, cuts);
    var parts := Slices(data, cuts[..k + 1]);
    var c := cuts[k];
    SliceRows(data, c.from, c.to);
    assert parts[..k] == Slices(data, cuts[..k]);
    if k > 0 {
      TiledRows(data, cuts, k - 1);
      assert ViewRows(data)[..c.from] + ViewRows(data)[c.from..c.to] == ViewRows(data)[..c.to];
    }
  }

  lemma SlicesSound(data: View, cuts: seq<Cut>)
    requires SoundView(data) && forall k | 0 <= k < |cuts| :: cuts[k].from <= cuts[k].to <= ViewLength(data)
    ensures AllSoundViews(Slices(data, cuts))
    ensures forall k | 0 <= k < |cuts| :: ViewType(Slices(data, cuts)[k]) == ViewType(data)
  {
  }

  /** The slices of column data, joined, show its rows. */
  lemma SlicesJoin(data: View, cuts: seq<Cut>)
    requires SoundView(data) && Tiling(cuts, ViewLength(data))
    ensures var v := Joined(Slices(data, cuts), Sums(Sizes(Slices(data, cuts))));
            && OneType(Slices(data, cuts)) && SoundView(v) && ViewType(v) == ViewType(data)
            && ViewRows(v) == ViewRows(data)
  {
    SlicesSound(data, cuts);
    var parts := Slices(data, cuts);
    var v := Joined(parts, Sums(Sizes(parts)));
    assert SoundView(v);
    assert cuts[..|cuts| - 1 + 1] == cuts;
    TiledRows(data, cuts, |cuts| - 1);
    JoinedRows(parts);
    assert ViewRows(data)[..ViewLength(data)] == ViewRows(data);
  }

  ghost predicate SoundColumns(b: Block) {
    && Rectangular(b.columns, RowCount(b.columns))
    && forall i | 0 <= i < |b.columns| :: SoundView(b.columns[i].data)
  }

  /** `PartialEq` of columns: type, length, cell by cell. */
  ghost predicate SameColumn(a: View, b: View)
    requires SoundView(a) && SoundView(b)
  {
    ViewType(a) == ViewType(b) && ViewRows(a) == ViewRows(b)
  }

  ghost predicate SameColumns(a: seq<NamedColumn>, b: seq<NamedColumn>) {
    |a| == |b| && forall i | 0 <= i < |a| ::
      && a[i].name == b[i].name && SoundView(a[i].data) && SoundView(b[i].data)
      && SameColumn(a[i].data, b[i].data)
  }

  lemma ColumnJoins(b: Block, n: nat, i: nat)
    requires SoundColumns(b) && n > 0 && i < |b.columns|
    ensures var parts := PartsOf(Chunks(b, n), i);
            var v := Joined(parts, Sums(Sizes(parts)));
            OneType(parts) && SoundView(v) && SameColumn(v, b.columns[i].data)
  {
    hide SoundView, ViewRows, OneType, ViewType;
    var data, cuts := b.columns[i].data, Cuts(RowCount(b.columns), n);
    CutsTile(RowCount(b.columns), n);
    assert PartsOf(Chunks(b, n), i) == Slices(data, cuts);
    SlicesJoin(data, cuts);
  }

  /** Splitting a block into chunks of `n` rows and joining the chunks gives a block with the same
      columns, equal cell by cell. */
  lemma SplitJoin(b: Block, n: nat)
    requires SoundColumns(b) && n > 0
    ensures Joinable(Chunks(b, n)) && SameColumns(Concatenated(Chunks(b, n)).columns, b.columns)
  {
    hide SoundView, SameColumn, OneType;
    var chunks := Chunks(b, n);
    CutsExact(RowCount(b.columns), n);
    assert |chunks[0].columns| == |b.columns|;
    forall i | 0 <= i < |b.columns|
      ensures OneType(PartsOf(chunks, i))
      ensures SoundView(JoinedColumn(chunks, i).data) && SameColumn(JoinedColumn(chunks, i).data, b.columns[i].data)
    {
      ColumnJoins(b, n, i);
    }
  }

  /** Row counts of the chunks: `n` for all but the last, at least 1 for the last unless there are no rows. */
  lemma ChunkSizes(b: Block, n: nat)
    requires SoundColumns(b) && n > 0 && |b.columns| > 0
    ensures var m, chunks := RowCount(b.columns), Chunks(b, n);
            && (m == 0 ==> |chunks| == 1 && RowCount(chunks[0].columns) == 0)
            && (m > 0 ==> (|chunks| - 1) * n < m <= |chunks| * n)
            && forall k | 0 <= k < |chunks| ::
                 RowCount(chunks[k].columns) == if k < |chunks| - 1 then n else m - (|chunks| - 1) * n
  {
    var m, chunks := RowCount(b.columns), Chunks(b, n);
    CutsExact(m, n);
    var last := |chunks| - 1;
    forall k | 0 <= k < |chunks|
      ensures RowCount(chunks[k].columns) == if k < last then n else m - last * n
    {
      var cut := Cuts(m, n)[k];
      assert RowCount(chunks[k].columns) == if cut.from <= cut.to then cut.to - cut.from else 0;
      assert (k + 1) * n == k * n + n;
      if k < last { Scaled(k + 1, last, n); }
    }
  }
}
