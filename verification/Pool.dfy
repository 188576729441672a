/** The string arena of a string column: strings side by side in chunks that never move. */
module Pool {
  import opened Basics

  const AVG_STR_SIZE: nat := 80

  datatype StringPtr = StringPtr(chunk: nat, shift: nat, len: nat)

  /** The summed size of some chunks. */
  ghost function ChunkSpace(chunks: seq<array<byte>>): nat {
    if |chunks| == 0 then 0 else ChunkSpace(chunks[..|chunks| - 1]) + chunks[|chunks| - 1].Length
  }

  /** The summed length of some strings. */
  ghost function Stored(pointers: seq<StringPtr>): nat {
    if |pointers| == 0 then 0 else Stored(pointers[..|pointers| - 1]) + pointers[|pointers| - 1].len
  }

  ghost predicate Distinct(chunks: seq<array<byte>>) {
    forall i, j | 0 <= i < j < |chunks| :: chunks[i] != chunks[j]
  }

  /** Every string lies inside its chunk. */
  ghost predicate InChunks(chunks: seq<array<byte>>, pointers: seq<StringPtr>) {
    forall k | 0 <= k < |pointers| ::
      pointers[k].chunk < |chunks| && pointers[k].shift + pointers[k].len <= chunks[pointers[k].chunk].Length
  }

  /** Of two strings in one chunk, the earlier ends before the later starts. */
  ghost predicate Apart(pointers: seq<StringPtr>) {
    forall j, k | 0 <= j < k < |pointers| ::
      pointers[j].chunk == pointers[k].chunk ==> pointers[j].shift + pointers[j].len <= pointers[k].shift
  }

  /** The strings of chunk `c` end before `position`. */
  ghost predicate Below(pointers: seq<StringPtr>, c: nat, position: nat) {
    forall k | 0 <= k < |pointers| :: pointers[k].chunk == c ==> pointers[k].shift + pointers[k].len <= position
  }

  /** The chunks spell the strings at their places. */
  ghost predicate Spelled(chunks: seq<array<byte>>, pointers: seq<StringPtr>, strings: seq<bytes>)
    requires InChunks(chunks, pointers)
    reads chunks
  {
    |strings| == |pointers| && forall k | 0 <= k < |pointers| :: Cut(chunks, pointers[k]) == strings[k]
  }

  ghost function Cut(chunks: seq<array<byte>>, p: StringPtr): bytes
    requires p.chunk < |chunks| && p.shift + p.len <= chunks[p.chunk].Length
    reads chunks
  {
    chunks[p.chunk][p.shift..p.shift + p.len]
  }

  /** A string put behind the used part of the last chunk. */
  lemma Appended(chunks: seq<array<byte>>, pointers: seq<StringPtr>, strings: seq<bytes>, p: StringPtr, s: bytes)
    requires InChunks(chunks, pointers) && Apart(pointers) && Spelled(chunks, pointers, strings)
    requires p.chunk < |chunks| && p.shift + p.len <= chunks[p.chunk].Length
    requires Below(pointers, p.chunk, p.shift) && Cut(chunks, p) == s
    ensures InChunks(chunks, pointers + [p]) && Apart(pointers + [p]) && Spelled(chunks, pointers + [p], strings + [s])
    ensures Below(pointers + [p], p.chunk, p.shift + p.len)
    ensures Stored(pointers + [p]) == Stored(pointers) + p.len
  {
    StoredStep(pointers, p);
    hide Cut, Stored;
  }

  /** String `k` is spelled, in another chunk than the last string or before it. */
  ghost predicate Earlier(chunks: seq<array<byte>>, pointers: seq<StringPtr>, strings: seq<bytes>, k: nat)
    requires k < |pointers| == |strings|
    reads chunks
  {
    var p, q := pointers[|pointers| - 1], pointers[k];
    && p.chunk < |chunks| && q.chunk < |chunks| && q.shift + q.len <= chunks[q.chunk].Length
    && Cut(chunks, q) == strings[k]
    && (chunks[q.chunk] == chunks[p.chunk] ==> q.shift + q.len <= p.shift)
  }

  /** A further chunk changes nothing for the strings there are. */
  lemma Opened(chunks: seq<array<byte>>, pointers: seq<StringPtr>, strings: seq<bytes>, chunk: array<byte>)
    requires InChunks(chunks, pointers) && Spelled(chunks, pointers, strings)
    requires Distinct(chunks) && chunk !in chunks
    ensures InChunks(chunks + [chunk], pointers) && Spelled(chunks + [chunk], pointers, strings)
    ensures Distinct(chunks + [chunk]) && Below(pointers, |chunks|, 0)
    ensures ChunkSpace(chunks + [chunk]) == ChunkSpace(chunks) + chunk.Length
  {
    ChunkSpaceStep(chunks, chunk);
  }

  lemma NoSpace(chunks: seq<array<byte>>)
    requires |chunks| == 0
    ensures ChunkSpace(chunks) == 0
  {
  }

  lemma ChunkSpaceStep(chunks: seq<array<byte>>, chunk: array<byte>)
    ensures ChunkSpace(chunks + [chunk]) == ChunkSpace(chunks) + chunk.Length
  {
    assert (chunks + [chunk])[..|chunks|] == chunks;
  }

  lemma StoredStep(pointers: seq<StringPtr>, pointer: StringPtr)
    ensures Stored(pointers + [pointer]) == Stored(pointers) + pointer.len
  {
    assert (pointers + [pointer])[..|pointers|] == pointers;
  }

  function TotalLength(strings: seq<bytes>): nat {
    if |strings| == 0 then 0 else TotalLength(strings[..|strings| - 1]) + |strings[|strings| - 1]|
  }

  lemma {:induction false} StoredIsTotal(chunks: seq<array<byte>>, pointers: seq<StringPtr>, strings: seq<bytes>)
    requires InChunks(chunks, pointers) && Spelled(chunks, pointers, strings)
    ensures Stored(pointers) == TotalLength(strings)
  {
    if |pointers| > 0 {
      var n := |pointers| - 1;
      assert Cut(chunks, pointers[n]) == strings[n];
      StoredIsTotal(chunks, pointers[..n], strings[..n]);
    }
  }

  /** `StringIter`: all strings, in order of allocation. */
  class StringIter {
    const pool: StringPool
    var index: nat

    constructor (pool: StringPool)
      ensures this.pool == pool && index == 0
    {
      this.pool := pool;
      index := 0;
    }

    method Next() returns (s: Option<bytes>)
      requires pool.Valid()
      modifies this
      ensures old(index) < |pool.strings| ==> s == Some(pool.strings[old(index)]) && index == old(index) + 1
      ensures old(index) >= |pool.strings| ==> s == None && index == old(index)
    {
      pool.SameCount();
      if index < |pool.pointers| {
        var result := pool.Get(index);
        index := index + 1;
        return Some(result);
      }
      return None;
    }
  }

  class StringPool {
    var chunks: seq<array<byte>>
    var pointers: seq<StringPtr>
    var position: nat
    const capacity: nat
    /** The bytes of each string, in order of allocation. */
    ghost var strings: seq<bytes>

    ghost predicate Laid()
      reads this, chunks
    {
      Distinct(chunks) && InChunks(chunks, pointers) && Apart(pointers) && Spelled(chunks, pointers, strings)
    }

    /** The last chunk is used up to `position` and zero from there on. Without the last one the chunks
        take at most twice the room of the strings, give or take `slack`. */
    ghost predicate Tight(slack: nat)
      reads this, chunks
    {
      if |chunks| == 0 then position == 0 && |pointers| == 0
      else
        var last := |chunks| - 1;
        && position <= chunks[last].Length
        && Below(pointers, last, position)
        && (forall i | position <= i < chunks[last].Length :: chunks[last][i] == 0)
        && ChunkSpace(chunks[..last]) + position <= 2 * Stored(pointers) + slack
    }

    ghost predicate Valid()
      reads this, chunks
    {
      Laid() && Tight(0)
    }

    /** `size` more bytes fit the last chunk. */
    predicate Room(size: nat)
      reads this
    {
      |chunks| > 0 && chunks[|chunks| - 1].Length >= position + size
    }

    constructor (capacity: nat)
      ensures Valid() && strings == [] && chunks == []
      ensures this.capacity == capacity
    {
      this.capacity := capacity;
      chunks, pointers, position, strings := [], [], 0, [];
    }

    /** All chunks but the last together take at most twice the room of the strings. */
    lemma SpaceBound()
      requires Valid() && |chunks| > 0
      ensures ChunkSpace(chunks[..|chunks| - 1]) <= 2 * TotalLength(strings)
    {
      StoredIsTotal(chunks, pointers, strings);
    }

    method FreeSpace() returns (n: nat)
      requires |chunks| > 0 ==> position <= chunks[|chunks| - 1].Length
      ensures n == if |chunks| > 0 then chunks[|chunks| - 1].Length - position else 0
    {
      if |chunks| > 0 {
        return chunks[|chunks| - 1].Length - position;
      }
      return 0;
    }

    /** Opens a chunk for a request the old one cannot hold. */
    method Reserve(size: nat)
      requires Valid() && !Room(size)
      modifies this`chunks, this`position
      ensures Laid() && Tight(size) && Room(size) && position == 0
      ensures |chunks| == old(|chunks|) + 1 && chunks[..old(|chunks|)] == old(chunks)
      ensures fresh(chunks[|chunks| - 1])
      ensures chunks[|chunks| - 1].Length == if capacity * 80 >= size then capacity * 80 else size
    {
      hide Distinct, InChunks, Apart, Below, Spelled, Stored, ChunkSpace;
      var chunk := new byte[Max(capacity * AVG_STR_SIZE, size)](_ => 0);
      if |chunks| > 0 {
        assert chunks == chunks[..|chunks| - 1] + [chunks[|chunks| - 1]];
        ChunkSpaceStep(chunks[..|chunks| - 1], chunks[|chunks| - 1]);
      } else {
        NoSpace(chunks);
      }
      Opened(chunks, pointers, strings, chunk);
      position := 0;
      chunks := chunks + [chunk];
      assert chunks[|chunks| - 1] == chunk && chunks[..|chunks| - 1] == old(chunks);
    }

    /** `try_allocate`, in a chunk with room. */
    method TryAllocate(size: nat) returns (from: nat)
      requires Laid() && Tight(size) && Room(size)
      modifies this`position, this`pointers, this`strings
      ensures Valid()
      ensures from == old(position) && position == from + size <= chunks[|chunks| - 1].Length
      ensures pointers == old(pointers) + [StringPtr(|chunks| - 1, from, size)]
      ensures strings == old(strings) + [seq(size, _ => 0)]
    {
      hide Distinct, InChunks, Apart, Below, Spelled, Stored, ChunkSpace;
      from := position;
      var pointer := StringPtr(|chunks| - 1, from, size);
      assert Cut(chunks, pointer) == seq(size, _ => 0);
      Appended(chunks, pointers, strings, pointer, seq(size, _ => 0));
      position := position + size;
      pointers := pointers + [pointer];
      strings := strings + [seq(size, _ => 0)];
    }

    /** `allocate`: zeroed room for a new string at the end of the last chunk. The call it makes after
        opening a chunk makes no further one. */
    method Allocate(size: nat) returns (buffer: array<byte>, from: nat)
      requires Laid() && Tight(if Room(size) then size else 0)
      modifies this
      ensures Valid()
      ensures |chunks| > 0 && buffer == chunks[|chunks| - 1] && from + size == position <= buffer.Length
      ensures pointers == old(pointers) + [StringPtr(|chunks| - 1, from, size)]
      ensures strings == old(strings) + [seq(size, _ => 0)]
      ensures old(Room(size)) ==> chunks == old(chunks)
      ensures !old(Room(size)) ==>
                |chunks| == old(|chunks|) + 1 && chunks[..old(|chunks|)] == old(chunks) && fresh(buffer)
      decreases if Room(size) then 0 else 1
    {
      var free := FreeSpace();
      if free < size || |chunks| == 0 {
        Reserve(size);
        buffer, from := Allocate(size);
        return;
      }
      from := TryAllocate(size);
      buffer := chunks[|chunks| - 1];
    }

    method Get(index: nat) returns (s: bytes)
      requires Valid() && index < |pointers|
      ensures s == strings[index]
    {
      var pointer := pointers[index];
      s := chunks[pointer.chunk][pointer.shift..pointer.shift + pointer.len];
    }

    /** Copies `s` into freshly allocated room, byte by byte. */
    method Push(s: bytes)
      requires Valid()
      modifies this, chunks
      ensures Valid() && strings == old(strings) + [s]
      ensures forall i | 0 <= i < |chunks| :: chunks[i] in old(chunks) || fresh(chunks[i])
    {
      hide Distinct, InChunks, Apart, Below, Spelled, Stored, ChunkSpace;
      var buffer, from := Allocate(|s|);
      Fill(buffer, from, s);
    }

    /** Writes the bytes of the string allocated last. */
    method Fill(buffer: array<byte>, from: nat, s: bytes)
      requires Valid() && |pointers| > 0 && |chunks| > 0
      requires buffer == chunks[|chunks| - 1] && pointers[|pointers| - 1] == StringPtr(|chunks| - 1, from, |s|)
      requires from + |s| == position
      modifies buffer, this`strings
      ensures Valid() && |strings| == |old(strings)| > 0 && strings == old(strings)[..|old(strings)| - 1] + [s]
    {
      hide Distinct, Apart, Below, Spelled, Stored, ChunkSpace;
      AllEarlier();
      CopyInto(buffer, from, s);
      forall k | 0 <= k < |pointers| - 1 ensures Cut(chunks, pointers[k]) == strings[k] {
        assert old(Earlier(chunks, pointers, strings, k));
      }
      Written(s);
    }

    lemma AllEarlier()
      requires Laid() && |pointers| > 0
      ensures |strings| == |pointers|
      ensures forall k | 0 <= k < |pointers| - 1 :: Earlier(chunks, pointers, strings, k)
    {
      hide Cut;
    }

    /** Takes note that the room of the last string now holds `s`. */
    ghost method Written(s: bytes)
      requires Distinct(chunks) && InChunks(chunks, pointers) && Apart(pointers) && Tight(0)
      requires |strings| == |pointers| > 0
      requires forall k | 0 <= k < |pointers| - 1 :: Cut(chunks, pointers[k]) == strings[k]
      requires Cut(chunks, pointers[|pointers| - 1]) == s
      modifies this`strings
      ensures Valid() && strings == old(strings)[..|old(strings)| - 1] + [s]
    {
      hide Below, Stored, ChunkSpace, Cut;
      strings := strings[..|strings| - 1] + [s];
    }

    method Strings() returns (s: seq<bytes>)
      requires Valid()
      ensures s == strings
    {
      SameCount();
      s := [];
      var iter := new StringIter(this);
      for i := 0 to |pointers|
        invariant iter.index == i && s == strings[..i]
      {
        var next := iter.Next();
        s := s + [next.value];
      }
    }

    lemma SameCount()
      requires Laid()
      ensures |strings| == |pointers|
    {
    }
  }

  /** `StringPool::from` a vector. */
  method FromStrings(source: seq<bytes>) returns (pool: StringPool)
    ensures fresh(pool) && fresh(pool.chunks) && pool.Valid() && pool.strings == source
  {
    hide Distinct, InChunks, Apart, Below, Spelled, Stored, ChunkSpace;
    pool := new StringPool(|source|);
    for i := 0 to |source|
      invariant fresh(pool) && fresh(pool.chunks) && pool.Valid() && pool.strings == source[..i]
    {
      pool.Push(source[i]);
      assert source[..i + 1] == source[..i] + [source[i]];
    }
  }
}
