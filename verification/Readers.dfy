/** The reading side: `ReadEx` over a cursor, and over the inflated frames of a compressed block. */
module Readers {
  import opened Basics
  import opened Text
  import opened Varint
  import opened Decoders
  import opened Compressed
  import opened Pool

  /** `r` is what a reader at `from` of `stream` has to give: the decoded value with the cursor behind it,
      or the error, which is `stop` when bytes are missing. */
  ghost predicate Matches<T>(d: Dec<T>, r: Result<T>, cursor: nat, stop: Error) {
    match d
    case Ok(value, q) => r == Success(value) && cursor == q
    case More => r == Failure(stop)
    case Err(e) => r == Failure(e)
  }

  /** `io::Cursor`. */
  class Cursor {
    const source: bytes
    var pos: nat

    constructor (source: bytes)
      ensures this.source == source && pos == 0
    {
      this.source := source;
      pos := 0;
    }

    ghost predicate Valid()
      reads this
    {
      pos <= |source|
    }

    method Read(buf: array<byte>, from: nat, to: nat) returns (n: nat)
      requires Valid() && from <= to <= buf.Length
      modifies this`pos, buf
      ensures Valid() && n == Min(to - from, |source| - old(pos)) && pos == old(pos) + n
      ensures buf[from..from + n] == source[old(pos)..pos]
      ensures forall j | 0 <= j < buf.Length && !(from <= j < from + n) :: buf[j] == old(buf[j])
    {
      n := Min(to - from, |source| - pos);
      CopyInto(buf, from, source[pos..pos + n]);
      pos := pos + n;
    }

    /** `read_bytes` into fresh room for `n` bytes. */
    method Take(n: nat) returns (r: Result<bytes>)
      requires Valid()
      modifies this
      ensures Matches(Bytes(source, old(pos), n), r, pos, WouldBlock)
      ensures r.Success? ==> Valid()
    {
      var rv := new byte[n](_ => 0);
      var i := 0;
      while i < n
        invariant Valid() && i <= n && pos == old(pos) + i
        invariant rv[..i] == source[old(pos)..pos]
      {
        label Before:
        var nread := Read(rv, i, n);
        if nread == 0 {
          return Failure(WouldBlock);
        }
        assert rv[..i] == old@Before(rv[..i]);
        assert rv[..i + nread] == rv[..i] + rv[i..i + nread];
        assert source[old(pos)..pos] == source[old(pos)..old@Before(pos)] + source[old@Before(pos)..pos];
        i := i + nread;
      }
      assert rv[..] == rv[..i];
      return Success(rv[..]);
    }

    method ReadWord(w: nat) returns (r: Result<nat>)
      requires Valid()
      modifies this
      ensures Matches(Word(source, old(pos), w), r, pos, WouldBlock)
      ensures r.Success? ==> Valid()
    {
      var b :- Take(w);
      return Success(FromLittleEndian(b));
    }

    /** `decompress_buffer`. */
    method DecompressBuffer(codec: Codec) returns (r: Result<bytes>)
      requires Valid()
      modifies this
      ensures Matches(Frame(codec, source, old(pos)), r, pos, WouldBlock)
      ensures r.Success? ==> Valid()
    {
      hide Word, Bytes, Open;
      var lo :- ReadWord(8);
      var hi :- ReadWord(8);
      var tag :- ReadWord(1);
      if tag != 0x82 {
        return Failure(Transport);
      }
      var compressed :- ReadWord(4);
      var original :- ReadWord(4);
      if compressed > MAX_COMPRESSED {
        return Failure(Transport);
      }
      var payload :- Take(Max(compressed, 9) - 9);
      return Open(codec, Head(lo, hi, compressed, original), payload);
    }
  }

  /** `FrameEnd` looking ahead from a frame of which `left` bytes are not read yet. */
  ghost predicate Ahead(codec: Codec, s: bytes, start: nat, taken: nat, left: nat, pos: nat)
    requires start <= |s| && pos <= |s|
  {
    forall m: nat | taken < m ::
      FrameEnd(codec, s, start, m) == if m <= taken + left then pos else FrameEnd(codec, s, pos, m - taken - left)
  }

  /** The rest of the inflated stream is the rest of the frame and what the further frames hold. */
  ghost predicate Rest(codec: Codec, s: bytes, start: nat, taken: nat, rest: bytes, pos: nat)
    requires start <= |s| && pos <= |s|
  {
    var whole, later := Inflate(codec, s, start), Inflate(codec, s, pos);
    taken <= |whole.data| && whole.data[taken..] == rest + later.data && whole.stop == later.stop
  }

  lemma InflateStep(codec: Codec, s: bytes, pos: nat)
    requires pos <= |s|
    ensures var d, whole := Frame(codec, s, pos), Inflate(codec, s, pos);
            if d.Ok? && d.value != [] then
              var later := Inflate(codec, s, d.pos);
              whole.data == d.value + later.data && whole.stop == later.stop
            else whole == Inflated([], if d.Err? then d.error else WouldBlock)
  {
    hide Frame;
  }

  lemma FrameEndStep(codec: Codec, s: bytes, pos: nat, n: nat)
    requires pos <= |s| && n > 0 && Frame(codec, s, pos).Ok? && Frame(codec, s, pos).value != []
    ensures var d := Frame(codec, s, pos);
            FrameEnd(codec, s, pos, n) == if n <= |d.value| then d.pos else FrameEnd(codec, s, d.pos, n - |d.value|)
  {
    hide Frame;
  }

  lemma NextFrame(codec: Codec, s: bytes, start: nat, taken: nat, pos: nat)
    requires start <= |s| && pos <= |s|
    requires Ahead(codec, s, start, taken, 0, pos) && Rest(codec, s, start, taken, [], pos)
    ensures var d := Frame(codec, s, pos);
            d.Ok? && d.value != [] ==>
              && Ahead(codec, s, start, taken, |d.value|, d.pos)
              && Rest(codec, s, start, taken, d.value, d.pos)
    ensures var d, whole := Frame(codec, s, pos), Inflate(codec, s, start);
            (d.Ok? && d.value != []) || (taken == |whole.data| && whole.stop == if d.Err? then d.error else WouldBlock)
  {
    hide Frame, Inflate, FrameEnd;
    InflateStep(codec, s, pos);
    var d := Frame(codec, s, pos);
    if d.Ok? && d.value != [] {
      forall m: nat | taken < m
        ensures FrameEnd(codec, s, start, m)
             == if m <= taken + |d.value| then d.pos else FrameEnd(codec, s, d.pos, m - taken - |d.value|)
      {
        FrameEndStep(codec, s, pos, m - taken);
      }
      var whole := Inflate(codec, s, start).data;
      assert whole[taken..] == [] + Inflate(codec, s, pos).data == d.value + Inflate(codec, s, d.pos).data;
    }
  }

  /** Some bytes of the frame read. */
  lemma FrameStep(codec: Codec, s: bytes, start: nat, taken: nat, rest: bytes, pos: nat, n: nat)
    requires start <= |s| && pos <= |s| && 0 < n <= |rest|
    requires Ahead(codec, s, start, taken, |rest|, pos) && Rest(codec, s, start, taken, rest, pos)
    ensures Ahead(codec, s, start, taken + n, |rest[n..]|, pos) && Rest(codec, s, start, taken + n, rest[n..], pos)
    ensures taken + n <= |Inflate(codec, s, start).data|
    ensures Inflate(codec, s, start).data[taken..taken + n] == rest[..n]
    ensures FrameEnd(codec, s, start, taken + n) == pos
  {
    hide Inflate, FrameEnd;
    var data := Inflate(codec, s, start).data;
    assert data[taken..][n..] == data[taken + n..];
    assert (rest + Inflate(codec, s, pos).data)[n..] == rest[n..] + Inflate(codec, s, pos).data;
    assert data[taken..][..n] == data[taken..taken + n];
  }

  /** A reader: the cursor itself, or a `CompressedReader` over it, which keeps the frame it is in. */
  class Reader {
    const cursor: Cursor
    const codec: Option<Codec>
    var frame: bytes
    var at: nat
    ghost const start: nat
    ghost var taken: nat

    constructor (cursor: Cursor, codec: Option<Codec>)
      requires cursor.Valid()
      ensures Valid() && this.cursor == cursor && this.codec == codec && start == cursor.pos
      ensures codec.Some? ==> Here() == 0
    {
      hide Inflate, FrameEnd, Ahead, Rest, Frame;
      this.cursor, this.codec := cursor, codec;
      frame, at, start, taken := [], 0, cursor.pos, 0;
      if codec.Some? {
        Fresh(codec.value, cursor.source, cursor.pos);
      }
    }

    /** All the bytes this reader will ever give, and how it goes on after them. */
    ghost function Stream(): bytes
      requires start <= |cursor.source|
    {
      if codec.Some? then Inflate(codec.value, cursor.source, start).data else cursor.source
    }

    ghost function Stop(): Error
      requires start <= |cursor.source|
    {
      if codec.Some? then Inflate(codec.value, cursor.source, start).stop else WouldBlock
    }

    /** How much of the stream is read. */
    ghost function Here(): nat
      reads this, cursor
    {
      if codec.Some? then taken else cursor.pos
    }

    ghost predicate Valid()
      reads this, cursor
    {
      && cursor.Valid() && start <= |cursor.source| && Here() <= |Stream()|
      && (codec.Some? ==> InFrame(codec.value) && FrameEnd(codec.value, cursor.source, start, taken) == cursor.pos)
    }

    ghost predicate InFrame(codec: Codec)
      requires start <= |cursor.source| && cursor.Valid()
      reads this, cursor
    {
      && at <= |frame|
      && Ahead(codec, cursor.source, start, taken, |frame| - at, cursor.pos)
      && Rest(codec, cursor.source, start, taken, frame[at..], cursor.pos)
    }

    /** `fill`: the next frame. */
    method Fill(codec: Codec) returns (r: Result<()>)
      requires Valid() && this.codec == Some(codec) && at == |frame|
      modifies this`frame, this`at, cursor
      ensures r.Success? ==> cursor.Valid() && at == 0 && (frame != [] ==> InFrame(codec))
      ensures r.Success? && frame == [] ==> Here() == |Stream()| && Stop() == WouldBlock
      ensures r.Failure? ==> Here() == |Stream()| && r == Failure(Stop())
    {
      hide Frame, Inflate, FrameEnd, Ahead;
      assert frame[at..] == [];
      NextFrame(codec, cursor.source, start, taken, cursor.pos);
      var data :- cursor.DecompressBuffer(codec);
      frame, at := data, 0;
      assert frame[at..] == frame;
      return Success(());
    }

    /** The rest of the frame, or as much of it as fits. */
    method ReadFrame(codec: Codec, buf: array<byte>, from: nat, to: nat) returns (n: nat)
      requires cursor.Valid() && start <= |cursor.source| && this.codec == Some(codec)
      requires InFrame(codec) && at < |frame| && from < to <= buf.Length
      modifies this`at, this`taken, buf
      ensures Valid() && 0 < n <= to - from && Here() == old(Here()) + n
      ensures buf[from..from + n] == Stream()[old(Here())..Here()]
      ensures forall j | 0 <= j < buf.Length && !(from <= j < to) :: buf[j] == old(buf[j])
    {
      hide Frame, Inflate, FrameEnd, Ahead, Rest;
      n := Min(to - from, |frame| - at);
      var rest := frame[at..];
      FrameStep(codec, cursor.source, start, taken, rest, cursor.pos, n);
      assert rest[n..] == frame[at + n..];
      CopyInto(buf, from, rest[..n]);
      at, taken := at + n, taken + n;
    }

    /** One read into `buf[from..to]`: some bytes, fewer than wanted perhaps; none at the end of the data. */
    method Read(buf: array<byte>, from: nat, to: nat) returns (r: Result<nat>)
      requires Valid() && from < to <= buf.Length
      modifies this, cursor, buf
      ensures r.Success? ==> r.value <= to - from
      ensures r.Success? && r.value > 0 ==>
                && Valid() && Here() == old(Here()) + r.value
                && buf[from..from + r.value] == Stream()[old(Here())..Here()]
      ensures r.Failure? || r.value == 0 ==>
                old(Here()) == |Stream()| && Stop() == if r.Failure? then r.error else WouldBlock
      ensures forall j | 0 <= j < buf.Length && !(from <= j < to) :: buf[j] == old(buf[j])
    {
      hide Frame, Inflate, FrameEnd, Ahead, Rest;
      if codec.None? {
        var n: nat := cursor.Read(buf, from, to);
        return Success(n);
      }
      if at == |frame| {
        var _ :- Fill(codec.value);
        if frame == [] {
          return Success(0);
        }
      }
      var n: nat := ReadFrame(codec.value, buf, from, to);
      return Success(n);
    }

    /** `read_bytes`. */
    method ReadBytes(rv: array<byte>, from: nat, to: nat) returns (r: Result<()>)
      requires Valid() && from <= to <= rv.Length
      modifies this, cursor, rv
      ensures r.Success? <==> old(Here()) + (to - from) <= |Stream()|
      ensures r.Success? ==>
                Valid() && Here() == old(Here()) + (to - from) && rv[from..to] == Stream()[old(Here())..Here()]
      ensures r.Failure? ==> r == Failure(Stop())
      ensures forall j | 0 <= j < rv.Length && !(from <= j < to) :: rv[j] == old(rv[j])
    {
      hide Inflate, FrameEnd, Ahead, Rest;
      var i := from;
      while i < to
        invariant Valid() && from <= i <= to && Here() == old(Here()) + (i - from)
        invariant rv[from..i] == Stream()[old(Here())..Here()]
        invariant forall j | 0 <= j < rv.Length && !(from <= j < to) :: rv[j] == old(rv[j])
      {
        label Before:
        var nread: nat :- Read(rv, i, to);
        if nread == 0 {
          return Failure(WouldBlock);
        }
        ghost var left, right := rv[from..i], rv[i..i + nread];
        assert left == old@Before(rv[from..i]);
        assert rv[from..i + nread] == left + right;
        Glue(Stream(), old(Here()), old@Before(Here()), Here(), left, right);
        i := i + nread;
      }
      return Success(());
    }

    /** `read_bytes` into a new vector. */
    method Take(n: nat) returns (r: Result<bytes>)
      requires Valid()
      modifies this, cursor
      ensures Matches(Bytes(Stream(), old(Here()), n), r, Here(), Stop())
      ensures r.Success? ==> Valid()
    {
      hide Inflate, FrameEnd, Ahead, Rest;
      var rv := new byte[n](_ => 0);
      var _ :- ReadBytes(rv, 0, n);
      assert rv[..] == rv[0..n];
      return Success(rv[..]);
    }

    method ReadWord(w: nat) returns (r: Result<nat>)
      requires Valid()
      modifies this, cursor
      ensures Matches(Word(Stream(), old(Here()), w), r, Here(), Stop())
      ensures r.Success? ==> Valid()
    {
      hide Inflate, FrameEnd, Ahead, Rest;
      var b :- Take(w);
      return Success(FromLittleEndian(b));
    }

    /** `read_uvarint`. */
    method ReadUvarint() returns (r: Result<u64>)
      requires Valid()
      modifies this, cursor
      ensures Matches(Uvarint(Stream(), old(Here())), r, Here(), Stop())
      ensures r.Success? ==> Valid()
    {
      hide Inflate, FrameEnd, Ahead, Rest;
      var x: u64, i := 0, 0;
      while true
        invariant Valid() && (i <= 9 ==> x < Shifted(1, i))
        invariant UvarintFrom(Stream(), Here(), x, i) == Uvarint(Stream(), old(Here()))
        decreases |Stream()| - Here()
      {
        ghost var here := Here();
        var b :- ReadWord(1);
        OneByte(Stream(), here);
        if b < 0x80 {
          if i == 9 && b > 1 {
            return Failure(Overflow);
          }
          if i > 9 {
            return Failure(Panic(ShiftTooWide));
          }
          FoldFits(x, i, b);
          return Success(x + Shifted(b, i));
        }
        if i > 9 {
          return Failure(Panic(ShiftTooWide));
        }
        FoldFits(x, i, b - 0x80);
        x := (x + Shifted(b - 0x80, i)) % TWO_64;
        i := i + 1;
      }
    }

    /** The length and the bytes of a string. */
    method ReadBlob() returns (r: Result<bytes>)
      requires Valid()
      modifies this, cursor
      ensures Matches(Blob(Stream(), old(Here())), r, Here(), Stop())
      ensures r.Success? ==> Valid()
    {
      hide Inflate, FrameEnd, Ahead, Rest, Uvarint;
      var n :- ReadUvarint();
      r := Take(n);
    }

    /** Reads the bytes of the string allocated last. */
    method ReadIntoPool(pool: StringPool, buffer: array<byte>, from: nat, n: nat) returns (r: Result<()>)
      requires Valid() && pool.Valid() && |pool.pointers| > 0 && |pool.chunks| > 0
      requires var last := |pool.chunks| - 1;
               && buffer == pool.chunks[last] && from + n == pool.position
               && pool.pointers[|pool.pointers| - 1] == StringPtr(last, from, n)
      modifies this, cursor, buffer, pool`strings
      ensures r.Success? <==> old(Here()) + n <= |Stream()|
      ensures r.Success? ==>
                && Valid() && Here() == old(Here()) + n && pool.Valid()
                && pool.strings == old(pool.strings)[..|old(pool.strings)| - 1] + [Stream()[old(Here())..Here()]]
      ensures r.Failure? ==> r == Failure(Stop())
    {
      hide Inflate, FrameEnd, Ahead, Rest, Distinct, Apart, Below, Spelled, Stored, ChunkSpace;
      pool.AllEarlier();
      var _ :- ReadBytes(buffer, from, from + n);
      forall k | 0 <= k < |pool.pointers| - 1 ensures Cut(pool.chunks, pool.pointers[k]) == pool.strings[k] {
        assert old(Earlier(pool.chunks, pool.pointers, pool.strings, k));
      }
      pool.Written(buffer[from..from + n]);
      return Success(());
    }

    /** `read_str_into_buffer`: the bytes go straight into the arena. */
    method ReadStrIntoBuffer(pool: StringPool) returns (r: Result<()>)
      requires Valid() && pool.Valid()
      modifies this, cursor, pool, pool.chunks
      ensures match Blob(Stream(), old(Here()))
              case Ok(b, q) => r.Success? && pool.strings == old(pool.strings) + [b] && Here() == q
              case More => r == Failure(Stop())
              case Err(e) => r == Failure(e)
      ensures r.Success? ==> Valid() && pool.Valid()
      ensures forall i | 0 <= i < |pool.chunks| :: pool.chunks[i] in old(pool.chunks) || fresh(pool.chunks[i])
    {
      hide Inflate, FrameEnd, Ahead, Rest, Uvarint, Distinct, InChunks, Apart, Below, Spelled, Stored, ChunkSpace;
      var n :- ReadUvarint();
      var buffer, from := pool.Allocate(n);
      var _ :- ReadIntoPool(pool, buffer, from, n);
      return Success(());
    }

    /** `read_string`. */
    method ReadString() returns (r: Result<bytes>)
      requires Valid()
      modifies this, cursor
      ensures Matches(Str(Stream(), old(Here())), r, Here(), Stop())
      ensures r.Success? ==> Valid()
    {
      hide Inflate, FrameEnd, Ahead, Rest, Blob;
      var b :- ReadBlob();
      if !Utf8(b) {
        return Failure(BadUtf8);
      }
      return Success(b);
    }
  }

  lemma Glue(s: bytes, a: nat, b: nat, c: nat, left: bytes, right: bytes)
    requires a <= b <= c <= |s| && left == s[a..b] && right == s[b..c]
    ensures left + right == s[a..c]
  {
  }

  lemma OneByte(s: bytes, p: nat)
    requires p < |s|
    ensures Word(s, p, 1) == Ok(s[p], p + 1)
  {
    assert s[p..p + 1] == [s[p]];
    assert FromLittleEndian([s[p]]) == s[p] + 256 * FromLittleEndian([s[p]][1..]);
  }

  lemma Fresh(codec: Codec, s: bytes, p: nat)
    requires p <= |s|
    ensures Ahead(codec, s, p, 0, 0, p) && Rest(codec, s, p, 0, [][0..], p) && FrameEnd(codec, s, p, 0) == p
  {
    hide Inflate;
    assert Inflate(codec, s, p).data[0..] == [] + Inflate(codec, s, p).data;
  }
}
