/** The compressed form of a block: frames that are checked, inflated and read as one stream.
    CityHash and LZ4 are foreign calls; any functions can stand for them. */
module Compressed {
  import opened Basics
  import opened Decoders
  import opened Blocks

  /** `cityHash` hashes a frame, `deflate` and `lz4` are the two directions of LZ4; the latter is told the size
      to expect. */
  datatype Codec = Codec(cityHash: bytes -> (nat, nat), deflate: bytes -> bytes, lz4: (bytes, nat) -> Option<bytes>)

  /** `DBMS_MAX_COMPRESSED_SIZE`. */
  const MAX_COMPRESSED: nat := 0x4000_0000

  /** The sizes in the head of a frame; `from` is where the payload starts. */
  datatype Head = Head(lo: nat, hi: nat, compressed: nat, original: nat)

  function FrameHead(s: bytes, p: nat): (d: Dec<Head>)
    requires p <= |s|
    ensures d.Ok? ==> d.pos == p + 25 <= |s|
  {
    var (lo, p1) :- Word(s, p, 8);
    var (hi, p2) :- Word(s, p1, 8);
    var (tag, p3) :- Word(s, p2, 1);
    if tag != 0x82 then Err(Transport)
    else
      var (compressed, p4) :- Word(s, p3, 4);
      var (original, p5) :- Word(s, p4, 4);
      if compressed > MAX_COMPRESSED then Err(Transport)
      else Ok(Head(lo, hi, compressed, original), p5)
  }

  /** What hashing and inflating make of a whole frame. */
  function Open(codec: Codec, head: Head, payload: bytes): Result<bytes> {
    var buffer := [0x82] + ToLittleEndian(head.compressed, 4) + ToLittleEndian(head.original, 4) + payload;
    if (head.lo, head.hi) != codec.cityHash(buffer) then Failure(Transport)
    else if head.compressed < 9 then Failure(Panic(SubtractOverflow))
    else match codec.lz4(payload, head.original)
      case None => Failure(Transport)
      case Some(data) => Success(Resized(data, head.original))
  }

  /** `decompress_buffer`. The size of a frame counts the nine bytes before its payload. */
  function Frame(codec: Codec, s: bytes, p: nat): (d: Dec<bytes>)
    requires p <= |s|
    ensures d.Ok? ==> p < d.pos <= |s|
  {
    var (head, p1) :- FrameHead(s, p);
    var (payload, p2) :- Bytes(s, p1, Max(head.compressed, 9) - 9);
    match Open(codec, head, payload)
    case Failure(e) => Err(e)
    case Success(data) => Ok(data, p2)
  }

  lemma HeadGiven(s: bytes, p: nat)
    requires p + 25 <= |s|
    ensures var size, original := FromLittleEndian(s[p + 17..p + 21]), FromLittleEndian(s[p + 21..p + 25]);
            FrameHead(s, p)
            == if s[p + 16] == 0x82 && size <= 0x4000_0000
               then Ok(Head(FromLittleEndian(s[p..p + 8]), FromLittleEndian(s[p + 8..p + 16]), size, original), p + 25)
               else Err(Transport)
  {
    hide FromLittleEndian;
    var tag := s[p + 16..p + 17];
    assert FromLittleEndian(tag) == s[p + 16] by { TagValue(tag); }
  }

  lemma TagValue(s: bytes)
    requires |s| == 1
    ensures FromLittleEndian(s) == s[0]
  {
    assert s[1..] == [] && FromLittleEndian([]) == 0;
  }

  lemma HashedBytes(s: bytes, p: nat, size: nat)
    requires 9 <= size && p + 16 + size <= |s| && s[p + 16] == 0x82
    ensures [0x82] + ToLittleEndian(FromLittleEndian(s[p + 17..p + 21]), 4)
            + ToLittleEndian(FromLittleEndian(s[p + 21..p + 25]), 4) + s[p + 25..p + 16 + size]
            == s[p + 16..p + 16 + size]
  {
    hide ToLittleEndian, FromLittleEndian;
    LittleEndianOnto(s[p + 17..p + 21]);
    LittleEndianOnto(s[p + 21..p + 25]);
  }

  /** What becomes of a frame: sixteen bytes of hash, then, all hashed, the tag 0x82, the size from there on, the size
      of the data, and the data as LZ4 packs them. Tag and size are looked at first, then the rest has to be there,
      then the hash is compared, and only then is anything unpacked. */
  lemma FrameDecided(codec: Codec, s: bytes, p: nat)
    requires p <= |s|
    ensures p + 25 > |s| ==>
              Frame(codec, s, p) == if p + 17 <= |s| && s[p + 16] != 0x82 then Err(Transport) else More
    ensures p + 25 <= |s| ==>
              var size, original := FromLittleEndian(s[p + 17..p + 21]), FromLittleEndian(s[p + 21..p + 25]);
              var end := p + 16 + if size < 9 then 9 else size;
              Frame(codec, s, p)
              == if s[p + 16] != 0x82 || size > 0x4000_0000 then Err(Transport)
                 else if end > |s| then More
                 else if codec.cityHash(s[p + 16..end])
                         != (FromLittleEndian(s[p..p + 8]), FromLittleEndian(s[p + 8..p + 16])) then Err(Transport)
                 else if size < 9 then Err(Panic(SubtractOverflow))
                 else if codec.lz4(s[p + 25..end], original).None? then Err(Transport)
                 else Ok(Resized(codec.lz4(s[p + 25..end], original).value, original), end)
  {
    if p + 25 > |s| {
      HeadMissing(s, p);
    } else {
      hide FrameHead, FromLittleEndian, ToLittleEndian, Resized;
      HeadGiven(s, p);
      var size := FromLittleEndian(s[p + 17..p + 21]);
      var full := if size < 9 then 9 else size;
      if p + 16 + full <= |s| && s[p + 16] == 0x82 {
        HashedBytes(s, p, full);
      }
    }
  }

  lemma HeadMissing(s: bytes, p: nat)
    requires p <= |s| < p + 25
    ensures FrameHead(s, p) == if p + 17 <= |s| && s[p + 16] != 0x82 then Err(Transport) else More
  {
    hide FromLittleEndian;
    if p + 17 <= |s| {
      TagValue(s[p + 16..p + 17]);
    }
  }

  /** A refused first frame refuses the block. */
  lemma FirstFrame(codec: Codec, s: bytes, p: nat)
    requires p <= |s| && Frame(codec, s, p).Err? && Frame(codec, s, p).error != WouldBlock
    ensures CompressedLoad(codec, s, p) == Err(Frame(codec, s, p).error)
  {
    hide Frame;
    assert RawLoad([], 0) == More by { NothingLoads(); }
  }

  /** An empty frame reads as the end of the data, and the block is waited for. */
  lemma EmptyFrame(codec: Codec, s: bytes, p: nat)
    requires p <= |s| && Frame(codec, s, p).Ok? && Frame(codec, s, p).value == []
    ensures CompressedLoad(codec, s, p) == More
  {
    hide Frame;
    assert RawLoad([], 0) == More by { NothingLoads(); }
  }

  lemma NothingLoads()
    ensures RawLoad([], 0) == More
  {
  }

  lemma FrameHeadLocal(s: bytes, t: bytes, p: nat)
    requires p <= |s| && p <= |t|
    requires Settled(FrameHead(s, p), s, t)
    ensures FrameHead(t, p) == FrameHead(s, p)
  {
    hide Agree, Word;
    Shared(FrameHead(s, p), s, t);
    WordLocal(s, t, p, 8);
    if p + 8 <= |s| {
      WordLocal(s, t, p + 8, 8);
      if p + 16 <= |s| {
        WordLocal(s, t, p + 16, 1);
        if Word(s, p + 16, 1).Ok? && Word(s, p + 16, 1).value == 0x82 {
          WordLocal(s, t, p + 17, 4);
          if p + 21 <= |s| {
            WordLocal(s, t, p + 21, 4);
          }
        }
      }
    }
  }

  lemma FrameLocal(codec: Codec, s: bytes, t: bytes, p: nat)
    requires p <= |s| && p <= |t|
    requires Settled(Frame(codec, s, p), s, t)
    ensures Frame(codec, t, p) == Frame(codec, s, p)
  {
    hide Agree, FrameHead, Bytes, Open;
    Shared(Frame(codec, s, p), s, t);
    FrameHeadLocal(s, t, p);
    if FrameHead(s, p).Ok? {
      var d := FrameHead(s, p);
      BytesLocal(s, t, d.pos, Max(d.value.compressed, 9) - 9);
    }
  }

  /** All the bytes the frames from a position on inflate to, and what a read past them gives. An
      empty frame reads as the end of the data. */
  datatype Inflated = Inflated(data: bytes, stop: Error)

  function Inflate(codec: Codec, s: bytes, p: nat): Inflated
    requires p <= |s|
    decreases |s| - p
  {
    match Frame(codec, s, p)
    case More => Inflated([], WouldBlock)
    case Err(e) => Inflated([], e)
    case Ok(data, q) =>
      if data == [] then Inflated([], WouldBlock)
      else
        var rest := Inflate(codec, s, q);
        Inflated(data + rest.data, rest.stop)
  }

  /** The position after the frames that hold the first `n` inflated bytes. */
  function FrameEnd(codec: Codec, s: bytes, p: nat, n: nat): (q: nat)
    requires p <= |s|
    ensures p <= q <= |s|
    ensures 0 < n <= |Inflate(codec, s, p).data| ==> p < q
    decreases |s| - p
  {
    if n == 0 then p
    else match Frame(codec, s, p)
      case Ok(data, q) => if data == [] || n <= |data| then q else FrameEnd(codec, s, q, n - |data|)
      case _ => p
  }

  /** `raw_load` behind a `CompressedReader`. The rest of the last frame is dropped. */
  function CompressedLoad(codec: Codec, s: bytes, p: nat): (d: Dec<Block>)
    requires p <= |s|
    ensures d.Ok? ==> p < d.pos <= |s|
  {
    var inflated := Inflate(codec, s, p);
    match RawLoad(inflated.data, 0)
    case Ok(block, n) => Ok(block, FrameEnd(codec, s, p, n))
    case Err(e) => Err(e)
    case More => if inflated.stop == WouldBlock then More else Err(inflated.stop)
  }

  lemma {:induction false} InflatePrefix(codec: Codec, s: bytes, t: bytes, p: nat, n: nat)
    requires p <= |s| && p <= |t|
    requires n <= |Inflate(codec, s, p).data| && Agree(s, t, FrameEnd(codec, s, p, n))
    ensures FrameEnd(codec, t, p, n) == FrameEnd(codec, s, p, n)
    ensures Agree(Inflate(codec, s, p).data, Inflate(codec, t, p).data, n)
    decreases |s| - p
  {
    hide Frame;
    if n > 0 {
      FrameLocal(codec, s, t, p);
      var d := Frame(codec, s, p);
      if n > |d.value| {
        InflatePrefix(codec, s, t, d.pos, n - |d.value|);
      }
    }
  }

  lemma {:induction false} InflateMore(codec: Codec, s: bytes, t: bytes, p: nat)
    requires p <= |s| && Agree(s, t, |s|)
    ensures var a, b := Inflate(codec, s, p), Inflate(codec, t, p);
            Agree(a.data, b.data, |a.data|) && (a.stop != WouldBlock ==> b == a)
    decreases |s| - p
  {
    hide Frame;
    if !Frame(codec, s, p).More? {
      FrameLocal(codec, s, t, p);
      if Frame(codec, s, p).Ok? && Frame(codec, s, p).value != [] {
        InflateMore(codec, s, t, Frame(codec, s, p).pos);
      }
    }
  }

  lemma CompressedLoadLocal(codec: Codec, s: bytes, t: bytes, p: nat)
    requires p <= |s| && p <= |t|
    requires Settled(CompressedLoad(codec, s, p), s, t)
    ensures CompressedLoad(codec, t, p) == CompressedLoad(codec, s, p)
  {
    hide RawLoad, Inflate, FrameEnd;
    var a, b := Inflate(codec, s, p), Inflate(codec, t, p);
    var d := RawLoad(a.data, 0);
    if d.Ok? {
      InflatePrefix(codec, s, t, p, d.pos);
      RawLoadLocal(a.data, b.data, 0);
    } else {
      InflateMore(codec, s, t, p);
      if d.Err? {
        RawLoadLocal(a.data, b.data, 0);
      }
    }
  }
}
