/** A block written compressed, and what loading makes of it. */
module CompressedRoundTrip {
  import opened Basics
  import opened Varint
  import opened Decoders
  import opened Blocks
  import opened BlockRoundTrip
  import opened Compressed
  import opened Encoding

  const TWO_32: nat := 0x1_0000_0000

  /** What is asked of the foreign calls: hashes are two words, LZ4 gives back what went in, and neither
      the data nor the packed data exceed 32-bit sizes. */
  ghost predicate SoundCodec(codec: Codec, data: bytes) {
    var packed := codec.deflate(data);
    var hash := codec.cityHash(FrameBody(codec, data));
    && hash.0 < TWO_64 && hash.1 < TWO_64
    && codec.lz4(packed, |data|) == Some(data)
    && |data| < TWO_32 && |packed| + 9 < TWO_32
  }

  /** The hashed part of a frame: method, sizes, payload. */
  function FrameBody(codec: Codec, data: bytes): bytes {
    var packed := codec.deflate(data);
    [0x82] + ToLittleEndian(9 + |packed|, 4) + ToLittleEndian(|data|, 4) + packed
  }

  function WriteFrame(codec: Codec, data: bytes): bytes {
    var body := FrameBody(codec, data);
    var hash := codec.cityHash(body);
    ToLittleEndian(hash.0, 8) + (ToLittleEndian(hash.1, 8) + body)
  }

  /** `Block::write` with compression. */
  function WriteCompressed(codec: Codec, b: Block): bytes
    requires SoundBlock(b)
  {
    WriteFrame(codec, Write(b))
  }

  method WriteBlockCompressed(encoder: Encoder, codec: Codec, b: Block)
    requires SoundBlock(b)
    modifies encoder
    ensures encoder.buffer == old(encoder.buffer) + WriteCompressed(codec, b)
  {
    hide Write, ToLittleEndian, SoundBlock;
    var plain := new Encoder();
    WriteBlock(plain, b);
    assert plain.buffer == Write(b);
    var data := plain.buffer;
    var packed := codec.deflate(data);
    var body := [0x82] + ToLittleEndian(9 + |packed|, 4) + ToLittleEndian(|data|, 4) + packed;
    var hash := codec.cityHash(body);
    encoder.WriteWord(hash.0, 8);
    encoder.WriteWord(hash.1, 8);
    encoder.WriteBytes(body);
    var lo, hi := ToLittleEndian(hash.0, 8), ToLittleEndian(hash.1, 8);
    Regroup(old(encoder.buffer) + lo, hi, body);
    Regroup(old(encoder.buffer), lo, hi + body);
  }

  lemma Powers()
    ensures Pow256(1) == 256 && Pow256(4) == TWO_32 && Pow256(8) == TWO_64
  {
    assert Pow256(2) == 0x1_0000 && Pow256(6) == 0x1_0000 * TWO_32;
  }

  lemma BodyParts(s: bytes, q: nat, size: bytes, original: bytes, packed: bytes)
    requires Holds(s, q, [0x82] + size + original + packed)
    ensures Holds(s, q, [0x82]) && Holds(s, q + 1, size) && Holds(s, q + 1 + |size|, original)
    ensures Holds(s, q + 1 + |size| + |original|, packed) && q + 1 + |size| + |original| + |packed| <= |s|
  {
    hide Holds;
    HoldsInside(s, q, [0x82] + size + original + packed);
    HoldsSplit(s, q, [0x82] + size + original, packed);
    HoldsSplit(s, q, [0x82] + size, original);
    HoldsSplit(s, q, [0x82], size);
  }

  lemma Tag()
    ensures ToLittleEndian(0x82, 1) == [0x82]
  {
  }

  /** Where the parts of a written frame stand. */
  lemma FrameParts(codec: Codec, data: bytes, s: bytes, p: nat)
    requires Holds(s, p, WriteFrame(codec, data))
    ensures var body, packed := FrameBody(codec, data), codec.deflate(data);
            var hash := codec.cityHash(body);
            && |WriteFrame(codec, data)| == 25 + |packed| && p + 25 + |packed| <= |s|
            && Holds(s, p, ToLittleEndian(hash.0, 8)) && Holds(s, p + 8, ToLittleEndian(hash.1, 8))
            && Holds(s, p + 16, ToLittleEndian(0x82, 1))
            && Holds(s, p + 17, ToLittleEndian(9 + |packed|, 4)) && Holds(s, p + 21, ToLittleEndian(|data|, 4))
            && Holds(s, p + 25, packed)
  {
    hide Holds, ToLittleEndian;
    var body, packed := FrameBody(codec, data), codec.deflate(data);
    var hash := codec.cityHash(body);
    Tag();
    HoldsSplit(s, p, ToLittleEndian(hash.0, 8), ToLittleEndian(hash.1, 8) + body);
    HoldsSplit(s, p + 8, ToLittleEndian(hash.1, 8), body);
    BodyParts(s, p + 16, ToLittleEndian(9 + |packed|, 4), ToLittleEndian(|data|, 4), packed);
  }

  lemma FrameHeadLoads(codec: Codec, data: bytes, s: bytes, p: nat)
    requires SoundCodec(codec, data) && Holds(s, p, WriteFrame(codec, data))
    ensures var size := 9 + |codec.deflate(data)|;
            var hash := codec.cityHash(FrameBody(codec, data));
            && p <= |s|
            && FrameHead(s, p) == if size > MAX_COMPRESSED then Err(Transport)
                                  else Ok(Head(hash.0, hash.1, size, |data|), p + 25)
  {
    hide Holds, ToLittleEndian, Word, WriteFrame, FrameBody;
    FrameParts(codec, data, s, p);
    Powers();
    var packed := codec.deflate(data);
    var hash := codec.cityHash(FrameBody(codec, data));
    WordRoundTrip(s, p, hash.0, 8);
    WordRoundTrip(s, p + 8, hash.1, 8);
    WordRoundTrip(s, p + 16, 0x82, 1);
    WordRoundTrip(s, p + 17, 9 + |packed|, 4);
    WordRoundTrip(s, p + 21, |data|, 4);
  }

  /** A written frame inflates to its data unless it is too big to be accepted. */
  lemma FrameLoads(codec: Codec, data: bytes, s: bytes, p: nat)
    requires SoundCodec(codec, data) && Holds(s, p, WriteFrame(codec, data))
    ensures p <= |s|
    ensures Frame(codec, s, p) == if 9 + |codec.deflate(data)| > MAX_COMPRESSED then Err(Transport)
                                  else Ok(data, p + |WriteFrame(codec, data)|)
  {
    hide FrameHead, ToLittleEndian, WriteFrame;
    FrameHeadLoads(codec, data, s, p);
    FrameParts(codec, data, s, p);
    var packed := codec.deflate(data);
    assert Bytes(s, p + 25, |packed|) == Ok(packed, p + 25 + |packed|);
    assert data[..|data|] == data;
  }

  /** The frame of a written block is within the size that readers accept. */
  predicate FrameFits(codec: Codec, b: Block)
    requires SoundBlock(b)
  {
    9 + |codec.deflate(Write(b))| <= 0x4000_0000
  }

  /** A block written compressed, followed by anything, loads as it does uncompressed, and exactly its frame is
      consumed, when the frame is within the size that readers accept. A larger frame is refused. */
  lemma CompressedRoundTrip(codec: Codec, b: Block, s: bytes, p: nat)
    requires SoundBlock(b) && AllPrintable(b.columns) && SoundCodec(codec, Write(b))
    requires Holds(s, p, WriteCompressed(codec, b))
    ensures p <= |s|
    ensures CompressedLoad(codec, s, p)
         == if FrameFits(codec, b)
            then Ok(Block(WireInfo(b.info), AsLoaded(b.columns)), p + |WriteCompressed(codec, b)|)
            else Err(Transport)
  {
    hide Frame, RawLoad, WriteFrame, SoundCodec, Write, WriteInfo, SoundBlock, AllPrintable, AsLoaded;
    var data := Write(b);
    FrameLoads(codec, data, s, p);
    if 9 + |codec.deflate(data)| <= MAX_COMPRESSED {
      WriteSome(b);
      var all := Inflate(codec, s, p).data;
      assert Holds(all, 0, data);
      BlockLoads(b, all, 0);
    } else {
      NothingLoads();
    }
  }

  // ---------- any number of frames ----------

  function Whole(parts: seq<bytes>): bytes {
    if |parts| == 0 then [] else parts[0] + Whole(parts[1..])
  }

  function WriteFrames(codec: Codec, parts: seq<bytes>): bytes {
    if |parts| == 0 then [] else WriteFrame(codec, parts[0]) + WriteFrames(codec, parts[1..])
  }

  /** Pieces that can be sent in a frame each. */
  ghost predicate GoodParts(codec: Codec, parts: seq<bytes>) {
    forall i | 0 <= i < |parts| ::
      |parts[i]| > 0 && SoundCodec(codec, parts[i]) && 9 + |codec.deflate(parts[i])| <= 0x4000_0000
  }

  lemma {:induction false} LastInWhole(parts: seq<bytes>)
    requires |parts| > 0
    ensures |parts[|parts| - 1]| <= |Whole(parts)|
    decreases |parts|
  {
    if |parts| > 1 {
      LastInWhole(parts[1..]);
    }
  }

  lemma FrameFirst(codec: Codec, s: bytes, p: nat, data: bytes, q: nat, n: nat)
    requires p <= |s| && q <= |s| && Frame(codec, s, p) == Ok(data, q) && data != [] && n > 0
    ensures Inflate(codec, s, p).data == data + Inflate(codec, s, q).data
    ensures FrameEnd(codec, s, p, n) == if n <= |data| then q else FrameEnd(codec, s, q, n - |data|)
  {
    hide Frame;
  }

  /** The frames inflate to the pieces, and bytes of the last piece are in the last frame. */
  lemma {:induction false} FramesInflate(codec: Codec, parts: seq<bytes>, s: bytes, p: nat, n: nat)
    requires |parts| > 0 && GoodParts(codec, parts) && Holds(s, p, WriteFrames(codec, parts))
    requires |Whole(parts)| - |parts[|parts| - 1]| < n <= |Whole(parts)|
    ensures p <= |s| && Holds(Inflate(codec, s, p).data, 0, Whole(parts))
    ensures FrameEnd(codec, s, p, n) == p + |WriteFrames(codec, parts)|
    decreases |parts|
  {
    hide Holds, Frame, Inflate, FrameEnd, WriteFrame, SoundCodec;
    var first, rest := parts[0], parts[1..];
    var q := p + |WriteFrame(codec, first)|;
    HoldsInside(s, p, WriteFrames(codec, parts));
    HoldsSplit(s, p, WriteFrame(codec, first), WriteFrames(codec, rest));
    FrameLoads(codec, first, s, p);
    LastInWhole(parts);
    FrameFirst(codec, s, p, first, q, n);
    if |rest| > 0 {
      LastInWhole(rest);
      FramesInflate(codec, rest, s, q, n - |first|);
      Joined(first, Inflate(codec, s, q).data, Whole(rest));
    } else {
      assert Whole(rest) == [] && first + [] == first;
      Joined(first, Inflate(codec, s, q).data, []);
    }
  }

  lemma Joined(a: bytes, b: bytes, w: bytes)
    requires w == [] || Holds(b, 0, w)
    ensures Holds(a + b, 0, a + w)
  {
  }

  /** The bytes of a block, cut into frames anyhow, load as the block, and exactly these frames are consumed. */
  lemma AnyFrames(codec: Codec, parts: seq<bytes>, b: Block, s: bytes, p: nat)
    requires SoundBlock(b) && AllPrintable(b.columns) && |parts| > 0 && GoodParts(codec, parts)
    requires Whole(parts) == Write(b) && Holds(s, p, WriteFrames(codec, parts))
    ensures p <= |s|
    ensures CompressedLoad(codec, s, p)
         == Ok(Block(WireInfo(b.info), AsLoaded(b.columns)), p + |WriteFrames(codec, parts)|)
  {
    hide RawLoad, WriteFrames, GoodParts, Write, SoundBlock, AllPrintable, AsLoaded, Inflate, FrameEnd, Whole;
    LastInWhole(parts);
    assert |parts[|parts| - 1]| > 0 by { LastGood(codec, parts); }
    FramesInflate(codec, parts, s, p, |Whole(parts)|);
    BlockLoads(b, Inflate(codec, s, p).data, 0);
  }

  lemma LastGood(codec: Codec, parts: seq<bytes>)
    requires |parts| > 0 && GoodParts(codec, parts)
    ensures |parts[|parts| - 1]| > 0
  {
    hide SoundCodec;
  }

  /** A codec that packs everything into more than a gigabyte. */
  ghost function Padding(): Codec {
    Codec(_ => (0, 0), data => data + seq(MAX_COMPRESSED, _ => 0),
          (packed: bytes, n: nat) => if n <= |packed| then Some(packed[..n]) else None)
  }

  lemma PaddingSound(data: bytes)
    requires |data| < MAX_COMPRESSED
    ensures SoundCodec(Padding(), data) && |Padding().deflate(data)| == |data| + MAX_COMPRESSED
  {
    assert Padding().deflate(data)[..|data|] == data;
  }

  lemma EmptyBlock()
    ensures var b := Block(DEFAULT_INFO, []);
            SoundBlock(b) && AllPrintable(b.columns) && |Write(b)| < 100
  {
    hide ToLittleEndian;
    assert |Leb128(0)| == |Leb128(1)| == |Leb128(2)| == 1;
  }

  /** A block without columns in a frame that is too big. */
  lemma FrameTooBig(s: bytes, p: nat)
    requires Holds(s, p, WriteCompressed(Padding(), Block(DEFAULT_INFO, [])))
    ensures p <= |s| && CompressedLoad(Padding(), s, p) == Err(Transport)
  {
    hide SoundBlock, AllPrintable, Write, WriteCompressed, CompressedLoad, Padding, SoundCodec;
    var b := Block(DEFAULT_INFO, []);
    EmptyBlock();
    PaddingSound(Write(b));
    CompressedRoundTrip(Padding(), b, s, p);
  }
}
