/** Blocks sent in chunks, and what a reader of the stream sees of them. */
module Sending {
  import opened Basics
  import opened Text
  import opened Varint
  import opened Decoders
  import opened TypeNames
  import opened TypeNameRoundTrip
  import opened Columns
  import opened ColumnRoundTrip
  import opened Views
  import opened Blocks
  import opened BlockRoundTrip
  import opened Compressed
  import opened CompressedRoundTrip
  import opened Protocol
  import opened Encoding
  import opened Chunking

  const INSERT_BLOCK_SIZE: nat := 1_048_576

  ghost predicate AllSoundBlocks(blocks: seq<Block>) {
    forall k | 0 <= k < |blocks| :: SoundBlock(blocks[k])
  }

  /** `Block::write`, plain or compressed. */
  function WriteAs(wire: Wire, b: Block): bytes
    requires SoundBlock(b)
  {
    if wire.compress then WriteCompressed(wire.codec, b) else Write(b)
  }

  function WriteAll(wire: Wire, blocks: seq<Block>): bytes
    requires AllSoundBlocks(blocks)
  {
    if |blocks| == 0 then [] else WriteAs(wire, blocks[0]) + WriteAll(wire, blocks[1..])
  }

  lemma ColumnChunkSound(c: NamedColumn, cut: Cut)
    requires SoundNamed(c) && cut.from <= cut.to <= ViewLength(c.data)
    ensures SoundNamed(NamedColumn(c.name, Chunk(c.data, cut.from, cut.to)))
  {
    hide Utf8, Print, Utf8Items;
  }

  lemma ChunkSound(b: Block, cut: Cut)
    requires SoundBlock(b) && cut.from <= cut.to <= RowCount(b.columns)
    ensures SoundBlock(ChunkOf(b, cut))
  {
    hide SoundNamed;
    var chunk := ChunkOf(b, cut);
    forall i | 0 <= i < |b.columns| ensures SoundNamed(chunk.columns[i]) {
      ColumnChunkSound(b.columns[i], cut);
    }
  }

  lemma ChunksSound(b: Block, n: nat)
    requires SoundBlock(b) && n > 0
    ensures AllSoundBlocks(Chunks(b, n))
  {
    hide SoundBlock, RowCount, ChunkOf;
    var cuts := Cuts(RowCount(b.columns), n);
    CutsTile(RowCount(b.columns), n);
    forall k | 0 <= k < |cuts| ensures SoundBlock(ChunkOf(b, cuts[k])) {
      ChunkSound(b, cuts[k]);
    }
  }

  // ---------- a chunk on the wire ----------

  /** A written chunk loads with the chunk's rows: column by column the rows are those of the block if and
      only if the chunk is empty or its first row can stand first. */
  lemma ChunkLoads(b: Block, cut: Cut, s: bytes, p: nat, i: nat)
    requires SoundBlock(b) && AllPlain(b.columns) && AllPrintable(b.columns)
    requires cut.from <= cut.to <= RowCount(b.columns) && i < |b.columns|
    requires SoundBlock(ChunkOf(b, cut)) && Holds(s, p, Write(ChunkOf(b, cut)))
    ensures var d := RawLoad(s, p);
            var c := b.columns[i];
            && d.Ok? && d.pos == p + |Write(ChunkOf(b, cut))| && i < |d.value.columns|
            && Sound(c.data.column) && cut.to <= Length(c.data.column)
            && d.value.columns[i].name == c.name && d.value.columns[i].data.Plain?
            && var e := d.value.columns[i].data.column;
            && Sound(e) && Length(e) == cut.to - cut.from && TypeOfColumn(e) == TypeOfColumn(c.data.column)
            && (Rows(e, 0, Length(e)) == Rows(c.data.column, cut.from, cut.to)
                <==> cut.from == cut.to || StartsClean(c.data.column, cut.from))
  {
    hide RawLoad, Write, AllPrintable, Holds, Image, Sound, StartsClean, Rows, Printable, WriteInfo, Utf8;
    hide Print, Utf8Items;
    var chunk := ChunkOf(b, cut);
    ChunkPrintable(b, cut);
    BlockLoads(chunk, s, p);
    ColumnOfChunk(b, cut, i);
    ImageRows(b.columns[i].data.column, cut.from, cut.to);
  }

  lemma ChunkPrintable(b: Block, cut: Cut)
    requires AllPrintable(b.columns)
    ensures AllPrintable(ChunkOf(b, cut).columns)
  {
    forall i | 0 <= i < |b.columns| ensures Printable(ViewType(ChunkOf(b, cut).columns[i].data)) {
      assert ViewType(ChunkOf(b, cut).columns[i].data) == ViewType(b.columns[i].data);
    }
  }

  lemma ColumnOfChunk(b: Block, cut: Cut, i: nat)
    requires SoundBlock(b) && AllPlain(b.columns) && SoundBlock(ChunkOf(b, cut))
    requires cut.from <= cut.to <= RowCount(b.columns) && i < |b.columns|
    ensures var c := b.columns[i].data.column;
            && Sound(c) && cut.to <= Length(c)
            && AsLoaded(ChunkOf(b, cut).columns)[i] == NamedColumn(b.columns[i].name, Plain(Image(c, cut.from, cut.to)))
  {
    hide Image, Sound, Utf8, Print, Utf8Items, Length;
    var v := ChunkOf(b, cut).columns[i].data;
    assert SoundNamed(ChunkOf(b, cut).columns[i]) && SoundNamed(b.columns[i]);
    assert v == Chunk(b.columns[i].data, cut.from, cut.to);
    var data := b.columns[i].data;
    assert data == Plain(data.column);
    assert BaseColumn(data) == data.column && BaseFrom(data) == 0;
    assert BaseColumn(v) == BaseColumn(data) && BaseFrom(v) == BaseFrom(data) + cut.from;
  }

  // ---------- sending ----------

  /** `send_client_data` and `send_server_data`: one packet code, one table name, and every chunk. */
  function SendData(wire: Wire, code: u64, b: Block): bytes
    requires AllSoundBlocks(Chunks(b, INSERT_BLOCK_SIZE))
  {
    Leb128(code) + (EncodeBlob([]) + WriteAll(wire, Chunks(b, INSERT_BLOCK_SIZE)))
  }

  method WriteEither(encoder: Encoder, wire: Wire, b: Block)
    requires SoundBlock(b)
    modifies encoder
    ensures encoder.buffer == old(encoder.buffer) + WriteAs(wire, b)
  {
    if wire.compress {
      WriteBlockCompressed(encoder, wire.codec, b);
    } else {
      WriteBlock(encoder, b);
    }
  }

  method SendBlock(encoder: Encoder, wire: Wire, code: u64, b: Block)
    requires SoundBlock(b)
    modifies encoder
    ensures AllSoundBlocks(Chunks(b, INSERT_BLOCK_SIZE))
    ensures encoder.buffer == old(encoder.buffer) + SendData(wire, code, b)
  {
    hide Leb128, EncodeBlob, SoundBlock, WriteAs, ChunkOf, ChunksOf, Cuts, RowCount;
    ChunksSound(b, INSERT_BLOCK_SIZE);
    encoder.Uvarint(code);
    encoder.ByteString([]);
    ghost var head, all := encoder.buffer, WriteAll(wire, Chunks(b, INSERT_BLOCK_SIZE));
    var chunks := new ChunkIterator(b, INSERT_BLOCK_SIZE);
    while true
      invariant fresh(chunks) && chunks.size == INSERT_BLOCK_SIZE && AllSoundBlocks(chunks.Ahead())
      invariant encoder.buffer + WriteAll(wire, chunks.Ahead()) == head + all
      decreases |chunks.Ahead()|
    {
      ghost var ahead := chunks.Ahead();
      var chunk := chunks.Next();
      if chunk.None? {
        break;
      }
      label Before:
      WriteEither(encoder, wire, chunk.value);
      Regroup(old@Before(encoder.buffer), WriteAs(wire, chunk.value), WriteAll(wire, ahead[1..]));
    }
    assert encoder.buffer == head + all;
    Regroup(old(encoder.buffer), Leb128(code), EncodeBlob([]));
    Regroup(old(encoder.buffer), Leb128(code) + EncodeBlob([]), all);
    Regroup(Leb128(code), EncodeBlob([]), all);
  }

  lemma WriteAsSome(wire: Wire, b: Block)
    requires SoundBlock(b)
    ensures |WriteAs(wire, b)| > 0
  {
    hide Write, SoundBlock;
    WriteSome(b);
  }

  lemma WriteAllFirst(wire: Wire, blocks: seq<Block>)
    requires AllSoundBlocks(blocks) && |blocks| > 0
    ensures WriteAll(wire, blocks) == WriteAs(wire, blocks[0]) + WriteAll(wire, blocks[1..])
    ensures |blocks| == 1 <==> WriteAll(wire, blocks) == WriteAs(wire, blocks[0])
  {
    hide WriteAs, SoundBlock;
    if |blocks| > 1 {
      WriteAsSome(wire, blocks[1]);
    }
  }

  /** A reader takes the block as it is written: plain, or in a frame that is not too big. */
  predicate Accepted(wire: Wire, b: Block)
    requires SoundBlock(b)
  {
    wire.compress ==> FrameFits(wire.codec, b)
  }

  /** What is read back from a sent block is its first chunk, unless its frame is refused. It is the whole of what
      was sent if and only if the block has at most `INSERT_BLOCK_SIZE` rows: the further chunks have no packet code
      of their own. */
  lemma SentBlockIsOnePacket(b: Block, s: bytes, wire: Wire)
    requires SoundBlock(b) && AllPrintable(b.columns) && AllSoundBlocks(Chunks(b, INSERT_BLOCK_SIZE))
    requires wire.compress ==> forall k | 0 <= k < |Chunks(b, INSERT_BLOCK_SIZE)| ::
                                 SoundCodec(wire.codec, Write(Chunks(b, INSERT_BLOCK_SIZE)[k]))
    requires Holds(s, 0, SendData(wire, CLIENT_DATA, b))
    ensures var chunks, d := Chunks(b, INSERT_BLOCK_SIZE), ReadPacket(s, 0, wire);
            && |chunks| > 0
            && (!Accepted(wire, chunks[0]) ==> d == Err(Transport))
            && (Accepted(wire, chunks[0]) ==>
                  && d.Ok? && d.value == DataPacket(Block(WireInfo(DEFAULT_INFO), AsLoaded(chunks[0].columns)))
                  && (d.pos == |SendData(wire, CLIENT_DATA, b)| <==> RowCount(b.columns) <= 1_048_576))
  {
    hide RawLoad, Uvarint, Holds, Write, Str, Leb128, SoundBlock, AllPrintable, WriteAll, WriteInfo, WriteAs;
    hide AllSoundBlocks, Cuts, ReadData, RowCount, CompressedLoad, SoundCodec, Accepted, AsLoaded;
    var chunks := Chunks(b, INSERT_BLOCK_SIZE);
    var m := RowCount(b.columns);
    var all, code, name := WriteAll(wire, chunks), Leb128(CLIENT_DATA), EncodeBlob([]);
    CutsExact(m, INSERT_BLOCK_SIZE);
    FirstSound(chunks);
    WriteAllFirst(wire, chunks);
    HoldsSplit(s, 0, code, name + all);
    HoldsSplit(s, |code|, name, all);
    HoldsSplit(s, |code| + |name|, WriteAs(wire, chunks[0]), WriteAll(wire, chunks[1..]));
    HoldsInside(s, 0, SendData(wire, CLIENT_DATA, b));
    UvarintRoundTrip(s, 0, CLIENT_DATA);
    AsciiIsUtf8([]);
    StrRoundTrip(s, |code|, []);
    ChunkPrintable(b, Cuts(m, INSERT_BLOCK_SIZE)[0]);
    DataLoads(chunks[0], s, |code|, |code| + |name|, wire);
    OneCut(m, INSERT_BLOCK_SIZE);
  }

  lemma FirstSound(blocks: seq<Block>)
    requires AllSoundBlocks(blocks) && |blocks| > 0
    ensures SoundBlock(blocks[0]) && AllSoundBlocks(blocks[1..])
  {
    hide SoundBlock;
  }

  lemma OneCut(m: nat, n: nat)
    requires n > 0
    ensures |Cuts(m, n)| == 1 <==> m <= n
  {
    CutsExact(m, n);
    if |Cuts(m, n)| > 1 {
      Scaled(1, |Cuts(m, n)| - 1, n);
    }
  }

  /** A block after its table name, written the way it is read. */
  lemma DataLoads(b: Block, s: bytes, p: nat, q: nat, wire: Wire)
    requires SoundBlock(b) && AllPrintable(b.columns) && p <= |s| && Str(s, p).Ok? && Str(s, p).pos == q
    requires wire.compress ==> SoundCodec(wire.codec, Write(b))
    requires Holds(s, q, WriteAs(wire, b))
    ensures ReadData(s, p, wire) == if Accepted(wire, b)
                                    then Ok(Block(WireInfo(b.info), AsLoaded(b.columns)), q + |WriteAs(wire, b)|)
                                    else Err(Transport)
  {
    hide RawLoad, Holds, Write, Str, AllPrintable, WriteInfo, CompressedLoad, WireInfo, SoundBlock, AsLoaded;
    hide SoundCodec;
    hide WriteFrame;
    if wire.compress {
      CompressedRoundTrip.CompressedRoundTrip(wire.codec, b, s, q);
    } else {
      BlockLoads(b, s, q);
    }
  }

  /** A block of 1 048 577 numbers, sent: the packet read back ends before what was sent does. */
  lemma OneRowTooMany(wire: Wire)
    requires !wire.compress
    ensures var b := Block(DEFAULT_INFO, [NamedColumn([], Plain(Numbers(UInt8, seq(1_048_577, _ => 0))))]);
            && SoundBlock(b) && AllSoundBlocks(Chunks(b, INSERT_BLOCK_SIZE))
            && var s := SendData(wire, CLIENT_DATA, b);
               ReadPacket(s, 0, wire).Ok? && ReadPacket(s, 0, wire).pos != |s|
  {
    var column := NamedColumn([], Plain(Numbers(UInt8, seq(INSERT_BLOCK_SIZE + 1, _ => 0))));
    var b := Block(DEFAULT_INFO, [column]);
    NumbersSound(column);
    ChunksSound(b, INSERT_BLOCK_SIZE);
    var s := SendData(wire, CLIENT_DATA, b);
    WholeHolds(s);
    SentBlockIsOnePacket(b, s, wire);
  }

  lemma WholeHolds(s: bytes)
    ensures Holds(s, 0, s)
  {
  }

  lemma NumbersSound(c: NamedColumn)
    requires c.name == [] && c.data.Plain? && c.data.column.Numbers? && c.data.column.prim == UInt8
    requires forall k | 0 <= k < |c.data.column.words| :: c.data.column.words[k] == 0
    ensures SoundNamed(c) && Printable(ViewType(c.data))
  {
    AsciiIsUtf8([]);
  }
}
