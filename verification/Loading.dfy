/** `load_data` and `raw_load` as they run over a reader. */
module Loading {
  import opened Basics
  import opened Varint
  import opened Decoders
  import opened TypeNames
  import opened Columns
  import opened Blocks
  import opened Compressed
  import opened Pool
  import opened Readers

  /** What is decoded after `done` items are there. */
  ghost function Prepended<T>(done: seq<T>, d: Dec<seq<T>>): Dec<seq<T>> {
    match d case Ok(more, q) => Ok(done + more, q) case More => More case Err(e) => Err(e)
  }

  lemma BlobsNext(s: bytes, p: nat, k: nat, done: seq<bytes>)
    requires p <= |s| && k > 0
    ensures Prepended(done, Blobs(s, p, k)) ==
      match Blob(s, p)
      case Ok(b, q) => Prepended(done + [b], Blobs(s, q, k - 1))
      case More => More
      case Err(e) => Err(e)
  {
    hide Blob, Blobs;
    BlobsStep(s, p, k);
    if Blob(s, p).Ok? && Blobs(s, Blob(s, p).pos, k - 1).Ok? {
      var b, more := Blob(s, p).value, Blobs(s, Blob(s, p).pos, k - 1).value;
      assert done + ([b] + more) == done + [b] + more;
    }
  }

  /** `StringColumnData::load`. */
  method LoadStrings(reader: Reader, size: nat) returns (r: Result<StringPool>)
    requires reader.Valid()
    modifies reader, reader.cursor
    ensures match Blobs(reader.Stream(), old(reader.Here()), size)
            case Ok(cells, q) => r.Success? && r.value.strings == cells && reader.Here() == q
            case More => r == Failure(reader.Stop())
            case Err(e) => r == Failure(e)
    ensures r.Success? ==> reader.Valid() && fresh(r.value) && r.value.Valid()
  {
    hide Inflate, FrameEnd, Ahead, Rest, Blob, Blobs, Distinct, InChunks, Apart, Below, Spelled, Stored, ChunkSpace;
    var pool := new StringPool(size);
    ghost var goal := Blobs(reader.Stream(), reader.Here(), size);
    assert goal.Ok? ==> [] + goal.value == goal.value;
    for i := 0 to size
      invariant reader.Valid() && fresh(pool) && fresh(pool.chunks) && pool.Valid()
      invariant Prepended(pool.strings, Blobs(reader.Stream(), reader.Here(), size - i)) == goal
    {
      BlobsNext(reader.Stream(), reader.Here(), size - i, pool.strings);
      var _ :- reader.ReadStrIntoBuffer(pool);
    }
    BlobsStep(reader.Stream(), reader.Here(), 0);
    return Success(pool);
  }

  /** `List::resize` and `read_bytes` over the list's memory. */
  method LoadWords(reader: Reader, size: nat, w: nat) returns (r: Result<seq<nat>>)
    requires reader.Valid() && w > 0
    modifies reader, reader.cursor
    ensures Matches(Words(reader.Stream(), old(reader.Here()), size, w), r, reader.Here(), reader.Stop())
    ensures r.Success? ==> reader.Valid() && |r.value| == size
  {
    hide Inflate, FrameEnd, Ahead, Rest, Unpack, Fit, Pack;
    var memory :- reader.Take(size * w);
    UnpackShape(memory, w, size);
    return Success(Unpack(memory, w));
  }

  /** `FixedStringColumnData::load`, string by string. */
  method LoadFixed(reader: Reader, size: nat, width: nat) returns (r: Result<bytes>)
    requires reader.Valid()
    modifies reader, reader.cursor
    ensures Matches(Bytes(reader.Stream(), old(reader.Here()), size * width), r, reader.Here(), reader.Stop())
    ensures r.Success? ==> reader.Valid()
  {
    hide Inflate, FrameEnd, Ahead, Rest;
    var buffer: bytes := [];
    ghost var here, stream := reader.Here(), reader.Stream();
    for i := 0 to size
      invariant reader.Valid() && reader.Here() == here + i * width
      invariant buffer == stream[here..reader.Here()]
    {
      Scaled(i + 1, size, width);
      assert (i + 1) * width == i * width + width;
      var row :- reader.Take(width);
      buffer := buffer + row;
    }
    return Success(buffer);
  }

  method LoadLeafColumn(reader: Reader, name: bytes, shape: Shape, size: nat) returns (r: Result<Column>)
    requires reader.Valid() && IsLeaf(shape)
    modifies reader, reader.cursor
    ensures Matches(LoadLeaf(reader.Stream(), old(reader.Here()), name, shape, size), r, reader.Here(), reader.Stop())
    ensures r.Success? ==> reader.Valid()
  {
    hide Inflate, FrameEnd, Ahead, Rest, Words, Blobs, Bytes, Distinct, InChunks, Apart, Below, Spelled;
    hide Stored, ChunkSpace;
    match shape
    case ScalarShape(prim) =>
      var words :- LoadWords(reader, size, Width(prim));
      return Success(Numbers(prim, words));
    case StringShape =>
      var pool :- LoadStrings(reader, size);
      var cells := pool.Strings();
      return Success(Strings(cells));
    case FixedShape(width) =>
      var buffer :- LoadFixed(reader, size, width);
      return Success(FixedStrings(width, buffer));
    case DecShape(decimal) =>
      var words :- LoadWords(reader, size, DecimalWidth(decimal.nobits));
      return Success(Decimals(decimal, words));
    case EnumShape(esize, items) =>
      var words :- LoadWords(reader, size, EnumWidth(esize));
      return Success(Enums(esize, items, words));
    case UnknownShape =>
      return Failure(UnsupportedType(name));
    case PanicShape =>
      return Failure(Panic(BadSlice));
  }

  /** `load_data`. */
  method LoadData(reader: Reader, name: bytes, size: nat) returns (r: Result<Column>)
    requires reader.Valid()
    modifies reader, reader.cursor
    ensures Matches(Load(reader.Stream(), old(reader.Here()), name, size), r, reader.Here(), reader.Stop())
    ensures r.Success? ==> reader.Valid()
    decreases |name|
  {
    hide Inflate, FrameEnd, Ahead, Rest, Words, Bytes, LoadLeaf, ShapeOf;
    match ShapeOf(name)
    case NullableShape(inner) =>
      var nulls :- reader.Take(size);
      var column :- LoadData(reader, inner, size);
      return Success(Nullables(nulls, column));
    case ArrayShape(inner) =>
      var offsets :- LoadWords(reader, size, 8);
      var column :- LoadData(reader, inner, if size == 0 then 0 else offsets[size - 1]);
      return Success(Arrays(offsets, column));
    case shape =>
      r := LoadLeafColumn(reader, name, shape, size);
  }

  /** `BlockInfo::read`. */
  method ReadBlockInfo(reader: Reader) returns (r: Result<BlockInfo>)
    requires reader.Valid()
    modifies reader, reader.cursor
    ensures Matches(ReadInfo(reader.Stream(), old(reader.Here())), r, reader.Here(), reader.Stop())
    ensures r.Success? ==> reader.Valid()
  {
    hide Inflate, FrameEnd, Ahead, Rest, Uvarint, Word;
    var num1 :- reader.ReadUvarint();
    var flag :- reader.ReadWord(1);
    var num2 :- reader.ReadUvarint();
    var bucket :- reader.ReadWord(4);
    var num3 :- reader.ReadUvarint();
    return Success(BlockInfo(num1, flag != 0, num2, bucket, num3));
  }

  /** `Column::read`. */
  method ReadOneColumn(reader: Reader, rows: nat) returns (r: Result<RawColumn>)
    requires reader.Valid()
    modifies reader, reader.cursor
    ensures Matches(ReadColumn(reader.Stream(), old(reader.Here()), rows), r, reader.Here(), reader.Stop())
    ensures r.Success? ==> reader.Valid()
  {
    hide Inflate, FrameEnd, Ahead, Rest, Str, Load;
    var name :- reader.ReadString();
    var typeName :- reader.ReadString();
    var column :- LoadData(reader, typeName, rows);
    return Success(RawColumn(name, column));
  }

  /** `raw_load`. */
  method LoadRaw(reader: Reader) returns (r: Result<Block>)
    requires reader.Valid()
    modifies reader, reader.cursor
    ensures Matches(RawLoad(reader.Stream(), old(reader.Here())), r, reader.Here(), reader.Stop())
    ensures r.Success? ==> reader.Valid()
  {
    hide Inflate, FrameEnd, Ahead, Rest, ReadInfo, Uvarint, ReadColumns, ReadColumn, Append;
    var info :- ReadBlockInfo(reader);
    var numColumns :- reader.ReadUvarint();
    var numRows :- reader.ReadUvarint();
    var columns: seq<NamedColumn> := [];
    ghost var goal := ReadColumns(reader.Stream(), reader.Here(), numColumns, numRows, []);
    for i := 0 to numColumns
      invariant reader.Valid()
      invariant ReadColumns(reader.Stream(), reader.Here(), numColumns - i, numRows, columns) == goal
    {
      ReadColumnsStep(reader.Stream(), reader.Here(), numColumns - i, numRows, columns);
      var read :- ReadOneColumn(reader, numRows);
      columns :- Append(columns, read);
    }
    ReadColumnsStep(reader.Stream(), reader.Here(), 0, numRows, columns);
    return Success(Block(info, columns));
  }

  /** `Block::load`: compressed blocks are read through a `CompressedReader` over the same cursor. */
  method LoadBlock(cursor: Cursor, codec: Codec, compress: bool) returns (r: Result<Block>)
    requires cursor.Valid()
    modifies cursor
    ensures var p := old(cursor.pos);
            var d := if compress then CompressedLoad(codec, cursor.source, p) else RawLoad(cursor.source, p);
            Matches(d, r, cursor.pos, WouldBlock)
    ensures r.Success? ==> cursor.Valid()
  {
    hide Inflate, FrameEnd, Ahead, Rest, RawLoad;
    var reader := new Reader(cursor, if compress then Some(codec) else None);
    r := LoadRaw(reader);
  }
}
