/** `Encoder`, and saving columns and blocks through it. */
module Encoding {
  import opened Basics
  import opened Varint
  import opened Decoders
  import opened TypeNames
  import opened TypeNameRoundTrip
  import opened Columns
  import opened Views
  import opened Blocks
  import opened BlockRoundTrip

  const MAX_VARINT_LEN64: nat := 10

  /** `marshal`: the bytes of a word, lowest first. The source has one assignment per byte. */
  method Marshal(scratch: array<byte>, x: nat)
    modifies scratch
    ensures scratch[..] == ToLittleEndian(x, scratch.Length)
  {
    var rest := x;
    for i := 0 to scratch.Length
      invariant scratch[..i] + ToLittleEndian(rest, scratch.Length - i) == ToLittleEndian(x, scratch.Length)
    {
      scratch[i] := rest % 256;
      assert scratch[..i + 1] == scratch[..i] + [rest % 256];
      rest := rest / 256;
    }
    assert scratch[..] == scratch[..scratch.Length];
  }

  class Encoder {
    var buffer: bytes

    constructor ()
      ensures buffer == []
    {
      buffer := [];
    }

    method WriteBytes(b: bytes)
      modifies this
      ensures buffer == old(buffer) + b
    {
      buffer := buffer + b;
    }

    method Uvarint(v: u64)
      modifies this
      ensures buffer == old(buffer) + Leb128(v)
    {
      Leb128Shortest(v, []);
      var scratch := new byte[MAX_VARINT_LEN64](_ => 0);
      var n := PutUvarint(scratch, v);
      assert scratch[..n] == scratch[..][..n] == Leb128(v);
      WriteBytes(scratch[..n]);
    }

    method ByteString(b: bytes)
      requires |b| < TWO_64
      modifies this
      ensures buffer == old(buffer) + EncodeBlob(b)
    {
      Uvarint(|b|);
      WriteBytes(b);
      assert old(buffer) + Leb128(|b|) + b == old(buffer) + EncodeBlob(b);
    }

    method WriteWord(x: nat, w: nat)
      modifies this
      ensures buffer == old(buffer) + ToLittleEndian(x, w)
    {
      var scratch := new byte[w](_ => 0);
      Marshal(scratch, x);
      WriteBytes(scratch[..]);
    }
  }

  lemma {:induction false} EncodeBlobsAppend(cells: seq<bytes>, cell: bytes)
    ensures EncodeBlobs(cells + [cell]) == EncodeBlobs(cells) + EncodeBlob(cell)
  {
    hide EncodeBlob;
    if |cells| == 0 {
      assert cells + [cell] == [cell] && [cell][1..] == [];
      assert EncodeBlobs([cell]) == EncodeBlob(cell) + EncodeBlobs([]);
    } else {
      assert (cells + [cell])[1..] == cells[1..] + [cell];
      EncodeBlobsAppend(cells[1..], cell);
    }
  }

  lemma {:induction false} PackAppend(words: seq<nat>, x: nat, w: nat)
    ensures Pack(words + [x], w) == Pack(words, w) + ToLittleEndian(x, w)
  {
    hide ToLittleEndian;
    if |words| == 0 {
      assert words + [x] == [x] && [x][1..] == [];
      assert Pack([x], w) == ToLittleEndian(x, w) + Pack([], w);
    } else {
      assert (words + [x])[1..] == words[1..] + [x];
      PackAppend(words[1..], x, w);
    }
  }

  /** `StringColumnData::save`. */
  method SaveStrings(encoder: Encoder, cells: seq<bytes>, start: nat, end: nat)
    requires start <= end <= |cells| && forall i | 0 <= i < |cells| :: |cells[i]| < TWO_64
    modifies encoder
    ensures encoder.buffer == old(encoder.buffer) + EncodeBlobs(cells[start..end])
  {
    hide EncodeBlob;
    for i := start to end
      invariant encoder.buffer == old(encoder.buffer) + EncodeBlobs(cells[start..i])
    {
      assert cells[start..i + 1] == cells[start..i] + [cells[i]];
      EncodeBlobsAppend(cells[start..i], cells[i]);
      encoder.ByteString(cells[i]);
    }
  }

  /** The offsets of an array column; gives the last one written. */
  method SaveOffsets(encoder: Encoder, offsets: seq<nat>, start: nat, end: nat) returns (offset: nat)
    requires start <= end <= |offsets|
    modifies encoder
    ensures encoder.buffer == old(encoder.buffer) + Pack(offsets[start..end], 8)
    ensures offset == if start == end then 0 else offsets[end - 1]
  {
    hide ToLittleEndian;
    offset := 0;
    for i := start to end
      invariant encoder.buffer == old(encoder.buffer) + Pack(offsets[start..i], 8)
      invariant offset == if start == i then 0 else offsets[i - 1]
    {
      assert offsets[start..i + 1] == offsets[start..i] + [offsets[i]];
      PackAppend(offsets[start..i], offsets[i], 8);
      offset := offsets[i];
      encoder.WriteWord(offset, 8);
    }
  }

  /** `save` of a stored column. */
  method SaveColumn(encoder: Encoder, c: Column, start: nat, end: nat)
    requires Sound(c) && start <= end <= Length(c)
    modifies encoder
    ensures encoder.buffer == old(encoder.buffer) + Save(c, start, end)
    decreases c
  {
    hide Pack, EncodeBlobs, Fit, WellTyped, FromPrecision;
    match c
    case Numbers(prim, words) => encoder.WriteBytes(Pack(words[start..end], Width(prim)));
    case Strings(cells) => SaveStrings(encoder, cells, start, end);
    case FixedStrings(width, buffer) =>
      FixedSlice(width, |buffer|, start, end);
      encoder.WriteBytes(buffer[start * width..end * width]);
    case Decimals(shape, words) => encoder.WriteBytes(Pack(words[start..end], DecimalWidth(shape.nobits)));
    case Enums(size, _, words) => encoder.WriteBytes(Pack(words[start..end], EnumWidth(size)));
    case Nullables(nulls, inner) =>
      encoder.WriteBytes(nulls[start..end]);
      SaveColumn(encoder, inner, start, end);
      Regroup(old(encoder.buffer), nulls[start..end], Save(inner, start, end));
    case Arrays(offsets, inner) =>
      assert end > 0 ==> offsets[end - 1] <= EndOf(offsets, |offsets|);
      var offset := SaveOffsets(encoder, offsets, start, end);
      SaveColumn(encoder, inner, 0, offset);
      Regroup(old(encoder.buffer), Pack(offsets[start..end], 8), Save(inner, 0, offset));
  }

  lemma Regroup(a: bytes, b: bytes, c: bytes)
    ensures a + b + c == a + (b + c)
  {
  }

  /** `save` of column data: a slice shifts the range and cuts it at its own end. */
  method SaveView(encoder: Encoder, v: View, start: nat, end: nat)
    requires SoundView(v) && Saveable(v) && start <= end <= ViewLength(v)
    modifies encoder
    ensures encoder.buffer == old(encoder.buffer) + ViewSave(v, start, end)
    decreases v
  {
    hide Save, Sound, Length;
    match v
    case Plain(column) => SaveColumn(encoder, column, start, end);
    case Chunk(data, from, to) => SaveView(encoder, data, from + start, Min(to, from + end));
  }

  /** `Column::write`. */
  method SaveNamed(encoder: Encoder, c: NamedColumn)
    requires SoundNamed(c)
    modifies encoder
    ensures encoder.buffer == old(encoder.buffer) + WriteColumn(c)
  {
    hide ViewSave, EncodeBlob, Print, SoundView, Saveable, ViewLength, Utf8Items, ViewType;
    var name, typeName := EncodeBlob(c.name), EncodeBlob(Print(ViewType(c.data)));
    encoder.ByteString(c.name);
    encoder.ByteString(Print(ViewType(c.data)));
    SaveView(encoder, c.data, 0, ViewLength(c.data));
    Regroup(old(encoder.buffer) + name, typeName, ViewSave(c.data, 0, ViewLength(c.data)));
    Regroup(old(encoder.buffer), name, typeName + ViewSave(c.data, 0, ViewLength(c.data)));
  }

  lemma {:induction false} WriteColumnsAppend(columns: seq<NamedColumn>, k: nat)
    requires k < |columns| && AllSound(columns)
    ensures AllSound(columns[..k]) && AllSound(columns[..k + 1])
    ensures WriteColumns(columns[..k + 1]) == WriteColumns(columns[..k]) + WriteColumn(columns[k])
  {
    hide WriteColumn, SoundNamed;
    if k > 0 {
      WriteColumnsAppend(columns[1..], k - 1);
      assert columns[..k][1..] == columns[1..][..k - 1];
      assert columns[..k + 1][1..] == columns[1..][..k];
    } else {
      assert columns[..1][1..] == [];
    }
  }

  /** `BlockInfo::write`. */
  method SaveInfo(encoder: Encoder, info: BlockInfo)
    modifies encoder
    ensures encoder.buffer == old(encoder.buffer) + WriteInfo(info)
  {
    hide Leb128, ToLittleEndian;
    encoder.Uvarint(1);
    encoder.WriteWord(if info.overflows then 1 else 0, 1);
    encoder.Uvarint(2);
    encoder.WriteWord(info.bucket, 4);
    encoder.Uvarint(0);
    var before := old(encoder.buffer);
    var flag, bucket := ToLittleEndian(if info.overflows then 1 else 0, 1), ToLittleEndian(info.bucket, 4);
    assert before + Leb128(1) + flag + Leb128(2) + bucket + Leb128(0)
        == before + (Leb128(1) + flag + Leb128(2) + bucket + Leb128(0));
  }

  /** `Block::write` without compression. */
  method WriteBlock(encoder: Encoder, b: Block)
    requires SoundBlock(b)
    modifies encoder
    ensures encoder.buffer == old(encoder.buffer) + Write(b)
  {
    hide Leb128, WriteColumn, WriteInfo, SoundNamed, ViewLength, WriteColumns;
    SaveInfo(encoder, b.info);
    encoder.Uvarint(|b.columns|);
    encoder.Uvarint(RowCount(b.columns));
    ghost var head := encoder.buffer;
    NoColumns();
    for i := 0 to |b.columns|
      invariant AllSound(b.columns[..i]) && encoder.buffer == head + WriteColumns(b.columns[..i])
    {
      WriteColumnsAppend(b.columns, i);
      SaveNamed(encoder, b.columns[i]);
      Regroup(head, WriteColumns(b.columns[..i]), WriteColumn(b.columns[i]));
    }
    assert b.columns[..|b.columns|] == b.columns;
    var info, n, rows := WriteInfo(b.info), Leb128(|b.columns|), Leb128(RowCount(b.columns));
    var body := WriteColumns(b.columns);
    Regroup(old(encoder.buffer) + info + n, rows, body);
    Regroup(old(encoder.buffer) + info, n, rows + body);
    Regroup(old(encoder.buffer), info, n + (rows + body));
  }

  lemma NoColumns()
    ensures WriteColumns([]) == []
  {
  }
}
