/** What the primitive reads of `ReadEx` give at a position of a byte string. */
module Decoders {
  import opened Basics
  import opened Text
  import opened Varint

  /** `read_bytes`: all `n` bytes or a wish for more. */
  function Bytes(s: bytes, p: nat, n: nat): (d: Dec<bytes>)
    requires p <= |s|
    ensures d.Ok? ==> d.pos == p + n <= |s| && |d.value| == n
    ensures !d.Err?
  {
    if p + n <= |s| then Ok(s[p..p + n], p + n) else More
  }

  lemma BytesLocal(s: bytes, t: bytes, p: nat, n: nat)
    requires p <= |s| && p <= |t|
    requires Settled(Bytes(s, p, n), s, t)
    ensures Bytes(t, p, n) == Bytes(s, p, n)
  {
    assert s[p..p + n] == t[p..p + n];
  }

  /** `read_scalar` of a `w`-byte word, as an unsigned number. */
  function Word(s: bytes, p: nat, w: nat): (d: Dec<nat>)
    requires p <= |s|
    ensures d.Ok? ==> d.pos == p + w <= |s|
    ensures !d.Err?
  {
    var (b, q) :- Bytes(s, p, w);
    Ok(FromLittleEndian(b), q)
  }

  lemma WordLocal(s: bytes, t: bytes, p: nat, w: nat)
    requires p <= |s| && p <= |t|
    requires Settled(Word(s, p, w), s, t)
    ensures Word(t, p, w) == Word(s, p, w)
  {
    BytesLocal(s, t, p, w);
  }

  lemma WordRoundTrip(s: bytes, p: nat, x: nat, w: nat)
    requires x < Pow256(w) && Holds(s, p, ToLittleEndian(x, w))
    ensures Word(s, p, w) == Ok(x, p + w)
  {
    LittleEndianRoundTrip(x, w);
  }

  /** `read_str_into_buffer`: a length and that many bytes. */
  function Blob(s: bytes, p: nat): (d: Dec<bytes>)
    requires p <= |s|
    ensures d.Ok? ==> p < d.pos <= |s|
  {
    var (n, q) :- Uvarint(s, p);
    Bytes(s, q, n)
  }

  lemma BlobLocal(s: bytes, t: bytes, p: nat)
    requires p <= |s| && p <= |t|
    requires Settled(Blob(s, p), s, t)
    ensures Blob(t, p) == Blob(s, p)
  {
    UvarintLocal(s, t, p);
    if Uvarint(s, p).Ok? {
      BytesLocal(s, t, Uvarint(s, p).pos, Uvarint(s, p).value);
    }
  }

  /** `Encoder::byte_string`. */
  function EncodeBlob(b: bytes): bytes { Leb128(|b|) + b }

  lemma BlobRoundTrip(s: bytes, p: nat, b: bytes)
    requires |b| < TWO_64 && Holds(s, p, EncodeBlob(b))
    ensures Blob(s, p) == Ok(b, p + |EncodeBlob(b)|)
  {
    HoldsSplit(s, p, Leb128(|b|), b);
    UvarintRoundTrip(s, p, |b|);
  }

  /** `read_string`: the bytes must be UTF-8. */
  function Str(s: bytes, p: nat): (d: Dec<bytes>)
    requires p <= |s|
    ensures d.Ok? ==> p < d.pos <= |s|
  {
    var (b, q) :- Blob(s, p);
    if Utf8(b) then Ok(b, q) else Err(BadUtf8)
  }

  lemma StrLocal(s: bytes, t: bytes, p: nat)
    requires p <= |s| && p <= |t|
    requires Settled(Str(s, p), s, t)
    ensures Str(t, p) == Str(s, p)
  {
    hide Utf8, Blob;
    BlobLocal(s, t, p);
  }

  lemma StrRoundTrip(s: bytes, p: nat, b: bytes)
    requires |b| < TWO_64 && Utf8(b) && Holds(s, p, EncodeBlob(b))
    ensures Str(s, p) == Ok(b, p + |EncodeBlob(b)|)
  {
    BlobRoundTrip(s, p, b);
  }

  /** A string comes back exactly when it is UTF-8; otherwise it is refused, once all of it is there. */
  lemma StrChecked(s: bytes, p: nat, b: bytes)
    requires |b| < TWO_64 && Holds(s, p, EncodeBlob(b))
    ensures Str(s, p) == if Utf8(b) then Ok(b, p + |EncodeBlob(b)|) else Err(BadUtf8)
  {
    hide Utf8;
    BlobRoundTrip(s, p, b);
  }

  // ---------- packed words ----------

  /** A list of `w`-byte words as they lie in memory on a little-endian machine. */
  function Pack(words: seq<nat>, w: nat): (r: bytes)
    ensures |r| == |words| * w
  {
    if |words| == 0 then [] else ToLittleEndian(words[0], w) + Pack(words[1..], w)
  }

  function Unpack(b: bytes, w: nat): (r: seq<nat>)
    requires w > 0
  {
    if |b| < w then [] else [FromLittleEndian(b[..w])] + Unpack(b[w..], w)
  }

  ghost predicate Fit(words: seq<nat>, w: nat) {
    forall i | 0 <= i < |words| :: words[i] < Pow256(w)
  }

  lemma {:induction false} UnpackPack(words: seq<nat>, w: nat)
    requires w > 0 && Fit(words, w)
    ensures Unpack(Pack(words, w), w) == words
  {
    if |words| > 0 {
      var b := Pack(words, w);
      LittleEndianRoundTrip(words[0], w);
      assert b[..w] == ToLittleEndian(words[0], w);
      assert b[w..] == Pack(words[1..], w);
      UnpackPack(words[1..], w);
    }
  }

  lemma {:induction false} UnpackShape(b: bytes, w: nat, n: nat)
    requires w > 0 && |b| == n * w
    ensures |Unpack(b, w)| == n && Fit(Unpack(b, w), w)
    ensures Pack(Unpack(b, w), w) == b
    decreases n
  {
    if n > 0 {
      assert |b| == (n - 1) * w + w;
      assert w <= |b|;
      LittleEndianBound(b[..w]);
      LittleEndianOnto(b[..w]);
      UnpackShape(b[w..], w, n - 1);
      assert b == b[..w] + b[w..];
      var r := Unpack(b, w);
      assert r[1..] == Unpack(b[w..], w);
    } else {
      assert b == [];
    }
  }

  function Words(s: bytes, p: nat, n: nat, w: nat): (d: Dec<seq<nat>>)
    requires p <= |s| && w > 0
    ensures d.Ok? ==> p <= d.pos <= |s|
    ensures !d.Err?
  {
    var (b, q) :- Bytes(s, p, n * w);
    Ok(Unpack(b, w), q)
  }

  lemma WordsLocal(s: bytes, t: bytes, p: nat, n: nat, w: nat)
    requires p <= |s| && p <= |t| && w > 0
    requires Settled(Words(s, p, n, w), s, t)
    ensures Words(t, p, n, w) == Words(s, p, n, w)
  {
    BytesLocal(s, t, p, n * w);
  }

  lemma WordsShape(s: bytes, p: nat, n: nat, w: nat)
    requires p <= |s| && w > 0 && Words(s, p, n, w).Ok?
    ensures |Words(s, p, n, w).value| == n && Fit(Words(s, p, n, w).value, w)
  {
    UnpackShape(s[p..p + n * w], w, n);
  }

  lemma WordsRoundTrip(s: bytes, p: nat, words: seq<nat>, w: nat)
    requires w > 0 && Fit(words, w) && Holds(s, p, Pack(words, w))
    ensures Words(s, p, |words|, w) == Ok(words, p + |Pack(words, w)|)
  {
    hide Pack, Unpack;
    UnpackPack(words, w);
  }

  // ---------- strings in a row ----------

  /** The loop of `StringColumnData::load`. */
  function Blobs(s: bytes, p: nat, n: nat): (d: Dec<seq<bytes>>)
    requires p <= |s|
    ensures d.Ok? ==> p <= d.pos <= |s| && |d.value| == n
    decreases n
  {
    if n == 0 then Ok([], p)
    else
      var (b, q) :- Blob(s, p);
      var (rest, end) :- Blobs(s, q, n - 1);
      Ok([b] + rest, end)
  }

  function EncodeBlobs(cells: seq<bytes>): bytes {
    if |cells| == 0 then [] else EncodeBlob(cells[0]) + EncodeBlobs(cells[1..])
  }

  lemma BlobsStep(s: bytes, p: nat, n: nat)
    requires p <= |s|
    ensures Blobs(s, p, n) ==
      if n == 0 then Ok([], p)
      else match Blob(s, p)
        case More => More
        case Err(e) => Err(e)
        case Ok(b, q) =>
          match Blobs(s, q, n - 1)
          case More => More
          case Err(e) => Err(e)
          case Ok(rest, end) => Ok([b] + rest, end)
  {
    hide Blob;
  }

  lemma {:induction false} BlobsLocal(s: bytes, t: bytes, p: nat, n: nat)
    requires p <= |s| && p <= |t|
    requires Settled(Blobs(s, p, n), s, t)
    ensures Blobs(t, p, n) == Blobs(s, p, n)
    decreases n
  {
    hide Blob, Agree, Blobs;
    Shared(Blobs(s, p, n), s, t);
    BlobsStep(s, p, n);
    BlobsStep(t, p, n);
    if n > 0 {
      BlobLocal(s, t, p);
      if Blob(s, p).Ok? {
        BlobsLocal(s, t, Blob(s, p).pos, n - 1);
      }
    }
  }

  lemma {:induction false} BlobsRoundTrip(s: bytes, p: nat, cells: seq<bytes>)
    requires forall i | 0 <= i < |cells| :: |cells[i]| < TWO_64
    requires Holds(s, p, EncodeBlobs(cells))
    ensures Blobs(s, p, |cells|) == Ok(cells, p + |EncodeBlobs(cells)|)
    decreases |cells|
  {
    hide Blob, EncodeBlob, Blobs, Holds;
    HoldsInside(s, p, EncodeBlobs(cells));
    BlobsStep(s, p, |cells|);
    if |cells| > 0 {
      HoldsSplit(s, p, EncodeBlob(cells[0]), EncodeBlobs(cells[1..]));
      BlobRoundTrip(s, p, cells[0]);
      BlobsRoundTrip(s, p + |EncodeBlob(cells[0])|, cells[1..]);
      assert [cells[0]] + cells[1..] == cells;
    }
  }

  // ---------- errors ----------

  lemma BlobErrors(s: bytes, p: nat)
    requires p <= |s|
    ensures Blob(s, p).Err? ==> Blob(s, p).error == Overflow || Blob(s, p).error == Panic(ShiftTooWide)
  {
    hide UvarintFrom;
    UvarintErrors(s, p, 0, 0);
  }

  lemma {:induction false} BlobsErrors(s: bytes, p: nat, n: nat)
    requires p <= |s|
    ensures var d := Blobs(s, p, n); d.Err? ==> d.error == Overflow || d.error == Panic(ShiftTooWide)
    decreases n
  {
    hide Blob;
    BlobErrors(s, p);
    if n > 0 && Blob(s, p).Ok? {
      BlobsErrors(s, Blob(s, p).pos, n - 1);
    }
  }
}
