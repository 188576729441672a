/** Bytes, outcomes and the two relations on byte strings every codec statement below is written with. */
module Basics {

  type byte = x: int | 0 <= x < 256
  type bytes = seq<byte>

  const TWO_64: int := 0x1_0000_0000_0000_0000
  type u64 = x: int | 0 <= x < TWO_64

  datatype Option<+T> = None | Some(value: T)

  /** Where the Rust code panics, with overflow checks on. */
  datatype Cause =
    | ShiftTooWide
    | BadSlice
    | DivideByZero
    | UnequalColumns
    | NoBlocks
    | UnequalCounts
    | MixedTypes
    | BadIndex
    | MultiplyOverflow
    | NoneUnwrapped
    | WrongValue
    | SubtractOverflow
    | ErrorUnwrapped
    | UnequalFlags

  datatype Error =
    | WouldBlock
    | Overflow
    | UnknownPacket(code: u64)
    | UnexpectedPacket
    | UnknownSetting(name: bytes)
    | NoUser
    | BadUtf8
    | UnsupportedType(name: bytes)
    | InvalidType
    | OutOfRange
    | Transport
    | Panic(cause: Cause)

  datatype Result<+T> = Success(value: T) | Failure(error: Error) {
    predicate IsFailure() { Failure? }
    function PropagateFailure<U>(): Result<U> requires Failure? { Failure(error) }
    function Extract(): T requires Success? { value }
  }

  /** What decoding at a position gives: a value and the position after it, a wish for
      more bytes (`WouldBlock`), or an error. */
  datatype Dec<+T> = Ok(value: T, pos: nat) | More | Err(error: Error) {
    predicate IsFailure() { !Ok? }
    function PropagateFailure<U>(): Dec<U> requires !Ok? { if More? then More else Err(error) }
    function Extract(): (T, nat) requires Ok? { (value, pos) }
  }

  /** The first `n` bytes of `s` and `t` are there and are the same. */
  ghost predicate Agree(s: bytes, t: bytes, n: nat) {
    n <= |s| && n <= |t| && forall i | 0 <= i < n :: s[i] == t[i]
  }

  /** `d`, obtained from `s`, is final, and `t` carries all the bytes it rests on: the consumed
      ones for a value, all of `s` for an error. */
  ghost predicate Settled<T>(d: Dec<T>, s: bytes, t: bytes) {
    match d
    case Ok(_, q) => Agree(s, t, q)
    case More => false
    case Err(_) => Agree(s, t, |s|)
  }

  /** The shared bytes of a settled result reach any earlier position. */
  lemma Shared<T>(d: Dec<T>, s: bytes, t: bytes)
    requires Settled(d, s, t)
    ensures d.Ok? ==> d.pos <= |t| && forall m: nat | m <= d.pos :: Agree(s, t, m)
    ensures d.Err? ==> |s| <= |t| && forall m: nat | m <= |s| :: Agree(s, t, m)
  {
  }

  /** `w` stands in `s` at position `p`. */
  ghost predicate Holds(s: bytes, p: nat, w: bytes) {
    p + |w| <= |s| && s[p..p + |w|] == w
  }

  lemma HoldsSplit(s: bytes, p: nat, a: bytes, b: bytes)
    ensures Holds(s, p, a + b) <==> Holds(s, p, a) && Holds(s, p + |a|, b)
  {
    if Holds(s, p, a + b) {
      assert s[p..p + |a|] == s[p..p + |a + b|][..|a|];
      assert s[p + |a|..p + |a| + |b|] == s[p..p + |a + b|][|a|..];
    }
    if Holds(s, p, a) && Holds(s, p + |a|, b) {
      assert s[p..p + |a + b|] == s[p..p + |a|] + s[p + |a|..p + |a| + |b|];
    }
  }

  lemma HoldsInside(s: bytes, p: nat, w: bytes)
    requires Holds(s, p, w)
    ensures p + |w| <= |s|
  {
  }

  lemma HoldsFirst(s: bytes, p: nat, w: bytes)
    requires Holds(s, p, w) && |w| > 0
    ensures p < |s| && s[p] == w[0]
  {
    assert s[p..p + |w|][0] == w[0];
  }

  function Min(a: int, b: int): int { if a <= b then a else b }

  function Max(a: int, b: int): int { if a >= b then a else b }

  lemma ProductGrows(e: int, w: nat)
    ensures e > 0 ==> e * w >= w
  {
  }

  lemma NoMultiple(e: int, r: int, w: int)
    requires 0 <= r < w && e * w + r == 0
    ensures e == 0 && r == 0
  {
    ProductGrows(e, w);
    ProductGrows(-e, w);
  }

  lemma Exact(k: nat, w: nat, n: nat)
    requires w > 0 && n == k * w
    ensures n / w == k && n % w == 0
  {
    var q, r := n / w, n % w;
    assert n == q * w + r;
    assert (q - k) * w == q * w - k * w;
    NoMultiple(q - k, r, w);
  }

  lemma Scaled(a: nat, b: nat, w: nat)
    requires a <= b
    ensures a * w <= b * w
    ensures b * w - a * w == (b - a) * w
  {
    assert b * w == a * w + (b - a) * w;
  }

  /** `s` cut or zero-padded to `n` bytes: `Vec::resize(n, 0)`. */
  function Resized(s: bytes, n: nat): (r: bytes)
    ensures |r| == n
  {
    if n <= |s| then s[..n] else s + seq(n - |s|, _ => 0)
  }

  /** The base-256 value of `w` bytes and back, least significant byte first. */
  function ToLittleEndian(x: nat, w: nat): (r: bytes)
    ensures |r| == w
  {
    if w == 0 then [] else [x % 256] + ToLittleEndian(x / 256, w - 1)
  }

  function FromLittleEndian(s: bytes): nat {
    if |s| == 0 then 0 else s[0] + 256 * FromLittleEndian(s[1..])
  }

  function Pow256(w: nat): (r: nat)
    ensures r > 0
  {
    if w == 0 then 1 else 256 * Pow256(w - 1)
  }

  lemma {:induction false} LittleEndianRoundTrip(x: nat, w: nat)
    requires x < Pow256(w)
    ensures FromLittleEndian(ToLittleEndian(x, w)) == x
  {
    if w > 0 {
      LittleEndianRoundTrip(x / 256, w - 1);
      assert ToLittleEndian(x, w)[1..] == ToLittleEndian(x / 256, w - 1);
    }
  }

  lemma {:induction false} LittleEndianBound(s: bytes)
    ensures FromLittleEndian(s) < Pow256(|s|)
  {
    if |s| > 0 {
      LittleEndianBound(s[1..]);
    }
  }

  lemma {:induction false} LittleEndianOnto(s: bytes)
    ensures ToLittleEndian(FromLittleEndian(s), |s|) == s
  {
    if |s| > 0 {
      hide ToLittleEndian;
      var rest := FromLittleEndian(s[1..]);
      LittleEndianOnto(s[1..]);
      assert FromLittleEndian(s) == s[0] + 256 * rest;
      ToHead(s[0], rest, |s| - 1);
      assert s == [s[0]] + s[1..];
    }
  }

  lemma ToHead(b: byte, n: nat, w: nat)
    ensures ToLittleEndian(b + 256 * n, w + 1) == [b] + ToLittleEndian(n, w)
  {
    LowByte(b, n);
    assert ToLittleEndian(b + 256 * n, w + 1)
        == [(b + 256 * n) % 256] + ToLittleEndian((b + 256 * n) / 256, w);
  }

  lemma LowByte(b: byte, n: nat)
    ensures (b + 256 * n) % 256 == b && (b + 256 * n) / 256 == n
  {
  }

  /** `write_all` into a slice. */
  method CopyInto(buffer: array<byte>, from: nat, s: bytes)
    requires from + |s| <= buffer.Length
    modifies buffer
    ensures buffer[from..from + |s|] == s
    ensures forall j | 0 <= j < buffer.Length && !(from <= j < from + |s|) :: buffer[j] == old(buffer[j])
  {
    for i := 0 to |s|
      invariant buffer[from..from + i] == s[..i]
      invariant forall j | 0 <= j < buffer.Length && !(from <= j < from + i) :: buffer[j] == old(buffer[j])
    {
      buffer[from + i] := s[i];
    }
  }
}
