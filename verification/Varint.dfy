/** Unsigned LEB128 limited to 64 bits: `put_uvarint`, and what `read_uvarint` makes of any bytes. */
module Varint {
  import opened Basics

  /** `x << (7 * i)`, without a width limit. */
  function Shifted(x: nat, i: nat): nat {
    if i == 0 then x else 0x80 * Shifted(x, i - 1)
  }

  /** The groups of seven bits, lowest first, all but the last with the top bit set. */
  function Leb128(x: nat): (r: bytes)
    ensures |r| >= 1
  {
    if x < 0x80 then [x] else [x % 0x80 + 0x80] + Leb128(x / 0x80)
  }

  /** The loop of `read_uvarint` with `i` bytes already folded into `x`. The bits of `x` lie below
      `7 * i`, so the `|` of the source is `+` here. From the eleventh byte on the
      shift is wider than the word. */
  function UvarintFrom(s: bytes, p: nat, x: nat, i: nat): (d: Dec<u64>)
    requires p <= |s|
    requires i <= 9 ==> x < Shifted(1, i)
    ensures d.Ok? ==> p < d.pos <= |s|
    decreases |s| - p
  {
    if p == |s| then More
    else if s[p] < 0x80 then
      if i == 9 && s[p] > 1 then Err(Overflow)
      else if i > 9 then Err(Panic(ShiftTooWide))
      else (FoldFits(x, i, s[p]); Ok(x + Shifted(s[p], i), p + 1))
    else if i > 9 then Err(Panic(ShiftTooWide))
    else (FoldFits(x, i, s[p] - 0x80);
          UvarintFrom(s, p + 1, (x + Shifted(s[p] - 0x80, i)) % TWO_64, i + 1))
  }

  function Uvarint(s: bytes, p: nat): (d: Dec<u64>)
    requires p <= |s|
    ensures d.Ok? ==> p < d.pos <= |s|
  {
    UvarintFrom(s, p, 0, 0)
  }

  lemma ShiftedValues()
    ensures Shifted(1, 9) == 0x8000_0000_0000_0000
    ensures Shifted(1, 10) == 0x40_0000_0000_0000_0000
  {
    assert Shifted(1, 3) == 0x20_0000;
    assert Shifted(1, 6) == 0x400_0000_0000;
  }

  lemma {:induction false} ShiftedGrows(i: nat, j: nat)
    requires i <= j
    ensures 0 < Shifted(1, i) <= Shifted(1, j)
  {
    if i < j {
      ShiftedGrows(i, j - 1);
    } else if i > 0 {
      ShiftedGrows(i - 1, j - 1);
    }
  }

  lemma {:induction false} ShiftedSum(x: nat, y: nat, i: nat)
    ensures Shifted(x + y, i) == Shifted(x, i) + Shifted(y, i)
  {
    if i > 0 {
      ShiftedSum(x, y, i - 1);
    }
  }

  lemma {:induction false} ShiftedGroup(x: nat, i: nat)
    ensures Shifted(0x80 * x, i) == Shifted(x, i + 1)
  {
    if i > 0 {
      ShiftedGroup(x, i - 1);
    }
  }

  /** A further group of seven bits lands above the bits already there. */
  lemma Fold(x: nat, i: nat, b: nat)
    requires x < Shifted(1, i) && b < 0x80
    ensures x + Shifted(b, i) < Shifted(1, i + 1)
  {
    ShiftedGroup(1, i);
    ShiftedSum(b, 1, i);
    ShiftedSum(b + 1, 0x7F - b, i);
  }

  lemma FoldFits(x: nat, i: nat, b: nat)
    requires i <= 9 && x < Shifted(1, i) && b < 0x80
    ensures x + Shifted(b, i) < Shifted(1, i + 1)
    ensures i < 9 || b <= 1 ==> x + Shifted(b, i) < TWO_64
    ensures (x + Shifted(b, i)) % TWO_64 < Shifted(1, i + 1)
  {
    Fold(x, i, b);
    ShiftedValues();
    if i < 9 {
      ShiftedGrows(i + 1, 9);
    } else if b <= 1 {
      ShiftedSum(b, 1 - b, 9);
    }
  }

  /** Whatever follows the bytes a result rests on does not change it. */
  lemma {:induction false} UvarintFromLocal(s: bytes, t: bytes, p: nat, x: nat, i: nat)
    requires p <= |s| && p <= |t|
    requires i <= 9 ==> x < Shifted(1, i)
    requires Settled(UvarintFrom(s, p, x, i), s, t)
    ensures UvarintFrom(t, p, x, i) == UvarintFrom(s, p, x, i)
    decreases |s| - p
  {
    assert s[p] == t[p];
    if s[p] >= 0x80 && i <= 9 {
      FoldFits(x, i, s[p] - 0x80);
      UvarintFromLocal(s, t, p + 1, (x + Shifted(s[p] - 0x80, i)) % TWO_64, i + 1);
    }
  }

  lemma UvarintLocal(s: bytes, t: bytes, p: nat)
    requires p <= |s| && p <= |t|
    requires Settled(Uvarint(s, p), s, t)
    ensures Uvarint(t, p) == Uvarint(s, p)
  {
    UvarintFromLocal(s, t, p, 0, 0);
  }

  /** One continuation byte of the loop, when nothing is lost at the top. */
  lemma UvarintContinue(s: bytes, p: nat, x: nat, i: nat, b: nat)
    requires p < |s| && s[p] == b + 0x80 && b < 0x80 && i < 9 && x < Shifted(1, i)
    ensures x + Shifted(b, i) < Shifted(1, i + 1)
    ensures UvarintFrom(s, p, x, i) == UvarintFrom(s, p + 1, x + Shifted(b, i), i + 1)
  {
    FoldFits(x, i, b);
  }

  lemma TopByte(y: nat)
    requires Shifted(y, 9) < TWO_64
    ensures y <= 1
  {
    ShiftedValues();
    if y > 1 {
      ShiftedSum(1, 1, 9);
      ShiftedSum(2, y - 2, 9);
    }
  }

  lemma {:induction false} UvarintFromRoundTrip(s: bytes, p: nat, y: nat, x: nat, i: nat, v: nat)
    requires Holds(s, p, Leb128(y)) && i <= 9
    requires x < Shifted(1, i) && v == x + Shifted(y, i) < TWO_64
    ensures UvarintFrom(s, p, x, i) == Ok(v, p + |Leb128(y)|)
    decreases y
  {
    hide Holds;
    assert s[p] == Leb128(y)[0] by { HoldsFirst(s, p, Leb128(y)); }
    if i == 9 {
      TopByte(y);
    }
    if y >= 0x80 {
      var b, q := y % 0x80, y / 0x80;
      ShiftedSum(b, 0x80 * q, i);
      ShiftedGroup(q, i);
      UvarintContinue(s, p, x, i, b);
      HoldsSplit(s, p, [b + 0x80], Leb128(q));
      UvarintFromRoundTrip(s, p + 1, q, x + Shifted(b, i), i + 1, v);
    }
  }

  /** Reading what was written gives the value and consumes exactly the written bytes. */
  lemma UvarintRoundTrip(s: bytes, p: nat, y: u64)
    requires Holds(s, p, Leb128(y))
    ensures Uvarint(s, p) == Ok(y, p + |Leb128(y)|)
  {
    UvarintFromRoundTrip(s, p, y, 0, 0, y);
  }

  /** Every proper prefix of the written bytes asks for more. */
  lemma UvarintPrefix(y: u64, k: nat)
    requires k < |Leb128(y)|
    ensures Uvarint(Leb128(y)[..k], 0) == More
  {
    var w := Leb128(y);
    UvarintRoundTrip(w, 0, y);
    if !Uvarint(w[..k], 0).More? {
      UvarintLocal(w[..k], w, 0);
      assert false;
    }
  }

  /** `Leb128(y)` has `n` bytes exactly when `n` is the least positive count with `y < 128^n`. */
  lemma {:induction false} Leb128Length(y: nat)
    ensures y < Shifted(1, |Leb128(y)|)
    ensures |Leb128(y)| > 1 ==> Shifted(1, |Leb128(y)| - 1) <= y
  {
    if y >= 0x80 {
      Leb128Length(y / 0x80);
    }
  }

  lemma {:induction false} UvarintErrors(s: bytes, p: nat, x: nat, i: nat)
    requires p <= |s| && (i <= 9 ==> x < Shifted(1, i))
    ensures var d := UvarintFrom(s, p, x, i);
            d.Err? ==> d.error == Overflow || d.error == Panic(ShiftTooWide)
    decreases |s| - p
  {
    if p < |s| && s[p] >= 0x80 && i <= 9 {
      FoldFits(x, i, s[p] - 0x80);
      UvarintErrors(s, p + 1, (x + Shifted(s[p] - 0x80, i)) % TWO_64, i + 1);
    }
  }

  lemma {:induction false} UvarintFromBound(s: bytes, p: nat, x: nat, i: nat)
    requires p <= |s|
    requires i <= 9 ==> x < Shifted(1, i)
    requires UvarintFrom(s, p, x, i).Ok?
    ensures var d := UvarintFrom(s, p, x, i);
            d.pos - p + i <= 10 && d.value < Shifted(1, d.pos - p + i)
    decreases |s| - p
  {
    if s[p] < 0x80 {
      FoldFits(x, i, s[p]);
    } else {
      FoldFits(x, i, s[p] - 0x80);
      UvarintFromBound(s, p + 1, (x + Shifted(s[p] - 0x80, i)) % TWO_64, i + 1);
    }
  }

  /** One to ten bytes, and no string that reads as `y` is shorter. */
  lemma Leb128Shortest(y: u64, w: bytes)
    ensures 1 <= |Leb128(y)| <= 10
    ensures Uvarint(w, 0) == Ok(y, |w|) ==> |Leb128(y)| <= |w|
  {
    Leb128Length(y);
    var n := |Leb128(y)|;
    ShiftedValues();
    if n > 10 {
      ShiftedGrows(10, n - 1);
      assert false;
    }
    if Uvarint(w, 0) == Ok(y, |w|) && |w| < n {
      UvarintFromBound(w, 0, 0, 0);
      ShiftedGrows(|w|, n - 1);
      assert false;
    }
  }

  /** The number that groups of seven bits spell, lowest first, whatever their top bits are. */
  function Groups(w: bytes): nat {
    if |w| == 0 then 0 else w[0] % 0x80 + 0x80 * Groups(w[1..])
  }

  /** `n` bytes, of which the last and no other has its top bit clear. */
  ghost predicate Ends(s: bytes, p: nat, n: nat) {
    n > 0 && p + n <= |s| && s[p + n - 1] < 0x80 && forall k | p <= k < p + n - 1 :: s[k] >= 0x80
  }

  lemma GroupsStep(s: bytes, p: nat, n: nat)
    requires 0 < n && p + n <= |s|
    ensures Groups(s[p..p + n]) == s[p] % 0x80 + 0x80 * Groups(s[p + 1..p + 1 + (n - 1)])
  {
    assert s[p..p + n][1..] == s[p + 1..p + 1 + (n - 1)];
  }

  lemma UvarintLast(s: bytes, p: nat, x: nat, i: nat)
    requires p < |s| && s[p] < 0x80 && (i <= 9 ==> x < Shifted(1, i))
    ensures UvarintFrom(s, p, x, i)
         == if i > 9 then Err(Panic(ShiftTooWide)) else if i == 9 && s[p] > 1 then Err(Overflow)
            else Ok(x + Shifted(s[p], i), p + 1)
  {
    hide Shifted;
  }

  lemma UvarintTooLong(s: bytes, p: nat, x: nat, i: nat)
    requires p + 1 < |s| && s[p] >= 0x80 && i >= 9 && (i <= 9 ==> x < Shifted(1, i))
    ensures UvarintFrom(s, p, x, i) == Err(Panic(ShiftTooWide))
  {
    hide Shifted;
    if i == 9 {
      FoldFits(x, i, s[p] - 0x80);
    }
  }

  lemma {:induction false} UvarintFromSpelled(s: bytes, p: nat, x: nat, i: nat, n: nat)
    requires Ends(s, p, n) && (i <= 9 ==> x < Shifted(1, i))
    ensures UvarintFrom(s, p, x, i)
         == if i + n > 10 then Err(Panic(ShiftTooWide)) else if i + n == 10 && s[p + n - 1] > 1 then Err(Overflow)
            else Ok(x + Shifted(Groups(s[p..p + n]), i), p + n)
    decreases n
  {
    hide Groups, Shifted, UvarintFrom;
    GroupsStep(s, p, n);
    if n == 1 {
      NoGroups(s[p + 1..p + 1 + (n - 1)]);
      UvarintLast(s, p, x, i);
    } else if i < 9 {
      var b := s[p] - 0x80;
      UvarintContinue(s, p, x, i, b);
      UvarintFromSpelled(s, p + 1, x + Shifted(b, i), i + 1, n - 1);
      var g := Groups(s[p + 1..p + 1 + (n - 1)]);
      ShiftedSum(b, 0x80 * g, i);
      ShiftedGroup(g, i);
    } else {
      UvarintTooLong(s, p, x, i);
    }
  }

  lemma NoGroups(w: bytes)
    requires |w| == 0
    ensures Groups(w) == 0
  {
  }

  /** What any bytes read as: the number their groups spell, or a refusal when a tenth byte is above 1 and a panic when
      there is an eleventh. */
  lemma UvarintSpelled(s: bytes, p: nat, n: nat)
    requires Ends(s, p, n)
    ensures Uvarint(s, p)
         == if n > 10 then Err(Panic(ShiftTooWide)) else if n == 10 && s[p + n - 1] > 1 then Err(Overflow)
            else Ok(Groups(s[p..p + n]), p + n)
  {
    UvarintFromSpelled(s, p, 0, 0, n);
    assert Shifted(Groups(s[p..p + n]), 0) == Groups(s[p..p + n]);
  }

  lemma {:induction false} UvarintFromOpen(s: bytes, p: nat, x: nat, i: nat)
    requires p <= |s| && (forall k | p <= k < |s| :: s[k] >= 0x80) && (i <= 9 ==> x < Shifted(1, i)) && i <= 10
    ensures UvarintFrom(s, p, x, i) == if i + |s| - p > 10 then Err(Panic(ShiftTooWide)) else More
    decreases |s| - p
  {
    if p < |s| && i <= 9 {
      FoldFits(x, i, s[p] - 0x80);
      UvarintFromOpen(s, p + 1, (x + Shifted(s[p] - 0x80, i)) % TWO_64, i + 1);
    }
  }

  /** A number without an end is waited for, up to ten bytes of it. */
  lemma UvarintOpen(s: bytes, p: nat)
    requires p <= |s| && forall k | p <= k < |s| :: s[k] >= 0x80
    ensures Uvarint(s, p) == if |s| - p > 10 then Err(Panic(ShiftTooWide)) else More
  {
    UvarintFromOpen(s, p, 0, 0);
  }

  /** Writes into the front of `buf`; a buffer too small makes the source panic. */
  method PutUvarint(buf: array<byte>, x: u64) returns (n: nat)
    requires |Leb128(x)| <= buf.Length
    modifies buf
    ensures n == |Leb128(x)|
    ensures buf[..] == Leb128(x) + old(buf[..])[n..]
  {
    var i, mx := 0, x;
    while mx >= 0x80
      invariant i + |Leb128(mx)| == |Leb128(x)|
      invariant buf[..i] + Leb128(mx) == Leb128(x)
      invariant forall k | i <= k < buf.Length :: buf[k] == old(buf[k])
    {
      buf[i] := mx % 0x80 + 0x80;
      assert buf[..i + 1] == buf[..i] + [mx % 0x80 + 0x80];
      mx := mx / 0x80;
      i := i + 1;
    }
    buf[i] := mx;
    n := i + 1;
    assert buf[..n] == buf[..i] + [mx];
  }
}
