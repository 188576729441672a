/** Decimal numbers: comparison across scales and rescaling, in 64-bit words with truncating division. */
module Decimals {
  import opened Basics
  import opened TypeNames

  const TWO_63: int := 0x8000_0000_0000_0000
  type i64 = x: int | -TWO_63 <= x < TWO_63

  datatype Decimal = Decimal(underlying: i64, precision: byte, scale: byte, nobits: NoBits)

  /** The table of factors stops at 18. */
  const MAX_DELTA: nat := 18

  function Pow10(k: nat): (r: nat)
    ensures r > 0
  {
    if k == 0 then 1 else 10 * Pow10(k - 1)
  }

  /** The number a decimal stands for. */
  ghost function Value(d: Decimal): real {
    d.underlying as real / Pow10(d.scale) as real
  }

  predicate InI64(x: int) { -TWO_63 <= x < TWO_63 }

  /** `self.underlying * FACTORS10[delta]`, where both the table and the product can fail. */
  function Upscaled(x: i64, delta: nat): Result<i64> {
    if delta > MAX_DELTA then Failure(Panic(BadIndex))
    else if !InI64(x * Pow10(delta)) then Failure(Panic(MultiplyOverflow))
    else Success(x * Pow10(delta))
  }

  /** Division that drops the fraction, as Rust divides. */
  function Truncated(a: int, b: nat): int
    requires b > 0
  {
    if a >= 0 then a / b else -((-a) / b)
  }

  /** `eq`. */
  function Eq(a: Decimal, b: Decimal): Result<bool> {
    if a.scale < b.scale then
      var x :- Upscaled(a.underlying, b.scale - a.scale);
      Success(b.underlying == x)
    else if a.scale == b.scale then Success(a.underlying == b.underlying)
    else
      var x :- Upscaled(b.underlying, a.scale - b.scale);
      Success(a.underlying == x)
  }

  /** `set_scale`. */
  function SetScale(d: Decimal, scale: byte): Result<Decimal> {
    if scale < d.scale then
      if d.scale - scale > MAX_DELTA then Failure(Panic(BadIndex))
      else (TruncatedFits(d.underlying, Pow10(d.scale - scale));
            Success(d.(underlying := Truncated(d.underlying, Pow10(d.scale - scale)), scale := scale)))
    else if scale == d.scale then Success(d)
    else
      var x :- Upscaled(d.underlying, scale - d.scale);
      Success(d.(underlying := x, scale := scale))
  }

  // ---------- arithmetic ----------

  lemma DivideUnique(a: nat, b: nat, q: nat, r: nat)
    requires b > 0 && a == q * b + r && r < b
    ensures a / b == q
  {
    var k := a / b - q;
    assert a / b * b + a % b == a;
    assert k * b == a / b * b - q * b;
    if k > 0 { ProductGrows(k, b); }
    if k < 0 { ProductGrows(-k, b); }
  }

  lemma DivideTwice(a: nat, m: nat, n: nat)
    requires m > 0 && n > 0
    ensures m * n > 0 && a / m / n == a / (m * n)
  {
    var q, r := a / m, a % m;
    var q2, r2 := q / n, q % n;
    assert a == q * m + r && q == q2 * n + r2;
    Scaled(r2 + 1, n, m);
    assert (r2 + 1) * m == r2 * m + m;
    assert n * m == m * n;
    assert a == q2 * (m * n) + (r2 * m + r) by {
      assert (q2 * n + r2) * m == q2 * n * m + r2 * m;
      assert q2 * n * m == q2 * (n * m);
    }
    ProductGrows(n, m);
    DivideUnique(a, m * n, q2, r2 * m + r);
  }

  lemma QuotientShrinks(n: nat, b: nat)
    requires b > 0
    ensures n / b <= n
  {
    var q, r := n / b, n % b;
    assert n == q * b + r;
    Scaled(1, b, q);
    assert 1 * q == q && b * q == q * b;
  }

  lemma TruncatedFits(x: i64, b: nat)
    requires b > 0
    ensures InI64(Truncated(x, b))
  {
    var y: int := x;
    QuotientShrinks(if y >= 0 then y else -y, b);
  }

  lemma {:induction false} Pow10Sum(i: nat, j: nat)
    ensures Pow10(i + j) == Pow10(i) * Pow10(j)
  {
    if i > 0 {
      Pow10Sum(i - 1, j);
      assert 10 * (Pow10(i - 1) * Pow10(j)) == 10 * Pow10(i - 1) * Pow10(j);
    } else {
      assert 1 * Pow10(j) == Pow10(j);
    }
  }

  /** Two quotients are equal when the smaller scale, multiplied up, gives the larger. */
  lemma SameQuotient(a: int, b: int, p: nat, f: nat)
    requires p > 0 && f > 0
    ensures p * f > 0
    ensures a as real / p as real == b as real / (p * f) as real <==> b == a * f
  {
    ProductGrows(f, p);
    var x, y := a as real / p as real, b as real / (p * f) as real;
    assert x * p as real == a as real && y * (p * f) as real == b as real;
    assert (p * f) as real == p as real * f as real;
    assert (a * f) as real == a as real * f as real;
    if x == y {
      assert b as real == x * (p as real * f as real) == x * p as real * f as real == a as real * f as real;
    }
    if b == a * f {
      assert y * (p as real * f as real) == x * p as real * f as real == x * (p as real * f as real);
      Cancel(x, y, p as real * f as real);
    }
  }

  lemma Cancel(x: real, y: real, z: real)
    requires z > 0.0 && x * z == y * z
    ensures x == y
  {
  }

  // ---------- equality ----------

  /** When it gives an answer, `eq` compares the numbers. */
  lemma EqIsValue(a: Decimal, b: Decimal)
    ensures Eq(a, b).Success? ==> (Eq(a, b).value <==> Value(a) == Value(b))
  {
    hide Pow10;
    var i, j: nat := a.scale, b.scale;
    if i < j {
      Pow10Sum(i, j - i);
      SameQuotient(a.underlying, b.underlying, Pow10(i), Pow10(j - i));
    } else if i == j {
      SameQuotient(a.underlying, b.underlying, Pow10(i), 1);
      assert Pow10(i) * 1 == Pow10(i) && a.underlying * 1 == a.underlying;
    } else {
      Pow10Sum(j, i - j);
      SameQuotient(b.underlying, a.underlying, Pow10(j), Pow10(i - j));
    }
  }

  /** `eq` gives an answer exactly when the scales differ by at most 18 and the number with fewer digits, written
      with the other's scale, fits a word. */
  lemma EqAnswers(a: Decimal, b: Decimal)
    ensures Eq(a, b).Success? <==>
              var delta := if a.scale < b.scale then b.scale - a.scale else a.scale - b.scale;
              var x := if a.scale < b.scale then a.underlying else b.underlying;
              delta <= 18 && InI64(x * Pow10(delta))
  {
    var x: int := b.underlying;
    assert Pow10(0) == 1 && x * 1 == x;
  }

  /** A number and what it is at a larger scale: the smaller, multiplied up, gives the larger. */
  lemma ScaledUp(a: Decimal, c: Decimal)
    requires a.scale <= c.scale && Value(a) == Value(c)
    ensures c.underlying == a.underlying * Pow10(c.scale - a.scale)
  {
    hide Pow10;
    Pow10Sum(a.scale, c.scale - a.scale);
    SameQuotient(a.underlying, c.underlying, Pow10(a.scale), Pow10(c.scale - a.scale));
  }

  /** `eq` is an equivalence over any mix of scales, as far as it gives an answer: two decimals that equal a third one
      are equal themselves exactly when their scales differ by at most 18. */
  lemma EqIsEquivalence(a: Decimal, b: Decimal, c: Decimal)
    ensures Eq(a, a) == Success(true)
    ensures Eq(a, b) == Eq(b, a)
    ensures Eq(a, b) == Success(true) && Eq(b, c) == Success(true) ==>
              (Eq(a, c) == Success(true) <==> a.scale <= c.scale + 18 && c.scale <= a.scale + 18)
  {
    if Eq(a, b) == Success(true) && Eq(b, c) == Success(true) {
      EqIsValue(a, b);
      EqIsValue(b, c);
      EqIsValue(a, c);
      EqAnswers(a, c);
      if a.scale <= c.scale {
        ScaledUp(a, c);
      } else {
        ScaledUp(c, a);
      }
      assert Pow10(0) == 1;
    }
  }

  /** Nothing, with 0, 10 and 20 digits: the first two are equal, the last two are equal, and the first and the last
      cannot be compared. */
  lemma TwentyApart()
    ensures var a := Decimal.Decimal(0, 18, 0, N64);
            var b, c := a.(scale := 10), a.(scale := 20);
            Eq(a, b) == Success(true) && Eq(b, c) == Success(true) && Eq(a, c) == Failure(Panic(BadIndex))
  {
    hide Pow10;
    assert 0 * Pow10(10) == 0;
  }

  // ---------- rescaling ----------

  /** The scales are within the table of each other, and the number fits a word at a larger scale. */
  predicate CanRescale(x: i64, from: byte, to: byte) {
    from <= to + 18 && to <= from + 18 && (from < to ==> InI64(x * Pow10(to - from)))
  }

  lemma SetScaleAnswers(d: Decimal, scale: byte)
    ensures SetScale(d, scale).Success? <==> CanRescale(d.underlying, d.scale, scale)
  {
    hide Pow10;
  }

  /** Scaling up keeps the number. */
  lemma UpKeepsValue(d: Decimal, scale: byte)
    requires d.scale <= scale && SetScale(d, scale).Success?
    ensures Value(SetScale(d, scale).value) == Value(d) && Eq(SetScale(d, scale).value, d) == Success(true)
  {
    hide Pow10;
    if d.scale < scale {
      var i, k: nat := d.scale, scale - d.scale;
      Pow10Sum(i, k);
      SameQuotient(d.underlying, d.underlying * Pow10(k), Pow10(i), Pow10(k));
    }
  }

  /** Up and down again is where one was. */
  lemma UpThenDown(d: Decimal, scale: byte)
    requires d.scale <= scale && SetScale(d, scale).Success?
    ensures SetScale(SetScale(d, scale).value, d.scale) == Success(d)
  {
    hide Pow10;
    if d.scale < scale {
      var f := Pow10(scale - d.scale);
      var x: int := d.underlying;
      if x >= 0 {
        DivideUnique(x * f, f, x, 0);
      } else {
        assert -(x * f) == (-x) * f;
        DivideUnique(-(x * f), f, -x, 0);
        ProductGrows(-x, f);
      }
    }
  }

  /** Two steps down make the one step down, negative numbers included. */
  lemma DownTwice(d: Decimal, s1: byte, s2: byte)
    requires s2 <= s1 <= d.scale && d.scale - s2 <= 18
    ensures SetScale(d, s1).Success? && SetScale(SetScale(d, s1).value, s2) == SetScale(d, s2)
  {
    hide Pow10;
    if s2 < s1 < d.scale {
      var i, j: nat := d.scale - s1, s1 - s2;
      Pow10Sum(i, j);
      TruncatedTwice(d.underlying, Pow10(i), Pow10(j));
    }
  }

  lemma TruncatedTwice(x: int, m: nat, n: nat)
    requires m > 0 && n > 0
    ensures m * n > 0 && Truncated(Truncated(x, m), n) == Truncated(x, m * n)
  {
    var a: nat := if x >= 0 then x else -x;
    DivideTwice(a, m, n);
    TruncatedSign(x, m);
    TruncatedSign(x, m * n);
    TruncatedSign(Truncated(x, m), n);
  }

  /** Truncation works on the size and keeps the sign. */
  lemma TruncatedSign(x: int, b: nat)
    requires b > 0
    ensures var a: nat := if x >= 0 then x else -x;
            Truncated(x, b) == if x >= 0 then a / b else -(a / b)
    ensures (x >= 0 ==> Truncated(x, b) >= 0) && (x <= 0 ==> Truncated(x, b) <= 0)
  {
    DivideUnique(0, b, 0, 0);
  }

  /** A step down moves towards zero by less than one unit of the new scale. */
  lemma DownLosesLittle(d: Decimal, scale: byte)
    requires scale <= d.scale && SetScale(d, scale).Success?
    ensures var loss := Value(d) - Value(SetScale(d, scale).value);
            var unit := 1.0 / Pow10(scale) as real;
            && -unit < loss < unit
            && (d.underlying >= 0 ==> loss >= 0.0) && (d.underlying <= 0 ==> loss <= 0.0)
  {
    hide Pow10;
    if scale < d.scale {
      var s, k: nat := scale, d.scale - scale;
      Pow10Sum(s, k);
      var p, f := Pow10(s), Pow10(k);
      var q := Truncated(d.underlying, f);
      QuotientLoss(d.underlying, q, p, f);
    } else {
      UnitPositive(Pow10(scale));
    }
  }

  lemma UnitPositive(p: nat)
    requires p > 0
    ensures 1.0 / p as real > 0.0
  {
  }

  lemma Remainder(x: int, f: nat)
    requires f > 0
    ensures var r := x - Truncated(x, f) * f; -(f as int) < r < f && (x >= 0 ==> r >= 0) && (x <= 0 ==> r <= 0)
  {
    var a: nat := if x >= 0 then x else -x;
    TruncatedSign(x, f);
    var q := a / f;
    assert a == q * f + a % f;
    assert (-q) * f == -(q * f);
  }

  lemma UnitSpread(p: nat, f: nat)
    requires p > 0 && f > 0
    ensures 1.0 / p as real * (p * f) as real == f as real
  {
    var unit := 1.0 / p as real;
    assert (p * f) as real == p as real * f as real;
    assert unit * p as real == 1.0;
    assert unit * (p as real * f as real) == unit * p as real * f as real;
  }

  lemma QuotientLoss(x: int, q: int, p: nat, f: nat)
    requires p > 0 && f > 0 && q == Truncated(x, f)
    ensures p * f > 0
    ensures var loss := x as real / (p * f) as real - q as real / p as real;
            var unit := 1.0 / p as real;
            && -unit < loss < unit && (x >= 0 ==> loss >= 0.0) && (x <= 0 ==> loss <= 0.0)
  {
    ProductGrows(f, p);
    Remainder(x, f);
    Spread(x, q, p, f);
    UnitSpread(p, f);
    hide Truncated;
    var z, r := p * f, x - q * f;
    Between(x as real / z as real - q as real / p as real, 1.0 / p as real, r, f, z as real);
  }

  lemma Spread(x: int, q: int, p: nat, f: nat)
    requires p > 0 && f > 0 && p * f > 0
    ensures (x as real / (p * f) as real - q as real / p as real) * (p * f) as real == (x - q * f) as real
  {
    var a, b := x as real / (p * f) as real, q as real / p as real;
    assert a * (p * f) as real == x as real && b * p as real == q as real;
    assert (p * f) as real == p as real * f as real;
    assert b * (p as real * f as real) == b * p as real * f as real == q as real * f as real == (q * f) as real;
    assert (a - b) * (p * f) as real == a * (p * f) as real - b * (p * f) as real;
  }

  lemma Between(loss: real, unit: real, r: int, f: nat, z: real)
    requires z > 0.0 && loss * z == r as real && unit * z == f as real && -(f as int) < r < f
    ensures -unit < loss < unit && (r >= 0 ==> loss >= 0.0) && (r <= 0 ==> loss <= 0.0)
  {
    LessBy(loss, unit, z);
    assert (-unit) * z == -(unit * z);
    LessBy(-unit, loss, z);
    if loss < 0.0 { Negative(loss, z); }
    if loss > 0.0 { Negative(-loss, z); assert (-loss) * z == -(loss * z); }
  }

  lemma LessBy(x: real, y: real, z: real)
    requires z > 0.0 && x * z < y * z
    ensures x < y
  {
    if x >= y { Ordered(y, x, z); }
  }

  lemma Ordered(x: real, y: real, z: real)
    requires x <= y && z > 0.0
    ensures x * z <= y * z
  {
  }

  lemma Negative(x: real, z: real)
    requires x < 0.0 && z > 0.0
    ensures x * z < 0.0
  {
  }
}
