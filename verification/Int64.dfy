/**
  Go's int64: a bounded integer whose arithmetic wraps around silently and whose
  division truncates toward zero.
 */
module Int64 {

  const MIN: int := -0x8000_0000_0000_0000
  const MAX: int := 0x7fff_ffff_ffff_ffff
  const MODULUS: int := 0x1_0000_0000_0000_0000

  type int64 = x: int | -0x8000_0000_0000_0000 <= x <= 0x7fff_ffff_ffff_ffff

  predicate InRange(x: int) {
    MIN <= x <= MAX
  }

  function Abs(x: int): nat {
    if x < 0 then -x else x
  }

  predicate Congruent(x: int, y: int) {
    (x - y) % MODULUS == 0
  }

  /** The int64 an out-of-range result becomes: the representative of x modulo 2^64. */
  function Wrap(x: int): (w: int64)
    ensures Congruent(x, w)
    ensures InRange(x) ==> w == x
  {
    var r := x % MODULUS;
    if r > MAX then r - MODULUS else r
  }

  /** Go's `/`: Dafny's division rounds negative numerators the other way. */
  function TruncDiv(a: int, b: int): (q: int)
    requires b != 0
  {
    if a >= 0 then a / b else -((-a) / b)
  }

  /** Go's `%`, whose result carries the sign of the numerator. */
  function TruncMod(a: int, b: int): int
    requires b != 0
  {
    a - b * TruncDiv(a, b)
  }

  function Neg(a: int64): int64 {
    Wrap(0 - a)
  }

  function Mul(a: int64, b: int64): int64 {
    Wrap(a * b)
  }

  function Div(a: int64, b: int64): int64
    requires b != 0
  {
    Wrap(TruncDiv(a, b))
  }

  lemma MulMonotone(a: int, b: int, c: int)
    requires a <= b && c >= 0
    ensures a * c <= b * c
  {
  }

  /** The quotient of a non-negative number, pinned between two multiples of the divisor. */
  lemma FloorBounds(n: nat, d: int)
    requires d > 0
    ensures d * (n / d) <= n < d * (n / d) + d
    ensures 0 <= n / d <= n
  {
    var q := n / d;
    assert q >= 0;
    MulMonotone(1, d, q);
  }

  /** A multiple strictly between -d and d is zero. */
  lemma SmallMultiple(k: int, d: int)
    requires d > 0 && Abs(d * k) < d
    ensures k == 0
  {
    if k >= 1 { MulMonotone(1, k, d); }
    if k <= -1 { MulMonotone(1, -k, d); }
  }

  /** The integer d * q + r determines q when 0 <= r < d. */
  lemma FloorUnique(n: int, d: int, q: int)
    requires d > 0 && d * q <= n < d * q + d
    ensures n / d == q
  {
    assert d * (n / d) + n % d == n;
    assert d * (n / d - q) == d * (n / d) - d * q;
    SmallMultiple(n / d - q, d);
  }

  lemma TruncDivBounds(a: int, b: int)
    requires b > 0
    ensures a >= 0 ==> 0 <= TruncDiv(a, b) <= a && b * TruncDiv(a, b) <= a < b * TruncDiv(a, b) + b
    ensures a < 0 ==> a <= TruncDiv(a, b) <= 0 && b * TruncDiv(a, b) - b < a <= b * TruncDiv(a, b)
  {
    if a >= 0 {
      FloorBounds(a, b);
    } else {
      FloorBounds(-a, b);
      assert b * -((-a) / b) == -(b * ((-a) / b));
    }
  }

  /** Dividing an exact product by its positive factor gives the other factor back. */
  lemma TruncDivProduct(a: int, b: int)
    requires b > 0
    ensures TruncDiv(a * b, b) == a
  {
    var p := a * b;
    TruncDivBounds(p, b);
    var q := TruncDiv(p, b);
    assert b * (q - a) == b * q - p;
    SmallMultiple(q - a, b);
  }

  /**
    The overflow guard written all over the source, `product / b != a`, fires exactly
    when the true product does not fit in an int64.
   */
  lemma DivideBackExact(a: int64, b: int64)
    requires b > 0
    ensures Div(Mul(a, b), b) == a <==> InRange(a * b)
  {
    var product := a * b;
    var p := Wrap(product);
    TruncDivBounds(p, b);
    if InRange(product) {
      TruncDivProduct(a, b);
    }
  }
}
