/**
  Currency as int64 paise: checked addition, multiplication and basis points, the one
  rounding function, and left-to-right totals.
 */
module Money {
  import opened Wrappers
  import opened Int64

  type Paise = int64

  datatype Error = Negative | Overflow

  /** The exact value x, or the refusal the source promises when x does not fit. */
  function Checked(x: int): Result<Paise, Error> {
    if InRange(x) then Success(x) else Failure(Overflow)
  }

  function Add(p: Paise, q: Paise): Result<Paise, Error> {
    var sum := Wrap(p + q);
    if (p > 0 && q > 0 && sum < 0) || (p < 0 && q < 0 && sum > 0)
    then Failure(Overflow)
    else Success(sum)
  }

  function Sub(p: Paise, q: Paise): Result<Paise, Error> {
    Add(p, Neg(q))
  }

  function MulQty(p: Paise, qty: int64): Result<Paise, Error> {
    if qty < 0 then Failure(Negative)
    else if qty == 0 || p == 0 then Success(0)
    else
      var product := Mul(p, qty);
      if Div(product, qty) != p then Failure(Overflow) else Success(product)
  }

  function ApplyBps(p: Paise, bps: int64): Result<Paise, Error> {
    if bps < 0 then Failure(Negative)
    else if bps == 0 || p == 0 then Success(0)
    else
      var scaled := Mul(p, bps);
      if Div(scaled, bps) != p then Failure(Overflow) else Success(RoundHalfUp(scaled, 10_000))
  }

  /** Every addition, negation and division here is an int64 one and may wrap. */
  function RoundHalfUp(num: int64, den: int64): int64
    requires den != 0
  {
    if den < 0 then RoundQuotient(Neg(num), Neg(den)) else RoundQuotient(num, den)
  }

  function RoundQuotient(n: int64, d: int64): int64
    requires d != 0
  {
    if n >= 0 then Div(Wrap(n + Div(d, 2)), d)
    else Neg(Div(Wrap(Neg(n) + Div(d, 2)), d))
  }

  // ----- addition and subtraction

  /** The sign test is exact with one exception: two copies of the most negative amount. */
  lemma AddExact(p: Paise, q: Paise)
    ensures Add(p, q) == Checked(p + q) <==> !(p == MIN && q == MIN)
    ensures p == MIN && q == MIN ==> Add(p, q) == Success(0)
  {
  }

  /** Negating first makes subtraction wrong whenever the subtrahend cannot be negated. */
  lemma SubExact(p: Paise, q: Paise)
    ensures Sub(p, q) == Checked(p - q) <==> (q != MIN || p == MIN)
    ensures q == MIN && p >= 0 ==> Sub(p, q) == Success(p + MIN)
    ensures q == MIN && MIN < p < 0 ==> Sub(p, q) == Failure(Overflow)
  {
  }

  lemma MulQtyExact(p: Paise, qty: int64)
    ensures MulQty(p, qty) == if qty < 0 then Failure(Negative) else Checked(p * qty)
  {
    if qty > 0 {
      DivideBackExact(p, qty);
    }
  }

  // ----- rounding

  /** m, a multiple of den, is as close to num as possible, and farther from zero on a tie. */
  predicate NearestMultiple(m: int, num: int, den: int) {
    var error := Abs(2 * m - 2 * num);
    error <= Abs(den) && (error == Abs(den) ==> Abs(m) > Abs(num))
  }

  /** r is num/den rounded to the nearest integer, halves going away from zero. */
  predicate IsHalfAway(r: int, num: int, den: int) {
    NearestMultiple(r * den, num, den)
  }

  lemma HalfAwayFlip(r: int, num: int, den: int)
    ensures IsHalfAway(r, num, den) == IsHalfAway(r, -num, -den)
    ensures IsHalfAway(r, num, den) == IsHalfAway(-r, -num, den)
  {
    var m := r * den;
    assert r * -den == -m;
    assert -r * den == -m;
    assert NearestMultiple(m, num, den) == NearestMultiple(-m, -num, den);
    assert NearestMultiple(-m, -num, den) == NearestMultiple(-m, -num, -den);
  }

  /** Two multiples of den on the same side of zero cannot both be nearest. */
  lemma NearestOrdered(a: int, b: int, num: int, den: int)
    requires den > 0 && b >= a + den
    requires 0 <= a || b <= 0
    requires NearestMultiple(a, num, den)
    ensures !NearestMultiple(b, num, den)
  {
  }

  lemma HalfAwayOrdered(r: int, s: int, num: int, den: int)
    requires den > 0 && r < s
    requires IsHalfAway(r, num, den)
    ensures !IsHalfAway(s, num, den)
  {
    MulMonotone(r + 1, s, den);
    assert (r + 1) * den == r * den + den;
    if r >= 0 {
      MulMonotone(0, r, den);
    } else {
      assert s * den <= 0 || r * den <= -den by {
        MulMonotone(r, -1, den);
      }
      if s > 0 {
        MulMonotone(1, s, den);
      } else {
        MulMonotone(s, 0, den);
      }
    }
    if 0 <= r * den || s * den <= 0 {
      NearestOrdered(r * den, s * den, num, den);
    }
  }

  /** At most one integer is the rounded quotient, so `IsHalfAway` is a full specification. */
  lemma HalfAwayUnique(r: int, s: int, num: int, den: int)
    requires den != 0
    requires IsHalfAway(r, num, den) && IsHalfAway(s, num, den)
    ensures r == s
  {
    HalfAwayFlip(r, num, den);
    HalfAwayFlip(s, num, den);
    var n, d := if den > 0 then num else -num, if den > 0 then den else -den;
    if r < s { HalfAwayOrdered(r, s, n, d); }
    if s < r { HalfAwayOrdered(s, r, n, d); }
  }

  /** The rounding formula over unbounded integers. */
  function Rounded(num: int, den: int): int
    requires den != 0
  {
    if den < 0 then RoundedQuotient(0 - num, 0 - den) else RoundedQuotient(num, den)
  }

  function RoundedQuotient(n: int, d: int): int
    requires d > 0
  {
    if n >= 0 then (n + d / 2) / d else -((d / 2 - n) / d)
  }

  lemma FormulaRoundsHalfAway(num: nat, den: int)
    requires den > 0
    ensures IsHalfAway((num + den / 2) / den, num, den)
  {
    FloorBounds(num + den / 2, den);
    assert den == 2 * (den / 2) + den % 2;
  }

  lemma RoundedIsHalfAway(num: int, den: int)
    requires den != 0
    ensures IsHalfAway(Rounded(num, den), num, den)
  {
    var n, d: int := if den < 0 then -num else num, Abs(den);
    HalfAwayFlip(Rounded(num, den), num, den);
    FormulaRoundsHalfAway(Abs(n), d);
    HalfAwayFlip((Abs(n) + d / 2) / d, Abs(n), d);
  }

  lemma HalfAwayIffRounded(r: int, num: int, den: int)
    requires den != 0
    ensures IsHalfAway(r, num, den) <==> r == Rounded(num, den)
  {
    RoundedIsHalfAway(num, den);
    if IsHalfAway(r, num, den) {
      HalfAwayUnique(r, Rounded(num, den), num, den);
    }
  }

  /** Once `n + d/2` wraps below zero the quotient is not positive, while the true one is. */
  lemma WrappedQuotient(n: int64, d: int64)
    requires d > 0 && n >= 0
    ensures n + d / 2 <= MAX ==> Div(Wrap(n + d / 2), d) == (n + d / 2) / d
    ensures n + d / 2 > MAX ==> MIN < Div(Wrap(n + d / 2), d) <= 0 < (n + d / 2) / d
  {
    var sum: int := n + d / 2;
    FloorBounds(sum, d);
    if sum > MAX {
      TruncDivBounds(Wrap(sum), d);
      var q := TruncDiv(Wrap(sum), d);
      if q <= MIN {
        MulMonotone(2, d, -q);
      }
    }
  }

  lemma RoundQuotientExact(n: int64, d: int64)
    requires d > 0 && n > MIN
    ensures RoundQuotient(n, d) == RoundedQuotient(n, d) <==> Abs(n) + d / 2 <= MAX
  {
    hide Div;
    HalfOf(d);
    if n >= 0 {
      WrappedQuotient(n, d);
    } else {
      RoundQuotientExactNegative(-n, d);
    }
  }

  lemma RoundQuotientExactNegative(m: int64, d: int64)
    requires d > 0 && m > 0
    ensures RoundQuotient(Neg(m), d) == RoundedQuotient(0 - m, d) <==> m + d / 2 <= MAX
  {
    hide Div, RoundQuotient, Wrap, RoundedQuotient, Neg;
    NegatedQuotient(m, d);
    WrappedQuotient(m, d);
    NegatedRounded(m, d);
    FloorBounds(m + d / 2, d);
    NegatedEqual(Div(Wrap(m + d / 2), d), (m + d / 2) / d, m + d / 2 <= MAX);
  }

  lemma NegatedEqual(q: int64, exact: int, fits: bool)
    requires exact >= 0 && if fits then q == exact else MIN < q <= 0 < exact
    ensures Neg(q) == -exact <==> fits
  {
  }

  lemma NegatedQuotient(m: int64, d: int64)
    requires d > 0 && m > 0
    ensures RoundQuotient(Neg(m), d) == Neg(Div(Wrap(m + d / 2), d))
  {
    hide Div, Neg, Wrap;
    HalfOf(d);
    NegatedTwice(m);
  }

  lemma NegatedTwice(m: int64)
    requires m > 0
    ensures Neg(m) < 0 && Neg(Neg(m)) == m
  {
  }

  lemma NegatedRounded(m: int, d: int)
    requires d > 0 && m > 0
    ensures RoundedQuotient(0 - m, d) == -((m + d / 2) / d)
  {
  }

  lemma HalfOf(d: int64)
    requires d > 0
    ensures Div(d, 2) == d / 2
  {
  }

  lemma RoundHalfUpPositiveDen(num: int64, den: int64)
    requires den > 0
    ensures RoundHalfUp(num, den) == Rounded(num, den)
       <==> (Abs(num) + den / 2 <= MAX || (num == MIN && den == 1))
  {
    hide RoundQuotient, RoundedQuotient;
    if num > MIN {
      RoundQuotientExact(num, den);
    } else {
      MostNegativeRounds(den);
    }
  }

  lemma MostNegativeRounds(den: int64)
    requires den > 0
    ensures RoundHalfUp(MIN, den) == Rounded(MIN, den) <==> den == 1
  {
    hide RoundHalfUp, Rounded;
    MinQuotient(den);
    MinRounded(den);
    MinQuotientSign(den);
  }

  /**
    The most negative numerator cannot be negated: its magnitude loses den/2 where it should
    gain it, and the quotient comes out on the wrong side of zero.
   */
  lemma MinQuotient(d: int64)
    requires d > 0
    ensures RoundHalfUp(MIN, d) == if d == 1 then MIN else (-MIN - d / 2) / d
  {
    var q := Div(MIN + d / 2, d);
    NegativeQuotient(-MIN - d / 2, d);
    assert RoundQuotient(MIN, d) == Neg(q) by {
      assert Div(d, 2) == d / 2;
      hide TruncDiv;
    }
    hide RoundQuotient, Div;
  }

  /** Dividing a negative int64: the magnitude of the quotient is the floor of the magnitudes. */
  lemma NegativeQuotient(m: int, d: int64)
    requires d > 0 && 0 < m <= -MIN
    ensures Div(0 - m, d) == -(m / d)
    ensures d > 1 ==> m / d <= MAX
  {
    FloorBounds(m, d);
    if d > 1 && m / d > MAX {
      MulMonotone(2, d, m / d);
    }
  }

  lemma MinQuotientSign(d: int64)
    requires d > 0
    ensures (-MIN - d / 2) / d >= 0
  {
    FloorBounds(-MIN - d / 2, d);
  }

  lemma MinRounded(d: int64)
    requires d > 0
    ensures Rounded(MIN, d) == -((-MIN + d / 2) / d) < 0
  {
    var sum: int := -MIN + d / 2;
    FloorBounds(sum, d);
    assert d * 0 + d <= sum;
  }

  /** The two quotients of 2^63 -/+ d/2 differ unless d divides 2^64 + 1. */
  lemma QuotientsAroundHalf(d: int64)
    requires d > 1
    ensures (-MIN - d / 2) / d == (-MIN + d / 2) / d <==> (MODULUS + 1) % d == 0
  {
    var low := (-MIN - d / 2) / d;
    FloorBounds(-MIN - d / 2, d);
    FloorBounds(-MIN + d / 2, d);
    var h := d * low;
    if low == (-MIN + d / 2) / d {
      assert MODULUS + 1 == 2 * h + d;
      assert 2 * h + d == d * (2 * low + 1);
      FloorUnique(MODULUS + 1, d, 2 * low + 1);
    } else if (MODULUS + 1) % d == 0 {
      OddDivisor(d, low);
    }
  }

  lemma OddDivisor(d: int, r: int)
    requires d > 1 && (MODULUS + 1) % d == 0
    requires d * r <= -MIN - d / 2 < d * r + d
    ensures (-MIN + d / 2) / d == r
  {
    var k := (MODULUS + 1) / d;
    assert MODULUS + 1 == d * k;
    EvenProduct(d, k);
    var h := k / 2;
    assert k == 2 * h + 1;
    assert d * k == 2 * (d * h) + d;
    assert d * (h - r) == d * h - d * r;
    SmallMultiple(h - r, d);
    FloorUnique(-MIN + d / 2, d, r);
  }

  lemma EvenProduct(a: int, b: int)
    ensures (a * b) % 2 == 1 ==> a % 2 == 1 && b % 2 == 1
  {
    var i, j := a / 2, b / 2;
    if a % 2 == 0 { assert a * b == 2 * (i * b); }
    if b % 2 == 0 { assert a * b == 2 * (a * j); }
  }

  lemma RoundHalfUpNegativeDen(num: int64, den: int64)
    requires MIN < den < 0
    ensures RoundHalfUp(num, den) == Rounded(num, den)
       <==> (Abs(num) + (-den) / 2 <= MAX || (num == MIN && den < -1 && (MODULUS + 1) % -den == 0))
  {
    hide RoundQuotient, RoundedQuotient;
    FlipBoth(num, den);
    if num > MIN {
      RoundHalfUpPositiveDen(-num, -den);
    } else {
      RoundHalfUpMinOverNegative(-den);
    }
  }

  lemma FlipBoth(num: int64, den: int64)
    requires MIN < den < 0
    ensures RoundHalfUp(num, den) == RoundHalfUp(Neg(num), -den)
    ensures Rounded(num, den) == Rounded(0 - num, 0 - den)
  {
    hide RoundQuotient, RoundedQuotient;
  }

  lemma RoundHalfUpMinOverNegative(d: int64)
    requires d > 0
    ensures RoundHalfUp(MIN, d) == Rounded(-MIN, d) <==> (d > 1 && (MODULUS + 1) % d == 0)
  {
    MinQuotient(d);
    var up := (-MIN + d / 2) / d;
    assert Rounded(-MIN, d) == up;
    if d > 1 {
      QuotientsAroundHalf(d);
    }
  }

  /** When the code's rounding is right: a test on the arguments alone. */
  predicate RoundsSafely(num: int64, den: int64)
    requires den != 0
  {
    || Abs(num) + Abs(den) / 2 <= MAX
    || (num == MIN && den == 1)
    || (num == MIN && MIN < den < -1 && (MODULUS + 1) % -den == 0)
  }

  /**
    RoundHalfUp is num/den rounded to the nearest integer, halves away from zero, exactly
    when |num| + |den|/2 fits in an int64 (or in two freak cases of the most negative
    numerator). Every numerator and every non-zero denominator is covered.
   */
  lemma RoundHalfUpExact(num: int64, den: int64)
    requires den != 0
    ensures IsHalfAway(RoundHalfUp(num, den), num, den) <==> RoundsSafely(num, den)
  {
    HalfAwayIffRounded(RoundHalfUp(num, den), num, den);
    if den > 0 {
      RoundHalfUpPositiveDen(num, den);
    } else if den > MIN {
      RoundHalfUpNegativeDen(num, den);
    } else {
      RoundHalfUpMinDen(num);
    }
  }

  lemma RoundHalfUpMinDen(num: int64)
    ensures RoundHalfUp(num, MIN) == 0
    ensures Rounded(num, MIN) == 0 <==> Abs(num) + Abs(MIN) / 2 <= MAX
  {
    hide RoundedQuotient, RoundQuotient;
    MinDenQuotient(Neg(num));
    MinDenFormula(0 - num);
  }

  lemma MinDenQuotient(n: int64)
    ensures RoundQuotient(n, MIN) == 0
  {
    assert Div(MIN, 2) == MIN / 2;
  }

  lemma MinDenFormula(n: int)
    requires Abs(n) <= -MIN
    ensures RoundedQuotient(n, -MIN) == 0 <==> Abs(n) + Abs(MIN) / 2 <= MAX
  {
  }

  lemma RoundHalfUpIsRounded(num: int64, den: int64)
    requires den != 0 && Abs(num) + Abs(den) / 2 <= MAX
    ensures RoundHalfUp(num, den) == Rounded(num, den)
  {
    RoundHalfUpExact(num, den);
    HalfAwayIffRounded(RoundHalfUp(num, den), num, den);
  }

  lemma RoundHalfUpOdd(num: int64, den: int64)
    requires den != 0 && Abs(num) + Abs(den) / 2 <= MAX
    ensures RoundHalfUp(Neg(num), den) == Neg(RoundHalfUp(num, den))
  {
    RoundHalfUpIsRounded(num, den);
    RoundHalfUpIsRounded(Neg(num), den);
    RoundedOdd(num, den);
  }

  lemma RoundedOdd(num: int, den: int)
    requires den != 0
    ensures Rounded(-num, den) == -Rounded(num, den)
  {
    var d: int := Abs(den);
    FloorUnique(d / 2, d, 0);
  }

  lemma RoundHalfUpMonotone(a: int64, b: int64, den: int64)
    requires den > 0 && a <= b
    requires Abs(a) + den / 2 <= MAX && Abs(b) + den / 2 <= MAX
    ensures RoundHalfUp(a, den) <= RoundHalfUp(b, den)
  {
    RoundHalfUpPositiveDen(a, den);
    RoundHalfUpPositiveDen(b, den);
    RoundedMonotone(a, b, den);
  }

  lemma FloorMonotone(a: nat, b: nat, d: int)
    requires d > 0 && a <= b
    ensures 0 <= a / d <= b / d
  {
    FloorBounds(a, d);
    FloorBounds(b, d);
    if b / d < a / d {
      MulMonotone(b / d + 1, a / d, d);
    }
  }

  lemma RoundedMonotone(a: int, b: int, den: int)
    requires den > 0 && a <= b
    ensures Rounded(a, den) <= Rounded(b, den)
  {
    if 0 <= a {
      FloorMonotone(a + den / 2, b + den / 2, den);
    } else if b < 0 {
      FloorMonotone(den / 2 - b, den / 2 - a, den);
    } else {
      FloorMonotone(0, den / 2 - a, den);
      FloorMonotone(0, b + den / 2, den);
    }
  }

  // ----- basis points

  /** What a basis-point share should be: refused below zero, else exact, else overflow. */
  function BpsShare(p: Paise, bps: int64): Result<int, Error> {
    if bps < 0 then Failure(Negative)
    else if InRange(p * bps) then Success(Rounded(p * bps, 10_000))
    else Failure(Overflow)
  }

  /**
    ApplyBps is exact outside one silent band: products that fit in an int64 but lie within
    5000 of its ends are rounded wrongly and reported as a success.
   */
  lemma ApplyBpsExact(p: Paise, bps: int64)
    ensures ApplyBps(p, bps) == BpsShare(p, bps)
       <==> !(bps >= 0 && MAX - 5000 < Abs(p * bps) && InRange(p * bps))
  {
    if bps > 0 {
      DivideBackExact(p, bps);
      if InRange(p * bps) {
        RoundHalfUpPositiveDen(p * bps, 10_000);
      }
    }
  }

  function SumOf(xs: seq<int>): int {
    if xs == [] then 0 else SumOf(xs[..|xs| - 1]) + xs[|xs| - 1]
  }

  function RoundedShares(ps: seq<int>, bps: int64): seq<int> {
    seq(|ps|, i requires 0 <= i < |ps| => Rounded(ps[i] * bps, 10_000))
  }

  /** One rounding is off by at most half a paise, here scaled by 2 * den. */
  lemma RoundedWithinHalf(num: int, den: int)
    requires den > 0
    ensures Abs(2 * (Rounded(num, den) * den) - 2 * num) <= den
  {
    RoundedIsHalfAway(num, den);
  }

  lemma {:induction false} RoundedSharesDrift(ps: seq<int>, bps: int64)
    ensures Abs(2 * (10_000 * SumOf(RoundedShares(ps, bps))) - 2 * (SumOf(ps) * bps)) <= 10_000 * |ps|
  {
    if ps != [] {
      var k := |ps| - 1;
      RoundedSharesDrift(ps[..k], bps);
      assert RoundedShares(ps, bps)[..k] == RoundedShares(ps[..k], bps);
      var share := Rounded(ps[k] * bps, 10_000);
      RoundedWithinHalf(ps[k] * bps, 10_000);
      assert RoundedShares(ps, bps)[k] == share;
      Distribute(SumOf(ps[..k]), ps[k], bps);
      DriftStep(SumOf(RoundedShares(ps[..k], bps)), share, SumOf(ps[..k]) * bps, ps[k] * bps, k);
    }
  }

  lemma Distribute(a: int, b: int, c: int)
    ensures (a + b) * c == a * c + b * c
  {
  }

  lemma DriftStep(shares: int, share: int, exacts: int, exact: int, n: nat)
    requires Abs(2 * (10_000 * shares) - 2 * exacts) <= 10_000 * n
    requires Abs(2 * (share * 10_000) - 2 * exact) <= 10_000
    ensures Abs(2 * (10_000 * (shares + share)) - 2 * (exacts + exact)) <= 10_000 * (n + 1)
  {
  }

  /**
    Rounding n lines and summing differs from rounding the sum once by at most (n + 1)/2
    paise, which is why the source fixes the order: round each line, then add.
   */
  lemma BpsDrift(ps: seq<Paise>, bps: int64, shares: seq<Paise>, total: Paise)
    requires bps >= 0 && |shares| == |ps|
    requires forall i :: 0 <= i < |ps| ==> Abs(ps[i] * bps) <= MAX - 5000
    requires forall i :: 0 <= i < |ps| ==> ApplyBps(ps[i], bps) == Success(shares[i])
    requires InRange(SumOf(ps)) && Abs(SumOf(ps) * bps) <= MAX - 5000
    requires ApplyBps(SumOf(ps), bps) == Success(total)
    ensures 2 * Abs(SumOf(shares) - total) <= |ps| + 1
  {
    hide ApplyBps, Rounded;
    SharesAreRounded(ps, bps, shares);
    ApplyBpsIsRounded(SumOf(ps), bps);
    RoundedSharesDrift(ps, bps);
    RoundedWithinHalf(SumOf(ps) * bps, 10_000);
    DriftOfTotals(SumOf(shares), total, SumOf(ps) * bps, |ps|);
  }

  lemma SharesAreRounded(ps: seq<Paise>, bps: int64, shares: seq<Paise>)
    requires bps >= 0 && |shares| == |ps|
    requires forall i :: 0 <= i < |ps| ==> Abs(ps[i] * bps) <= MAX - 5000
    requires forall i :: 0 <= i < |ps| ==> ApplyBps(ps[i], bps) == Success(shares[i])
    ensures shares == RoundedShares(ps, bps)
  {
    forall i | 0 <= i < |ps|
      ensures shares[i] == Rounded(ps[i] * bps, 10_000)
    {
      ApplyBpsIsRounded(ps[i], bps);
    }
  }

  lemma ApplyBpsIsRounded(p: Paise, bps: int64)
    requires bps >= 0 && Abs(p * bps) <= MAX - 5000
    ensures ApplyBps(p, bps) == Success(Rounded(p * bps, 10_000))
  {
    ApplyBpsExact(p, bps);
  }

  lemma DriftOfTotals(shares: int, total: int, exact: int, n: nat)
    requires Abs(2 * (10_000 * shares) - 2 * exact) <= 10_000 * n
    requires Abs(2 * (total * 10_000) - 2 * exact) <= 10_000
    ensures 2 * Abs(shares - total) <= n + 1
  {
  }

  // ----- totals

  /** The running total over a prefix, wrapping as Go's would once two minima meet. */
  function RunningTotal(xs: seq<Paise>): Result<Paise, nat> {
    if xs == [] then Success(0)
    else
      var k := |xs| - 1;
      match RunningTotal(xs[..k])
      case Failure(i) => Failure(i)
      case Success(t) =>
        match Add(t, xs[k])
        case Success(s) => Success(s)
        case Failure(_) => Failure(k)
  }

  /** Sum adds left to right; a failure names the index of the amount that overflowed. */
  method Sum(amounts: seq<Paise>) returns (r: Result<Paise, nat>)
    ensures r == RunningTotal(amounts)
  {
    var total: Paise := 0;
    for i := 0 to |amounts|
      invariant RunningTotal(amounts[..i]) == Success(total)
    {
      assert amounts[..i + 1][..i] == amounts[..i];
      match Add(total, amounts[i]) {
        case Success(s) =>
          total := s;
        case Failure(_) =>
          RunningTotalFailsEarly(amounts, i + 1);
          return Failure(i);
      }
    }
    assert amounts[..|amounts|] == amounts;
    return Success(total);
  }

  lemma {:induction false} RunningTotalFailsEarly(xs: seq<Paise>, n: nat)
    requires n <= |xs| && RunningTotal(xs[..n]).Failure?
    ensures RunningTotal(xs) == RunningTotal(xs[..n])
    decreases |xs|
  {
    if n < |xs| {
      var k := |xs| - 1;
      assert xs[..k][..n] == xs[..n];
      RunningTotalFailsEarly(xs[..k], n);
    } else {
      assert xs[..n] == xs;
    }
  }

  /** The specification of a checked total: the first prefix sum outside the range, if any. */
  function ExactTotal(xs: seq<Paise>): Result<int, nat> {
    if xs == [] then Success(0)
    else
      var k := |xs| - 1;
      match ExactTotal(xs[..k])
      case Failure(i) => Failure(i)
      case Success(t) => if InRange(t + xs[k]) then Success(t + xs[k]) else Failure(k)
  }

  lemma {:induction false} ExactTotalIsSum(xs: seq<Paise>)
    ensures ExactTotal(xs).Success? ==> ExactTotal(xs).value == SumOf(xs) && InRange(SumOf(xs))
    ensures ExactTotal(xs).Failure? ==> ExactTotal(xs).error < |xs|
  {
    if xs != [] {
      ExactTotalIsSum(xs[..|xs| - 1]);
    }
  }

  /** A failure names the first prefix whose sum leaves the range. */
  lemma {:induction false} ExactTotalFirstExit(xs: seq<Paise>, n: nat)
    requires n <= |xs|
    ensures InRange(SumOf(xs[..n])) || (ExactTotal(xs).Failure? && ExactTotal(xs).error < n)
    ensures ExactTotal(xs) == Failure(n) && n < |xs| ==> !InRange(SumOf(xs[..n + 1]))
    decreases |xs|
  {
    ExactTotalIsSum(xs);
    if n == |xs| {
      assert xs[..n] == xs;
    } else {
      var k := |xs| - 1;
      ExactTotalIsSum(xs[..k]);
      assert xs[..k][..n] == xs[..n];
      if n < k {
        assert xs[..k][..n + 1] == xs[..n + 1];
      } else {
        assert xs[..n + 1] == xs;
      }
      ExactTotalFirstExit(xs[..k], n);
    }
  }

  /** Two copies of the minimum meet: the amount at i is MIN and so is the sum before it. */
  predicate DoubleMinimum(xs: seq<Paise>, i: nat)
    requires i < |xs|
  {
    xs[i] == MIN && ExactTotal(xs[..i]) == Success(MIN)
  }

  /**
    Sum reports the mathematical sum, or the first index at which a prefix sum leaves the
    range, exactly when the running total never meets MIN with another MIN to add.
   */
  lemma {:induction false} SumExact(xs: seq<Paise>)
    ensures RunningTotal(xs) == ExactTotal(xs)
       <==> forall i :: 0 <= i < |xs| ==> !DoubleMinimum(xs, i)
  {
    if xs != [] {
      var k := |xs| - 1;
      var init := xs[..k];
      SumExact(init);
      assert forall i :: 0 <= i < k ==> init[..i] == xs[..i];
      assert forall i :: 0 <= i < k ==> DoubleMinimum(init, i) == DoubleMinimum(xs, i);
      if RunningTotal(init) == ExactTotal(init) {
        if ExactTotal(init).Success? {
          AddExact(ExactTotal(init).value, xs[k]);
          assert RunningTotal(xs) == ExactTotal(xs) <==> !DoubleMinimum(xs, k);
        } else {
          assert !DoubleMinimum(xs, k);
        }
      } else {
        var i :| 0 <= i < k && DoubleMinimum(xs, i);
        ExactFailsAt(xs, i);
        SumPassesDoubleMinimum(xs, i);
      }
    }
  }

  lemma {:induction false} ExactFailsAt(xs: seq<Paise>, i: nat)
    requires i < |xs| && DoubleMinimum(xs, i)
    ensures ExactTotal(xs) == Failure(i)
    decreases |xs|
  {
    var k := |xs| - 1;
    if i < k {
      assert xs[..k][..i] == xs[..i];
      ExactFailsAt(xs[..k], i);
    }
  }

  lemma {:induction false} SumPassesDoubleMinimum(xs: seq<Paise>, i: nat)
    requires i < |xs| && DoubleMinimum(xs, i)
    ensures RunningTotal(xs) != Failure(i)
    decreases |xs|
  {
    var k := |xs| - 1;
    if i < k {
      assert xs[..k][..i] == xs[..i];
      SumPassesDoubleMinimum(xs[..k], i);
    } else {
      ExactSuccessAgrees(xs[..k]);
      AddExact(MIN, MIN);
    }
  }

  lemma {:induction false} ExactSuccessAgrees(xs: seq<Paise>)
    requires ExactTotal(xs).Success?
    ensures RunningTotal(xs) == ExactTotal(xs)
  {
    if xs != [] {
      ExactSuccessAgrees(xs[..|xs| - 1]);
      AddExact(ExactTotal(xs[..|xs| - 1]).value, xs[|xs| - 1]);
    }
  }
}
