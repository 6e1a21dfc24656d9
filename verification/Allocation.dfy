/**
  Splitting an amount across weights. Each line is rounded on its own and whatever the
  rounding left over goes to the largest weight, so that nothing is lost.
 */
module Allocation {
  import opened Wrappers
  import opened Int64
  import opened Money

  datatype Refusal = NoWeights | NegativeWeight | TooLarge | NothingToWeigh

  /** The weights added left to right, refused at the first negative one or overflow. */
  function WeightTotal(ws: seq<Paise>): Result<Paise, Refusal> {
    if ws == [] then Success(0)
    else
      var k := |ws| - 1;
      match WeightTotal(ws[..k])
      case Failure(e) => Failure(e)
      case Success(t) =>
        if ws[k] < 0 then Failure(NegativeWeight)
        else
          match Add(t, ws[k])
          case Success(s) => Success(s)
          case Failure(_) => Failure(TooLarge)
  }

  function Line(total: Paise, w: Paise, weightTotal: Paise): Paise
    requires weightTotal != 0
  {
    RoundHalfUp(Mul(total, w), weightTotal)
  }

  function Lines(total: Paise, ws: seq<Paise>, weightTotal: Paise): (parts: seq<Paise>)
    requires weightTotal != 0
    ensures |parts| == |ws|
  {
    seq(|ws|, i requires 0 <= i < |ws| => Line(total, ws[i], weightTotal))
  }

  /** The first index holding the greatest weight. */
  function Largest(ws: seq<Paise>): (k: nat)
    requires ws != []
    ensures k < |ws|
    ensures forall j :: 0 <= j < |ws| ==> ws[j] <= ws[k]
    ensures forall j :: 0 <= j < k ==> ws[j] < ws[k]
  {
    if |ws| == 1 then 0
    else
      var init := ws[..|ws| - 1];
      var k := Largest(init);
      if ws[|ws| - 1] > init[k] then |ws| - 1 else k
  }

  function Without(xs: seq<int>, k: nat): (rest: seq<int>)
    requires k < |xs|
    ensures |rest| == |xs| - 1
  {
    xs[..k] + xs[k + 1..]
  }

  function Zeros(n: nat): (parts: seq<Paise>)
    ensures |parts| == n && forall i :: 0 <= i < n ==> parts[i] == 0
  {
    seq(n, _ => 0)
  }

  predicate AllProductsFit(total: Paise, ws: seq<Paise>) {
    forall i :: 0 <= i < |ws| ==> InRange(total * ws[i])
  }

  /** What is handed out: every line but the largest as rounded, the largest the remainder. */
  function Settle(total: Paise, lines: seq<Paise>, largest: nat): (parts: seq<Paise>)
    requires largest < |lines|
    ensures |parts| == |lines|
  {
    lines[largest := Wrap(total - SumOf(Without(lines, largest)))]
  }

  function Allocation(total: Paise, ws: seq<Paise>): Result<seq<Paise>, Refusal> {
    if ws == [] then Failure(NoWeights)
    else
      match WeightTotal(ws)
      case Failure(e) => Failure(e)
      case Success(weightTotal) =>
        if weightTotal == 0 then
          if total != 0 then Failure(NothingToWeigh) else Success(Zeros(|ws|))
        else
          var lines := Lines(total, ws, weightTotal);
          if AllProductsFit(total, ws) && RunningTotal(lines).Success?
          then Success(Settle(total, lines, Largest(ws)))
          else Failure(TooLarge)
  }

  method TotalWeight(weights: seq<Paise>) returns (r: Result<Paise, Refusal>)
    ensures r == WeightTotal(weights)
  {
    var weightTotal: Paise := 0;
    for i := 0 to |weights|
      invariant WeightTotal(weights[..i]) == Success(weightTotal)
    {
      assert weights[..i + 1][..i] == weights[..i];
      if weights[i] < 0 {
        WeightTotalFailsEarly(weights, i + 1);
        return Failure(NegativeWeight);
      }
      match Add(weightTotal, weights[i]) {
        case Success(s) =>
          weightTotal := s;
        case Failure(_) =>
          WeightTotalFailsEarly(weights, i + 1);
          return Failure(TooLarge);
      }
    }
    assert weights[..|weights|] == weights;
    return Success(weightTotal);
  }

  method AllocateProportionally(total: Paise, weights: seq<Paise>) returns (r: Result<seq<Paise>, Refusal>)
    ensures r == Allocation(total, weights)
  {
    hide *;
    if |weights| == 0 {
      AllocationOfNoWeights(total);
      return Failure(NoWeights);
    }
    var weighed := TotalWeight(weights);
    if weighed.Failure? {
      AllocationRefused(total, weights);
      return Failure(weighed.error);
    }
    var weightTotal := weighed.value;
    var parts := new Paise[|weights|](_ => 0);
    if weightTotal == 0 {
      AllocationOfNothing(total, weights);
      if total != 0 {
        return Failure(NothingToWeigh);
      }
      assert parts[..] == Zeros(|weights|);
      return Success(parts[..]);
    }
    AllocationSettles(total, weights, weightTotal);
    ghost var lines := Lines(total, weights, weightTotal);
    var rounded := RoundLines(total, weights, weightTotal, parts);
    if rounded.Failure? {
      return Failure(TooLarge);
    }
    var (handedOut, largest) := rounded.value;
    RemainderIsWhatIsLeft(total, lines, handedOut, largest);
    SettleIsUpdate(total, lines, largest);
    var settled := Wrap(parts[largest] + Wrap(total - handedOut));
    parts[largest] := settled;
    assert parts[..] == lines[largest := settled];
    return Success(parts[..]);
  }

  /** The rounding loop: fills `parts` and finds what was handed out and the largest line. */
  method RoundLines(total: Paise, weights: seq<Paise>, weightTotal: Paise, parts: array<Paise>)
    returns (r: Result<(Paise, nat), Refusal>)
    requires weights != [] && parts.Length == |weights| && weightTotal != 0
    requires forall i :: 0 <= i < |weights| ==> 0 <= weights[i]
    modifies parts
    ensures r.Success? <==> AllProductsFit(total, weights) && RunningTotal(Lines(total, weights, weightTotal)).Success?
    ensures r.Success? ==>
      && parts[..] == Lines(total, weights, weightTotal)
      && RunningTotal(parts[..]) == Success(r.value.0)
      && r.value.1 == Largest(weights)
  {
    hide *;
    var handedOut: Paise, largest := 0, 0;
    ghost var lines := Lines(total, weights, weightTotal);
    RunningTotalOfNone(lines, weights, total);
    for i := 0 to |weights|
      invariant parts[..i] == lines[..i]
      invariant RunningTotal(lines[..i]) == Success(handedOut)
      invariant AllProductsFit(total, weights[..i])
      invariant largest == if i == 0 then 0 else Largest(weights[..i])
    {
      var w := weights[i];
      var scaled := Mul(total, w);
      ProductStep(total, weights, i);
      if w != 0 && Div(scaled, w) != total {
        return Failure(TooLarge);
      }
      parts[i] := RoundHalfUp(scaled, weightTotal);
      LineAt(total, weights, weightTotal, i);
      var sum := Add(handedOut, parts[i]);
      RunningTotalStep(lines, i, handedOut);
      if sum.Failure? {
        return Failure(TooLarge);
      }
      handedOut := sum.value;
      LargestStep(weights, i);
      if w > weights[largest] {
        largest := i;
      }
    }
    assert weights[..|weights|] == weights && lines[..|lines|] == lines;
    return Success((handedOut, largest));
  }

  lemma AllocationOfNoWeights(total: Paise)
    ensures Allocation(total, []) == Failure(NoWeights)
  {
  }

  lemma AllocationRefused(total: Paise, ws: seq<Paise>)
    requires ws != [] && WeightTotal(ws).Failure?
    ensures Allocation(total, ws) == Failure(WeightTotal(ws).error)
  {
  }

  lemma AllocationOfNothing(total: Paise, ws: seq<Paise>)
    requires ws != [] && WeightTotal(ws) == Success(0)
    ensures Allocation(total, ws) == if total != 0 then Failure(NothingToWeigh) else Success(Zeros(|ws|))
  {
  }

  lemma AllocationSettles(total: Paise, ws: seq<Paise>, weightTotal: Paise)
    requires ws != [] && WeightTotal(ws) == Success(weightTotal) && weightTotal != 0
    ensures forall i :: 0 <= i < |ws| ==> 0 <= ws[i]
    ensures
      var lines := Lines(total, ws, weightTotal);
      Allocation(total, ws) ==
        if AllProductsFit(total, ws) && RunningTotal(lines).Success?
        then Success(Settle(total, lines, Largest(ws)))
        else Failure(TooLarge)
  {
    WeightTotalExact(ws);
  }

  lemma RunningTotalOfNone(lines: seq<Paise>, ws: seq<Paise>, total: Paise)
    ensures RunningTotal(lines[..0]) == Success(0)
    ensures AllProductsFit(total, ws[..0])
  {
  }

  lemma ProductStep(total: Paise, ws: seq<Paise>, i: nat)
    requires i < |ws| && ws[i] >= 0
    requires AllProductsFit(total, ws[..i])
    ensures ws[i] != 0 && Div(Mul(total, ws[i]), ws[i]) != total ==> !AllProductsFit(total, ws)
    ensures ws[i] == 0 || Div(Mul(total, ws[i]), ws[i]) == total ==> AllProductsFit(total, ws[..i + 1])
  {
    if ws[i] != 0 {
      DivideBackExact(total, ws[i]);
    }
    hide Div, Mul;
    assert forall j :: 0 <= j < i ==> ws[..i][j] == ws[j];
  }

  lemma LineAt(total: Paise, ws: seq<Paise>, weightTotal: Paise, i: nat)
    requires i < |ws| && weightTotal != 0
    ensures Lines(total, ws, weightTotal)[i] == RoundHalfUp(Mul(total, ws[i]), weightTotal)
  {
  }

  lemma RunningTotalStep(xs: seq<Paise>, i: nat, t: Paise)
    requires i < |xs| && RunningTotal(xs[..i]) == Success(t)
    ensures Add(t, xs[i]).Failure? ==> RunningTotal(xs).Failure?
    ensures Add(t, xs[i]).Success? ==> RunningTotal(xs[..i + 1]) == Success(Add(t, xs[i]).value)
  {
    assert xs[..i + 1][..i] == xs[..i];
    if Add(t, xs[i]).Failure? {
      RunningTotalFailsEarly(xs, i + 1);
    }
  }

  lemma LargestStep(ws: seq<Paise>, i: nat)
    requires i < |ws|
    ensures Largest(ws[..i + 1]) ==
      if i == 0 then 0 else if ws[i] > ws[Largest(ws[..i])] then i else Largest(ws[..i])
  {
    assert ws[..i + 1][..i] == ws[..i];
  }

  lemma SettleIsUpdate(total: Paise, lines: seq<Paise>, k: nat)
    requires k < |lines|
    ensures Settle(total, lines, k) == lines[k := Wrap(total - SumOf(Without(lines, k)))]
  {
  }

  lemma {:induction false} WeightTotalFailsEarly(ws: seq<Paise>, n: nat)
    requires n <= |ws| && WeightTotal(ws[..n]).Failure?
    ensures WeightTotal(ws) == WeightTotal(ws[..n])
    decreases |ws|
  {
    if n < |ws| {
      var k := |ws| - 1;
      assert ws[..k][..n] == ws[..n];
      WeightTotalFailsEarly(ws[..k], n);
    } else {
      assert ws[..n] == ws;
    }
  }

  lemma {:induction false} WeightTotalExact(ws: seq<Paise>)
    ensures WeightTotal(ws).Success? ==>
      WeightTotal(ws).value == SumOf(ws) >= 0 && forall i :: 0 <= i < |ws| ==> 0 <= ws[i] <= SumOf(ws)
    ensures (forall i :: 0 <= i < |ws| ==> 0 <= ws[i]) ==>
      SumOf(ws) >= 0 && (SumOf(ws) <= MAX ==> WeightTotal(ws).Success?)
  {
    if ws != [] {
      var k := |ws| - 1;
      WeightTotalExact(ws[..k]);
      assert forall i :: 0 <= i < k ==> ws[..k][i] == ws[i];
    }
  }

  lemma WrapCongruent(x: int, y: int)
    requires Congruent(x, y)
    ensures Wrap(x) == Wrap(y)
  {
  }

  /** However the additions wrapped, a running total agrees with the true sum modulo 2^64. */
  lemma {:induction false} RunningTotalCongruent(xs: seq<Paise>)
    ensures RunningTotal(xs).Success? ==> Congruent(SumOf(xs), RunningTotal(xs).value)
  {
    if xs != [] {
      RunningTotalCongruent(xs[..|xs| - 1]);
    }
  }

  lemma {:induction false} SumWithout(xs: seq<int>, k: nat)
    requires k < |xs|
    ensures SumOf(Without(xs, k)) == SumOf(xs) - xs[k]
    decreases |xs|
  {
    var last := |xs| - 1;
    if k == last {
      assert Without(xs, k) == xs[..last];
    } else {
      SumWithout(xs[..last], k);
      assert Without(xs, k)[..last - 1] == Without(xs[..last], k);
    }
  }

  lemma RemainderIsWhatIsLeft(total: Paise, lines: seq<Paise>, handedOut: Paise, k: nat)
    requires k < |lines| && RunningTotal(lines) == Success(handedOut)
    ensures Wrap(lines[k] + Wrap(total - handedOut)) == Wrap(total - SumOf(Without(lines, k)))
  {
    hide *;
    RunningTotalCongruent(lines);
    SumWithout(lines, k);
    CongruentRemainder(lines[k], total, handedOut, SumOf(lines), Wrap(total - handedOut));
    assert total - (SumOf(lines) - lines[k]) == total - SumOf(Without(lines, k));
    WrapCongruent(lines[k] + Wrap(total - handedOut), total - SumOf(Without(lines, k)));
  }

  lemma CongruentRemainder(line: int, total: int, handedOut: int, sum: int, left: int)
    requires Congruent(sum, handedOut) && Congruent(total - handedOut, left)
    ensures Congruent(line + left, total - (sum - line))
  {
    MultiplesSubtract(sum - handedOut, total - handedOut - left);
  }

  lemma MultiplesSubtract(a: int, b: int)
    requires a % MODULUS == 0 && b % MODULUS == 0
    ensures (a - b) % MODULUS == 0
  {
    var i, j := a / MODULUS, b / MODULUS;
    assert a - b == MODULUS * (i - j);
  }

  // ----- nothing is lost

  /**
    For every input the allocator accepts, the parts add up to the total in int64
    arithmetic: no combination of roundings and wraps loses a paisa modulo 2^64.
   */
  lemma AllocationKeepsTotal(total: Paise, ws: seq<Paise>)
    requires Allocation(total, ws).Success?
    ensures |Allocation(total, ws).value| == |ws|
    ensures Wrap(SumOf(Allocation(total, ws).value)) == total
  {
    WeightTotalExact(ws);
    var weightTotal := WeightTotal(ws).value;
    if weightTotal == 0 {
      SumOfZeros(|ws|);
    } else {
      SettleKeepsTotal(total, Lines(total, ws, weightTotal), Largest(ws));
    }
  }

  lemma {:induction false} SumOfZeros(n: nat)
    ensures SumOf(Zeros(n)) == 0
  {
    if n > 0 {
      assert Zeros(n)[..n - 1] == Zeros(n - 1);
      SumOfZeros(n - 1);
    }
  }

  lemma SumOfSettled(total: Paise, lines: seq<Paise>, k: nat)
    requires k < |lines|
    ensures SumOf(Settle(total, lines, k)) == SumOf(Without(lines, k)) + Wrap(total - SumOf(Without(lines, k)))
  {
    var parts := Settle(total, lines, k);
    assert Without(parts, k) == Without(lines, k);
    SumWithout(parts, k);
  }

  lemma SettleKeepsTotal(total: Paise, lines: seq<Paise>, k: nat)
    requires k < |lines|
    ensures Wrap(SumOf(Settle(total, lines, k))) == total
  {
    var rest := SumOf(Without(lines, k));
    SumOfSettled(total, lines, k);
    CongruentRemainder(rest, total, rest, rest, Wrap(total - rest));
    WrapCongruent(rest + Wrap(total - rest), total);
  }

  // ----- how fair each part is

  function Positives(ws: seq<int>): nat {
    if ws == [] then 0
    else Positives(ws[..|ws| - 1]) + if ws[|ws| - 1] > 0 then 1 else 0
  }

  /** The product can be rounded without wrapping. */
  predicate Roundable(total: Paise, w: Paise, weightTotal: Paise) {
    Abs(total * w) + weightTotal / 2 <= MAX
  }

  predicate AllRoundable(total: Paise, ws: seq<Paise>, weightTotal: Paise) {
    forall i :: 0 <= i < |ws| ==> Roundable(total, ws[i], weightTotal)
  }

  lemma RoundableLine(total: Paise, w: Paise, weightTotal: Paise)
    requires weightTotal > 0 && Roundable(total, w, weightTotal)
    ensures Line(total, w, weightTotal) == Rounded(total * w, weightTotal)
    ensures IsHalfAway(Line(total, w, weightTotal), total * w, weightTotal)
    ensures w == 0 ==> Line(total, w, weightTotal) == 0
  {
    hide Rounded, RoundHalfUp, IsHalfAway, Line;
    LineIsRoundHalfUp(total, w, weightTotal);
    RoundHalfUpIsRounded(total * w, weightTotal);
    RoundedIsHalfAway(total * w, weightTotal);
    if w == 0 {
      RoundedZero(weightTotal);
    }
  }

  lemma LineIsRoundHalfUp(total: Paise, w: Paise, weightTotal: Paise)
    requires weightTotal > 0 && InRange(total * w)
    ensures Line(total, w, weightTotal) == RoundHalfUp(total * w, weightTotal)
  {
    hide RoundHalfUp;
  }

  lemma RoundedZero(den: int)
    requires den > 0
    ensures Rounded(0, den) == 0
  {
    FloorUnique(den / 2, den, 0);
  }

  /** Twice the error of one line, in units of 1/weightTotal paise. */
  lemma LineError(total: Paise, w: Paise, weightTotal: Paise)
    requires weightTotal > 0 && w >= 0 && Roundable(total, w, weightTotal)
    ensures Abs(2 * (weightTotal * Line(total, w, weightTotal)) - 2 * (total * w))
         <= weightTotal * if w > 0 then 1 else 0
  {
    RoundableLine(total, w, weightTotal);
    RoundedWithinHalf(total * w, weightTotal);
    hide Line, Rounded, IsHalfAway, Roundable;
  }

  lemma {:induction false} LinesError(total: Paise, ws: seq<Paise>, weightTotal: Paise)
    requires weightTotal > 0 && AllRoundable(total, ws, weightTotal)
    requires forall i :: 0 <= i < |ws| ==> ws[i] >= 0
    ensures Abs(2 * (weightTotal * SumOf(Lines(total, ws, weightTotal))) - 2 * (total * SumOf(ws)))
         <= weightTotal * Positives(ws)
  {
    hide Line, Roundable;
    if ws != [] {
      var k := |ws| - 1;
      var init := ws[..k];
      var lines := Lines(total, ws, weightTotal);
      LinesError(total, init, weightTotal);
      assert lines[..k] == Lines(total, init, weightTotal);
      LineError(total, ws[k], weightTotal);
      ErrorStep(weightTotal, total, SumOf(lines[..k]), lines[k], SumOf(init), ws[k],
                Positives(init), if ws[k] > 0 then 1 else 0);
    }
  }

  lemma ErrorStep(wt: int, total: int, lines: int, line: int, weights: int, w: int, m: int, d: int)
    requires Abs(2 * (wt * lines) - 2 * (total * weights)) <= wt * m
    requires Abs(2 * (wt * line) - 2 * (total * w)) <= wt * d
    ensures Abs(2 * (wt * (lines + line)) - 2 * (total * (weights + w))) <= wt * (m + d)
  {
    assert wt * (lines + line) == wt * lines + wt * line;
    assert total * (weights + w) == total * weights + total * w;
    assert wt * (m + d) == wt * m + wt * d;
  }

  lemma {:induction false} PositivesWithout(ws: seq<int>, k: nat)
    requires k < |ws|
    ensures Positives(Without(ws, k)) == Positives(ws) - if ws[k] > 0 then 1 else 0
    decreases |ws|
  {
    var last := |ws| - 1;
    if k == last {
      assert Without(ws, k) == ws[..last];
    } else {
      PositivesWithout(ws[..last], k);
      assert Without(ws, k)[..last - 1] == Without(ws[..last], k);
    }
  }

  /** m positive weights, none above `top`, lie between m and m * top. */
  lemma {:induction false} WeightsAgainstCount(ws: seq<int>, top: int)
    requires forall i :: 0 <= i < |ws| ==> 0 <= ws[i] <= top
    ensures Positives(ws) <= SumOf(ws) <= Positives(ws) * top
  {
    if ws != [] {
      var k := |ws| - 1;
      WeightsAgainstCount(ws[..k], top);
      assert Positives(ws) * top == Positives(ws[..k]) * top + (Positives(ws) - Positives(ws[..k])) * top;
    }
  }

  /** Every line but the largest. */
  function Others(ws: seq<Paise>): seq<Paise>
    requires ws != []
  {
    var k := Largest(ws);
    ws[..k] + ws[k + 1..]
  }

  predicate Weighs(ws: seq<Paise>, weightTotal: Paise) {
    && ws != [] && weightTotal > 0 && SumOf(ws) == weightTotal
    && forall i :: 0 <= i < |ws| ==> 0 <= ws[i]
  }

  /** What the largest line is left with. */
  function Remainder(total: Paise, ws: seq<Paise>, weightTotal: Paise): int
    requires weightTotal != 0 && ws != []
  {
    total - SumOf(Without(Lines(total, ws, weightTotal), Largest(ws)))
  }

  lemma LargestIsPositive(ws: seq<Paise>, weightTotal: Paise)
    requires Weighs(ws, weightTotal)
    ensures ws[Largest(ws)] > 0
    ensures 1 <= Positives(ws) <= weightTotal <= Positives(ws) * ws[Largest(ws)]
    ensures ws[Largest(ws)] <= weightTotal
  {
    var top := ws[Largest(ws)];
    WeightsAgainstCount(ws, top);
    WeightTotalExact(ws);
  }

  /** The remainder is within (m - 1)/2 paise of the largest line's exact share. */
  lemma RemainderError(total: Paise, ws: seq<Paise>, weightTotal: Paise)
    requires Weighs(ws, weightTotal) && AllRoundable(total, Others(ws), weightTotal)
    ensures Abs(2 * (weightTotal * Remainder(total, ws, weightTotal)) - 2 * (total * ws[Largest(ws)]))
         <= weightTotal * (Positives(ws) - 1)
  {
    hide SumOf, Positives, Lines, Abs, Largest, Others, Remainder, AllRoundable;
    OthersLines(total, ws, weightTotal);
    OthersCounted(ws, weightTotal);
    LinesError(total, Others(ws), weightTotal);
    FlipError(weightTotal, total, SumOf(Lines(total, Others(ws), weightTotal)), ws[Largest(ws)], Positives(ws) - 1);
  }

  lemma OthersLines(total: Paise, ws: seq<Paise>, weightTotal: Paise)
    requires ws != [] && weightTotal != 0
    ensures Remainder(total, ws, weightTotal) == total - SumOf(Lines(total, Others(ws), weightTotal))
  {
    hide Line, SumOf;
    assert Without(Lines(total, ws, weightTotal), Largest(ws)) == Lines(total, Others(ws), weightTotal);
  }

  lemma OthersCounted(ws: seq<Paise>, weightTotal: Paise)
    requires Weighs(ws, weightTotal)
    ensures SumOf(Others(ws)) == weightTotal - ws[Largest(ws)]
    ensures Positives(Others(ws)) == Positives(ws) - 1
    ensures forall i :: 0 <= i < |Others(ws)| ==> Others(ws)[i] >= 0
  {
    assert Others(ws) == Without(ws, Largest(ws));
    LargestIsPositive(ws, weightTotal);
    PositivesWithout(ws, Largest(ws));
    SumWithout(ws, Largest(ws));
  }

  lemma FlipError(wt: int, total: int, rest: int, w: int, m: int)
    requires Abs(2 * (wt * rest) - 2 * (total * (wt - w))) <= wt * m
    ensures Abs(2 * (wt * (total - rest)) - 2 * (total * w)) <= wt * m
  {
    assert wt * (total - rest) == wt * total - wt * rest;
    assert total * (wt - w) == wt * total - total * w;
  }

  /** Some line other than the largest is positive, so the total itself can be rounded. */
  lemma {:induction false} TotalIsRoundable(total: Paise, ws: seq<Paise>, weightTotal: Paise)
    requires weightTotal > 0 && AllRoundable(total, ws, weightTotal) && Positives(ws) >= 1
    requires forall i :: 0 <= i < |ws| ==> ws[i] >= 0
    ensures Abs(total) + weightTotal / 2 <= MAX
  {
    var k := |ws| - 1;
    if ws[k] > 0 {
      assert Roundable(total, ws[k], weightTotal);
      MulMonotone(1, ws[k], Abs(total));
      assert Abs(total * ws[k]) == Abs(total) * ws[k] by { MagnitudeOfProduct(total, ws[k]); }
    } else {
      assert AllRoundable(total, ws[..k], weightTotal);
      TotalIsRoundable(total, ws[..k], weightTotal);
    }
  }

  lemma MagnitudeOfProduct(a: int, b: int)
    requires b >= 0
    ensures Abs(a * b) == Abs(a) * b
  {
    MulMonotone(0, Abs(a), b);
    if a < 0 { assert a * b == -(-a * b); }
  }

  lemma RemainderFits(total: Paise, ws: seq<Paise>, weightTotal: Paise)
    requires Weighs(ws, weightTotal) && AllRoundable(total, Others(ws), weightTotal)
    ensures InRange(Remainder(total, ws, weightTotal))
  {
    hide Remainder, Roundable, Positives, Largest, Others;
    var m := Positives(ws);
    RemainderError(total, ws, weightTotal);
    LargestIsPositive(ws, weightTotal);
    OthersCounted(ws, weightTotal);
    if m == 1 {
      OnlyOneWeight(total, ws, weightTotal);
    } else {
      TotalIsRoundable(total, Others(ws), weightTotal);
      SumMagnitude(weightTotal, Remainder(total, ws, weightTotal), total, ws[Largest(ws)], m - 1);
    }
  }

  lemma OnlyOneWeight(total: Paise, ws: seq<Paise>, weightTotal: Paise)
    requires Weighs(ws, weightTotal) && AllRoundable(total, Others(ws), weightTotal)
    requires Positives(ws) == 1
    ensures Remainder(total, ws, weightTotal) == total
  {
    hide SumOf, Positives, Lines, Abs, Largest, Others, Remainder, AllRoundable;
    var others := Others(ws);
    OthersCounted(ws, weightTotal);
    OthersLines(total, ws, weightTotal);
    LinesError(total, others, weightTotal);
    NothingElse(others);
    NoError(weightTotal, SumOf(Lines(total, others, weightTotal)), total, SumOf(others), Positives(others));
  }

  lemma NothingElse(ws: seq<int>)
    requires Positives(ws) == 0
    requires forall i :: 0 <= i < |ws| ==> ws[i] >= 0
    ensures SumOf(ws) == 0
  {
    if ws != [] {
      NothingElse(ws[..|ws| - 1]);
    }
  }

  lemma NoError(wt: int, lines: int, total: int, weights: int, m: int)
    requires wt > 0 && m == 0 && weights == 0
    requires Abs(2 * (wt * lines) - 2 * (total * weights)) <= wt * m
    ensures lines == 0
  {
    assert total * weights == 0 && wt * m == 0;
    SmallMultiple(lines, wt);
  }

  lemma CancelFactor(f: int, a: int, b: int)
    requires f > 0 && f * a <= f * b
    ensures a <= b
  {
    if b < a {
      MulMonotone(1, a - b, f);
    }
  }

  /** The least total for which m positive weights can leave no part negative. */
  function EnoughFor(m: int): int {
    (m - 1) * ((m - 2) / 2)
  }

  lemma LineMonotone(total: Paise, w: Paise, top: Paise, weightTotal: Paise)
    requires weightTotal > 0 && 0 <= w <= top && total >= 0
    requires Roundable(total, w, weightTotal) && Roundable(total, top, weightTotal)
    ensures 0 <= Line(total, w, weightTotal) <= Line(total, top, weightTotal)
  {
    RoundableLine(total, w, weightTotal);
    RoundableLine(total, top, weightTotal);
    MulMonotone(0, w, total);
    MulMonotone(w, top, total);
    hide Line, RoundHalfUp, IsHalfAway, Roundable;
    FloorMonotone(total * w + weightTotal / 2, total * top + weightTotal / 2, weightTotal);
  }

  /** No line is above that of the largest weight, and those of zero weights are zero. */
  lemma {:induction false} LinesBelow(total: Paise, ws: seq<Paise>, top: Paise, weightTotal: Paise)
    requires weightTotal > 0 && total >= 0 && forall i :: 0 <= i < |ws| ==> 0 <= ws[i] <= top
    requires AllRoundable(total, ws, weightTotal) && Roundable(total, top, weightTotal)
    ensures SumOf(Lines(total, ws, weightTotal)) <= Positives(ws) * Line(total, top, weightTotal)
  {
    hide Line, Roundable;
    if ws != [] {
      var k := |ws| - 1;
      var lines, most := Lines(total, ws, weightTotal), Line(total, top, weightTotal);
      LinesBelow(total, ws[..k], top, weightTotal);
      assert lines[..k] == Lines(total, ws[..k], weightTotal);
      LineMonotone(total, ws[k], top, weightTotal);
      RoundableLine(total, ws[k], weightTotal);
      OneMore(Positives(ws[..k]), most);
    }
  }

  lemma OneMore(n: int, x: int)
    ensures (n + 1) * x == n * x + x
  {
  }

  /** A remainder within (m - 1)/2 of a share that rounds to `most` is at least `most` - m/2. */
  lemma RemainderAgainstLine(wt: int, x: int, share: int, most: int, m: int)
    requires wt > 0
    requires Abs(2 * (wt * x) - 2 * share) <= wt * (m - 1)
    requires Abs(2 * (wt * most) - 2 * share) <= wt
    ensures 2 * most - m <= 2 * x
  {
    OneMore(m - 1, wt);
    assert wt * (2 * x) == 2 * (wt * x);
    assert wt * (2 * most - m) == 2 * (wt * most) - wt * m;
    CancelFactor(wt, 2 * most - m, 2 * x);
  }

  /** What is left is what the others leave at most, or close to a large share. */
  lemma EnoughIsLeft(x: int, total: int, rest: int, most: int, m: int)
    requires m >= 1 && x == total - rest && rest <= (m - 1) * most && 2 * most - m <= 2 * x
    requires total >= EnoughFor(m)
    ensures x >= 0
  {
    if most <= (m - 2) / 2 {
      MulMonotone(most, (m - 2) / 2, m - 1);
    }
  }

  lemma EnoughIsNotNegative(m: int)
    requires m >= 1
    ensures EnoughFor(m) >= 0
  {
    if m >= 2 {
      MulMonotone(0, (m - 2) / 2, m - 1);
    }
  }

  lemma RemainderSign(total: Paise, ws: seq<Paise>, weightTotal: Paise)
    requires Weighs(ws, weightTotal) && AllRoundable(total, ws, weightTotal)
    requires AllRoundable(total, Others(ws), weightTotal) && total >= EnoughFor(Positives(ws)) && total >= 0
    ensures Remainder(total, ws, weightTotal) >= 0
  {
    hide Largest, SumOf, Lines, Positives, EnoughFor, Remainder, Others, Line, Roundable;
    LargestIsPositive(ws, weightTotal);
    assert Roundable(total, ws[Largest(ws)], weightTotal);
    OthersBelow(total, ws, weightTotal);
    RemainderNearLine(total, ws, weightTotal);
    hide Weighs, AllRoundable;
    var x := Remainder(total, ws, weightTotal);
    EnoughIsLeft(x, total, total - x, Line(total, ws[Largest(ws)], weightTotal), Positives(ws));
  }

  lemma RemainderNearLine(total: Paise, ws: seq<Paise>, weightTotal: Paise)
    requires Weighs(ws, weightTotal) && AllRoundable(total, Others(ws), weightTotal)
    requires ws[Largest(ws)] > 0 && Roundable(total, ws[Largest(ws)], weightTotal)
    ensures 2 * Line(total, ws[Largest(ws)], weightTotal) - Positives(ws) <= 2 * Remainder(total, ws, weightTotal)
  {
    hide Largest, Roundable, Line, SumOf, Positives, Remainder, AllRoundable, Others, Abs;
    var top, x := ws[Largest(ws)], Remainder(total, ws, weightTotal);
    RemainderError(total, ws, weightTotal);
    LineError(total, top, weightTotal);
    RemainderAgainstLine(weightTotal, x, total * top, Line(total, top, weightTotal), Positives(ws));
  }

  lemma OthersBelow(total: Paise, ws: seq<Paise>, weightTotal: Paise)
    requires Weighs(ws, weightTotal) && AllRoundable(total, Others(ws), weightTotal) && total >= 0
    requires Roundable(total, ws[Largest(ws)], weightTotal)
    ensures total - Remainder(total, ws, weightTotal)
         <= (Positives(ws) - 1) * Line(total, ws[Largest(ws)], weightTotal)
  {
    assert forall i :: 0 <= i < |Others(ws)| ==> Others(ws)[i] <= ws[Largest(ws)];
    hide Largest, Roundable, Line, SumOf, Lines, Positives, Remainder, Others, AllRoundable;
    OthersCounted(ws, weightTotal);
    OthersLines(total, ws, weightTotal);
    LinesBelow(total, Others(ws), ws[Largest(ws)], weightTotal);
  }

  /** What the source promises of a split, in terms of the inputs and the parts alone. */
  predicate FairSplit(total: Paise, ws: seq<Paise>, weightTotal: Paise, parts: seq<Paise>)
    requires ws != []
  {
    && |parts| == |ws|
    && SumOf(parts) == total
    && forall i :: 0 <= i < |ws| && i != Largest(ws) ==> IsHalfAway(parts[i], total * ws[i], weightTotal)
  }

  lemma OthersAreLines(total: Paise, ws: seq<Paise>, weightTotal: Paise)
    requires ws != [] && weightTotal != 0
    ensures
      var k, parts := Largest(ws), Settle(total, Lines(total, ws, weightTotal), Largest(ws));
      && |parts| == |ws|
      && (forall i :: 0 <= i < |ws| && i != k ==> parts[i] == Line(total, ws[i], weightTotal))
      && parts[k] == Wrap(Remainder(total, ws, weightTotal))
      && SumOf(parts) == total - Remainder(total, ws, weightTotal) + parts[k]
  {
    hide SumOf, Line, Wrap, Without;
    SumOfSettled(total, Lines(total, ws, weightTotal), Largest(ws));
  }

  lemma InOthers(ws: seq<Paise>, i: nat)
    requires i < |ws| && i != Largest(ws)
    ensures ws[i] in Others(ws)
  {
    hide Largest;
    assert ws[i] == Others(ws)[if i < Largest(ws) then i else i - 1];
  }

  lemma FromOthers(ws: seq<Paise>, i: nat)
    requires ws != [] && i < |Others(ws)|
    ensures exists j :: 0 <= j < |ws| && j != Largest(ws) && ws[j] == Others(ws)[i]
  {
    hide Largest;
    var j := if i < Largest(ws) then i else i + 1;
    assert ws[j] == Others(ws)[i];
  }

  /** The i-th line, other than the largest, can be rounded: the form of the condition per line. */
  lemma OthersPerLine(total: Paise, ws: seq<Paise>, weightTotal: Paise)
    requires ws != []
    ensures AllRoundable(total, Others(ws), weightTotal)
       <==> forall i :: 0 <= i < |ws| && i != Largest(ws) ==> Roundable(total, ws[i], weightTotal)
  {
    hide Roundable, Largest, Others;
    if AllRoundable(total, Others(ws), weightTotal) {
      forall i | 0 <= i < |ws| && i != Largest(ws) ensures Roundable(total, ws[i], weightTotal) {
        InOthers(ws, i);
      }
    }
    if forall i :: 0 <= i < |ws| && i != Largest(ws) ==> Roundable(total, ws[i], weightTotal) {
      forall i | 0 <= i < |Others(ws)| ensures Roundable(total, Others(ws)[i], weightTotal) {
        FromOthers(ws, i);
      }
    }
  }

  /**
    A line rounds correctly exactly when it is `Roundable`; the freak case of RoundHalfUp
    needs weightTotal == 1, where every other weight is zero.
   */
  lemma LineIsHalfAwayIff(total: Paise, ws: seq<Paise>, weightTotal: Paise, i: nat)
    requires Weighs(ws, weightTotal) && AllProductsFit(total, ws)
    requires i < |ws| && i != Largest(ws)
    ensures IsHalfAway(Line(total, ws[i], weightTotal), total * ws[i], weightTotal)
       <==> Roundable(total, ws[i], weightTotal)
  {
    hide IsHalfAway, RoundHalfUp, Line, Largest;
    LineIsRoundHalfUp(total, ws[i], weightTotal);
    RoundHalfUpExact(total * ws[i], weightTotal);
    if weightTotal == 1 {
      OtherWeightBound(ws, weightTotal, i);
    }
  }

  lemma OtherWeightBound(ws: seq<Paise>, weightTotal: Paise, i: nat)
    requires Weighs(ws, weightTotal) && i < |ws| && i != Largest(ws)
    ensures 0 <= ws[i] < weightTotal
  {
    LargestIsPositive(ws, weightTotal);
    OthersCounted(ws, weightTotal);
    InOthers(ws, i);
    hide Largest, Others, SumOf, Positives;
    WeightTotalExact(Others(ws));
  }

  /**
    An accepted split is fair exactly when every line but the largest can be rounded without
    wrapping: a condition on the total and the weights a caller can check beforehand. (The
    largest line is not in the condition because its own rounding is thrown away.)
   */
  lemma FairIff(total: Paise, ws: seq<Paise>, weightTotal: Paise)
    requires Weighs(ws, weightTotal) && Allocation(total, ws).Success?
    ensures FairSplit(total, ws, weightTotal, Allocation(total, ws).value)
       <==> forall i :: 0 <= i < |ws| && i != Largest(ws) ==> Roundable(total, ws[i], weightTotal)
  {
    var k, parts := Largest(ws), Allocation(total, ws).value;
    AcceptedSplit(total, ws, weightTotal);
    OthersAreLines(total, ws, weightTotal);
    OthersPerLine(total, ws, weightTotal);
    if AllRoundable(total, Others(ws), weightTotal) {
      RemainderFits(total, ws, weightTotal);
    }
    hide Allocation, Roundable, Remainder, Others, Largest, AllRoundable, IsHalfAway, Line, SumOf, Lines, Weighs,
         InRange;
    forall i | 0 <= i < |ws| && i != k
      ensures IsHalfAway(parts[i], total * ws[i], weightTotal) <==> Roundable(total, ws[i], weightTotal)
    {
      LineIsHalfAwayIff(total, ws, weightTotal, i);
    }
  }

  lemma AcceptedSplit(total: Paise, ws: seq<Paise>, weightTotal: Paise)
    requires Weighs(ws, weightTotal) && Allocation(total, ws).Success?
    ensures Allocation(total, ws).value == Settle(total, Lines(total, ws, weightTotal), Largest(ws))
    ensures AllProductsFit(total, ws)
  {
    WeightTotalExact(ws);
  }

  /**
    The law of the allocator. While |total| * weight + weightTotal/2 fits for every weight,
    it accepts, the parts add up to the total exactly, and every line but the largest is its
    share rounded half away from zero.
   */
  lemma AllocationIsFair(total: Paise, ws: seq<Paise>, weightTotal: Paise)
    requires Weighs(ws, weightTotal) && AllRoundable(total, ws, weightTotal)
    ensures Allocation(total, ws).Success?
    ensures FairSplit(total, ws, weightTotal, Allocation(total, ws).value)
  {
    AllocationAccepts(total, ws, weightTotal);
    FairIff(total, ws, weightTotal);
  }

  /**
    The largest line is within (m - 1)/2 paise of its exact share for m positive weights,
    zero weights get nothing, and no part is negative from a total of EnoughFor(m) on.
   */
  lemma AllocationBounds(total: Paise, ws: seq<Paise>, weightTotal: Paise)
    requires Weighs(ws, weightTotal) && AllRoundable(total, ws, weightTotal)
    ensures Allocation(total, ws).Success?
    ensures
      var parts, k, m: int := Allocation(total, ws).value, Largest(ws), Positives(ws);
      && Abs(2 * (weightTotal * parts[k]) - 2 * (total * ws[k])) <= weightTotal * (m - 1)
      && (forall i :: 0 <= i < |ws| && ws[i] == 0 ==> parts[i] == 0)
      && (total >= EnoughFor(m) ==> forall i :: 0 <= i < |ws| ==> parts[i] >= 0)
  {
    AllocationAccepts(total, ws, weightTotal);
    LargestPart(total, ws, weightTotal);
    LargestIsPositive(ws, weightTotal);
    EnoughIsNotNegative(Positives(ws));
    forall i | 0 <= i < |ws| && i != Largest(ws)
      ensures ws[i] == 0 ==> Allocation(total, ws).value[i] == 0
      ensures total >= 0 ==> Allocation(total, ws).value[i] >= 0
    {
      OtherPart(total, ws, weightTotal, i);
    }
    hide Allocation, Largest, Positives, Abs, AllRoundable, EnoughFor;
  }

  lemma OtherPart(total: Paise, ws: seq<Paise>, weightTotal: Paise, i: nat)
    requires Weighs(ws, weightTotal) && AllRoundable(total, ws, weightTotal)
    requires Allocation(total, ws).Success? && i < |ws| && i != Largest(ws)
    ensures ws[i] == 0 ==> Allocation(total, ws).value[i] == 0
    ensures total >= 0 ==> Allocation(total, ws).value[i] >= 0
  {
    hide Allocation, Largest, Line, SumOf, Lines, Settle, Wrap, Remainder;
    AcceptedSplit(total, ws, weightTotal);
    OthersAreLines(total, ws, weightTotal);
    RoundableLine(total, ws[i], weightTotal);
    LineSign(total, ws[i], weightTotal);
  }

  lemma LargestPart(total: Paise, ws: seq<Paise>, weightTotal: Paise)
    requires Weighs(ws, weightTotal) && AllRoundable(total, ws, weightTotal)
    requires Allocation(total, ws).Success?
    ensures ws[Largest(ws)] > 0
    ensures
      var part, k, m: int := Allocation(total, ws).value[Largest(ws)], Largest(ws), Positives(ws);
      && Abs(2 * (weightTotal * part) - 2 * (total * ws[k])) <= weightTotal * (m - 1)
      && (total >= EnoughFor(m) ==> part >= 0)
  {
    hide Allocation, Largest, Positives, Abs, Remainder, AllRoundable, Others;
    LargestPartIsRemainder(total, ws, weightTotal);
    var part, k, m: int := Allocation(total, ws).value[Largest(ws)], Largest(ws), Positives(ws);
    RemainderError(total, ws, weightTotal);
    LargestIsPositive(ws, weightTotal);
    if total >= EnoughFor(m) {
      EnoughIsNotNegative(m);
      RemainderSign(total, ws, weightTotal);
    }
  }

  lemma LargestPartIsRemainder(total: Paise, ws: seq<Paise>, weightTotal: Paise)
    requires Weighs(ws, weightTotal) && AllRoundable(total, ws, weightTotal)
    requires Allocation(total, ws).Success?
    ensures AllRoundable(total, Others(ws), weightTotal)
    ensures |Allocation(total, ws).value| == |ws|
    ensures Allocation(total, ws).value[Largest(ws)] == Remainder(total, ws, weightTotal)
  {
    OthersPerLine(total, ws, weightTotal);
    hide Allocation, Largest, SumOf, Lines, Settle, Remainder, Others, Roundable;
    AcceptedSplit(total, ws, weightTotal);
    OthersAreLines(total, ws, weightTotal);
    RemainderFits(total, ws, weightTotal);
  }

  lemma LineSign(total: Paise, w: Paise, weightTotal: Paise)
    requires weightTotal > 0 && w >= 0 && Roundable(total, w, weightTotal)
    ensures total >= 0 ==> Line(total, w, weightTotal) >= 0
  {
    RoundableLine(total, w, weightTotal);
    if total >= 0 {
      MulMonotone(0, w, total);
      FloorBounds(total * w + weightTotal / 2, weightTotal);
    }
  }

  /** No product and no prefix of the rounded lines leaves the range. */
  lemma AllocationAccepts(total: Paise, ws: seq<Paise>, weightTotal: Paise)
    requires Weighs(ws, weightTotal) && AllRoundable(total, ws, weightTotal)
    ensures Allocation(total, ws).Success?
  {
    var lines := Lines(total, ws, weightTotal);
    WeightTotalExact(ws);
    forall n | 0 <= n <= |ws|
      ensures InRange(SumOf(lines[..n]))
    {
      PrefixFits(total, ws, weightTotal, n);
    }
    ExactTotalWhenAllFit(lines);
    ExactSuccessAgrees(lines);
    assert AllProductsFit(total, ws) by {
      forall i | 0 <= i < |ws| ensures InRange(total * ws[i]) {
        assert Roundable(total, ws[i], weightTotal);
      }
    }
  }

  lemma ExactTotalWhenAllFit(xs: seq<Paise>)
    requires forall n :: 0 <= n <= |xs| ==> InRange(SumOf(xs[..n]))
    ensures ExactTotal(xs).Success?
  {
    ExactTotalIsSum(xs);
    if ExactTotal(xs).Failure? {
      var n := ExactTotal(xs).error;
      ExactTotalFirstExit(xs, n);
    }
  }

  lemma WithinMagnitude(x: int)
    requires Abs(x) <= MAX
    ensures InRange(x)
  {
  }

  lemma {:induction false} PositivesAtMostSum(ws: seq<int>)
    requires forall i :: 0 <= i < |ws| ==> 0 <= ws[i]
    ensures 0 <= Positives(ws) <= SumOf(ws)
  {
    if ws != [] {
      PositivesAtMostSum(ws[..|ws| - 1]);
    }
  }

  lemma PrefixFits(total: Paise, ws: seq<Paise>, weightTotal: Paise, n: nat)
    requires Weighs(ws, weightTotal) && AllRoundable(total, ws, weightTotal) && n <= |ws|
    ensures InRange(SumOf(Lines(total, ws, weightTotal)[..n]))
  {
    hide Line, Roundable, SumOf, Positives, Abs, Largest;
    var prefix := ws[..n];
    assert Lines(total, ws, weightTotal)[..n] == Lines(total, prefix, weightTotal);
    LinesError(total, prefix, weightTotal);
    PrefixWeighsLess(ws, n);
    WeightTotalExact(ws);
    PositivesAtMostSum(prefix);
    LargestIsPositive(ws, weightTotal);
    TotalIsRoundable(total, ws, weightTotal);
    hide Lines, AllRoundable;
    SumMagnitude(weightTotal, SumOf(Lines(total, prefix, weightTotal)), total, SumOf(prefix), Positives(prefix));
    WithinMagnitude(SumOf(Lines(total, prefix, weightTotal)));
  }

  lemma {:induction false} PrefixWeighsLess(ws: seq<Paise>, n: nat)
    requires n <= |ws| && forall i :: 0 <= i < |ws| ==> 0 <= ws[i]
    ensures 0 <= SumOf(ws[..n]) <= SumOf(ws)
    ensures Positives(ws[..n]) <= Positives(ws)
    decreases |ws|
  {
    WeightTotalExact(ws[..n]);
    if n < |ws| {
      var k := |ws| - 1;
      assert ws[..k][..n] == ws[..n];
      PrefixWeighsLess(ws[..k], n);
    } else {
      assert ws[..n] == ws;
    }
  }

  lemma SumMagnitude(wt: int, x: int, total: int, w: int, m: int)
    requires 0 < wt && 0 <= w <= wt && 0 <= m <= wt
    requires Abs(2 * (wt * x) - 2 * (total * w)) <= wt * m
    requires Abs(total) + wt / 2 <= MAX
    ensures Abs(x) <= MAX
  {
    hide Abs;
    ScaledMagnitude(wt, x, total, w, m);
    CancelFactor(wt, 2 * Abs(x), 2 * Abs(total) + m);
    HalfMagnitude(Abs(x), Abs(total), m, wt);
  }

  lemma ScaledMagnitude(wt: int, x: int, total: int, w: int, m: int)
    requires 0 < wt && 0 <= w <= wt
    requires Abs(2 * (wt * x) - 2 * (total * w)) <= wt * m
    ensures wt * (2 * Abs(x)) <= wt * (2 * Abs(total) + m)
  {
    MagnitudeOfProduct(x, wt);
    ShareMagnitude(total, w, wt);
    AddMagnitudes(wt * x, Abs(x) * wt, total * w, Abs(total) * wt, m * wt);
    FactorOut(wt, Abs(x), Abs(total), m);
    hide Abs;
  }

  lemma HalfMagnitude(x: int, total: int, m: int, wt: int)
    requires 2 * x <= 2 * total + m && m <= wt && total + wt / 2 <= MAX
    ensures x <= MAX
  {
  }

  lemma ShareMagnitude(total: int, w: int, wt: int)
    requires 0 <= w <= wt
    ensures Abs(total * w) <= Abs(total) * wt
  {
    MagnitudeOfProduct(total, w);
    MulMonotone(w, wt, Abs(total));
    hide Abs;
  }

  lemma AddMagnitudes(product: int, x: int, share: int, total: int, m: int)
    requires Abs(product) == x && Abs(share) <= total && Abs(2 * product - 2 * share) <= m
    ensures 2 * x <= 2 * total + m
  {
  }

  lemma FactorOut(wt: int, x: int, total: int, m: int)
    requires 2 * (x * wt) <= 2 * (total * wt) + m * wt
    ensures wt * (2 * x) <= wt * (2 * total + m)
  {
    assert wt * (2 * total + m) == 2 * (total * wt) + m * wt;
  }

  // ----- the edges

  /**
    Exactly when no part is negative: the total is not, and the other lines as rounded do not
    hand out more than it.
   */
  lemma NoNegativePartIff(total: Paise, ws: seq<Paise>, weightTotal: Paise)
    requires Weighs(ws, weightTotal) && AllRoundable(total, ws, weightTotal)
    ensures Allocation(total, ws).Success?
    ensures (forall i :: 0 <= i < |ws| ==> Allocation(total, ws).value[i] >= 0)
       <==> total >= 0 && SumOf(Lines(total, Others(ws), weightTotal)) <= total
  {
    hide Allocation, Largest, Lines, SumOf, AllRoundable, Others, Remainder, Weighs;
    AllocationAccepts(total, ws, weightTotal);
    var parts := Allocation(total, ws).value;
    LargestLeft(total, ws, weightTotal);
    OtherParts(total, ws, weightTotal);
    PartsAddUp(total, ws, weightTotal);
    if forall i :: 0 <= i < |ws| ==> parts[i] >= 0 {
      NoneBelowZero(parts);
    }
  }

  lemma LargestLeft(total: Paise, ws: seq<Paise>, weightTotal: Paise)
    requires Weighs(ws, weightTotal) && AllRoundable(total, ws, weightTotal) && Allocation(total, ws).Success?
    ensures weightTotal != 0 && ws != [] && |Allocation(total, ws).value| == |ws|
    ensures Allocation(total, ws).value[Largest(ws)] == total - SumOf(Lines(total, Others(ws), weightTotal))
  {
    hide Allocation, Largest, Lines, SumOf, AllRoundable, Others, Remainder;
    LargestPartIsRemainder(total, ws, weightTotal);
    OthersLines(total, ws, weightTotal);
  }

  lemma OtherParts(total: Paise, ws: seq<Paise>, weightTotal: Paise)
    requires Weighs(ws, weightTotal) && AllRoundable(total, ws, weightTotal) && Allocation(total, ws).Success?
    requires |Allocation(total, ws).value| == |ws| && ws != []
    ensures total >= 0 ==> forall i :: 0 <= i < |ws| && i != Largest(ws) ==> Allocation(total, ws).value[i] >= 0
  {
    hide Allocation, Largest, Lines, SumOf, AllRoundable, Others, Remainder, Weighs;
    forall i | 0 <= i < |ws| && i != Largest(ws) ensures total >= 0 ==> Allocation(total, ws).value[i] >= 0 {
      OtherPart(total, ws, weightTotal, i);
    }
  }

  lemma PartsAddUp(total: Paise, ws: seq<Paise>, weightTotal: Paise)
    requires Weighs(ws, weightTotal) && AllRoundable(total, ws, weightTotal) && Allocation(total, ws).Success?
    ensures SumOf(Allocation(total, ws).value) == total
  {
    AllocationIsFair(total, ws, weightTotal);
    hide Allocation, Largest, IsHalfAway;
  }

  lemma {:induction false} NoneBelowZero(xs: seq<int>)
    requires forall i :: 0 <= i < |xs| ==> xs[i] >= 0
    ensures SumOf(xs) >= 0
  {
    if xs != [] {
      NoneBelowZero(xs[..|xs| - 1]);
    }
  }

  function Repeat(x: Paise, n: nat): (xs: seq<Paise>)
    ensures |xs| == n && forall i :: 0 <= i < n ==> xs[i] == x
  {
    seq(n, _ => x)
  }

  lemma {:induction false} SumOfRepeats(x: Paise, n: nat)
    ensures SumOf(Repeat(x, n)) == n * x
  {
    if n > 0 {
      assert Repeat(x, n)[..n - 1] == Repeat(x, n - 1);
      SumOfRepeats(x, n - 1);
    }
  }

  lemma {:induction false} WeightTotalOfOnes(n: nat)
    requires n <= MAX
    ensures WeightTotal(Repeat(1, n)) == Success(n)
  {
    if n > 0 {
      assert Repeat(1, n)[..n - 1] == Repeat(1, n - 1);
      WeightTotalOfOnes(n - 1);
    }
  }

  /** One paisa short of enough, m weights share out m * ((m - 2) / 2) less m/2. */
  lemma FamilyArithmetic(m: int)
    requires m >= 4
    ensures
      var total, x := EnoughFor(m) - 1, (m - 2) / 2;
      && total > 0 && x > 0
      && total + m / 2 == m * x
      && total - (m - 1) * x == -1
  {
    var x := (m - 2) / 2;
    OneMore(m - 1, x);
    MulMonotone(1, x, m - 1);
  }

  lemma EqualLine(m: Paise, total: Paise, x: Paise)
    requires m >= 2 && total > 0 && total + m / 2 == m * x && m * x <= MAX
    ensures Roundable(total, 1, m) && Line(total, 1, m) == x
  {
    hide Line, IsHalfAway;
    RoundableLine(total, 1, m);
    FloorUnique(total + m / 2, m, x);
  }

  lemma OthersOfOnes(total: Paise, m: Paise)
    requires m >= 2
    ensures Largest(Repeat(1, m)) == 0 && Others(Repeat(1, m)) == Repeat(1, m - 1)
    ensures Lines(total, Repeat(1, m - 1), m) == Repeat(Line(total, 1, m), m - 1)
    ensures AllRoundable(total, Repeat(1, m), m) == Roundable(total, 1, m)
  {
    hide Line, Roundable;
    assert Repeat(1, m)[0] == 1;
  }

  /** Equal weights get equal lines, and the first of them the rest. */
  lemma EqualSplit(total: Paise, m: Paise, x: Paise)
    requires m >= 2 && Roundable(total, 1, m) && Line(total, 1, m) == x
    ensures
      var ws := Repeat(1, m);
      && Allocation(total, ws).Success? && |Allocation(total, ws).value| == m
      && Allocation(total, ws).value[0] == total - (m - 1) * x
      && forall i :: 1 <= i < m ==> Allocation(total, ws).value[i] == x
  {
    hide Allocation, Line, Lines, Positives, SumOf, Roundable, Settle, AllRoundable, Largest, Others, Remainder;
    var ws := Repeat(1, m);
    OthersOfOnes(total, m);
    SumOfRepeats(1, m);
    AllocationAccepts(total, ws, m);
    LargestPartIsRemainder(total, ws, m);
    OthersLines(total, ws, m);
    SumOfRepeats(x, m - 1);
    AcceptedSplit(total, ws, m);
    OthersAreLines(total, ws, m);
  }

  /** Equal weights whose lines hand out one paisa too much. */
  lemma OverdrawnSplit(m: Paise, total: Paise, x: Paise)
    requires m >= 2 && total > 0 && total + m / 2 == m * x && m * x <= MAX && total - (m - 1) * x == -1
    ensures Allocation(total, Repeat(1, m)) == Success([-1] + Repeat(x, m - 1))
  {
    hide Allocation, Roundable, Line;
    EqualLine(m, total, x);
    EqualSplit(total, m, x);
    assert Allocation(total, Repeat(1, m)).value == [-1] + Repeat(x, m - 1);
  }

  lemma FamilyInRange(m: int, total: int, x: int)
    requires m >= 4 && x > 0 && total > 0 && total + m / 2 == m * x && m * x <= MAX
    ensures InRange(m) && InRange(total) && InRange(x)
  {
    MulMonotone(1, x, m);
    MulMonotone(1, m, x);
  }

  /**
    The bound is sharp: for every number of weights from four on, one paisa short of enough and
    equal weights, the largest line goes to -1. Two paise over four weights is the least case.
   */
  lemma NegativePartFamily(m: int)
    requires m >= 4 && m * ((m - 2) / 2) <= MAX
    ensures
      var total, x := EnoughFor(m) - 1, (m - 2) / 2;
      && InRange(m) && InRange(total) && InRange(x) && Positives(Repeat(1, m)) == m
      && Allocation(total, Repeat(1, m)) == Success([-1] + Repeat(x, m - 1))
  {
    hide Allocation, Positives, EnoughFor;
    FamilyArithmetic(m);
    FamilyInRange(m, EnoughFor(m) - 1, (m - 2) / 2);
    OverdrawnSplit(m, EnoughFor(m) - 1, (m - 2) / 2);
    PositivesOfOnes(m);
  }

  lemma {:induction false} PositivesOfOnes(n: nat)
    ensures Positives(Repeat(1, n)) == n
  {
    if n > 0 {
      assert Repeat(1, n)[..n - 1] == Repeat(1, n - 1);
      PositivesOfOnes(n - 1);
    }
  }

  /**
    Near the end of the range the rounding wraps: the split below is accepted, both parts are
    negative, and only modulo 2^64 do they add up to the total.
   */
  lemma WrappedSplitExample()
    ensures Allocation(MAX, [1, 1]) == Success([MIN / 2 - 1, MIN / 2])
  {
    var ws: seq<Paise>, lines: seq<Paise> := [1, 1], [MIN / 2, MIN / 2];
    WeightTotalOfOnes(2);
    assert ws == Repeat(1, 2);
    assert Line(MAX, 1, 2) == MIN / 2;
    assert Lines(MAX, ws, 2) == lines;
    WrappedTotal(lines);
    AllocationSettles(MAX, ws, 2);
  }

  lemma WrappedTotal(lines: seq<Paise>)
    requires lines == [MIN / 2, MIN / 2]
    ensures RunningTotal(lines) == Success(MIN)
    ensures Settle(MAX, lines, 0) == [MIN / 2 - 1, MIN / 2]
  {
    assert lines[..1] == [MIN / 2] && lines[..1][..0] == [];
    assert RunningTotal(lines[..1]) == Success(MIN / 2);
    SumOfRepeats(MIN / 2, 1);
    assert Without(lines, 0) == Repeat(MIN / 2, 1);
  }

  // ----- what is refused

  /** The first weight that is negative, or takes the total out of range, decides the refusal. */
  lemma {:induction false} WeightRefusedAt(ws: seq<Paise>, n: nat)
    requires n < |ws| && (forall j :: 0 <= j < n ==> ws[j] >= 0) && SumOf(ws[..n]) <= MAX
    ensures ws[n] < 0 ==> WeightTotal(ws) == Failure(NegativeWeight)
    ensures ws[n] >= 0 && SumOf(ws[..n]) + ws[n] > MAX ==> WeightTotal(ws) == Failure(TooLarge)
    decreases |ws|
  {
    var k := |ws| - 1;
    if n < k {
      assert ws[..k][..n] == ws[..n];
      WeightRefusedAt(ws[..k], n);
    } else {
      WeightTotalExact(ws[..k]);
      AddExact(WeightTotal(ws[..k]).value, ws[k]);
    }
  }

  predicate Weighable(ws: seq<Paise>) {
    (forall i :: 0 <= i < |ws| ==> ws[i] >= 0) && 0 < SumOf(ws) <= MAX
  }

  /** Without weights, with nothing but zeros for a sum to be split, or past the range, there is no split. */
  lemma SplitRefusals(total: Paise, ws: seq<Paise>)
    ensures Allocation(total, []) == Failure(NoWeights)
    ensures ws != [] && (forall i :: 0 <= i < |ws| ==> ws[i] == 0) ==>
      Allocation(total, ws) == if total != 0 then Failure(NothingToWeigh) else Success(Zeros(|ws|))
    ensures Weighable(ws) && !AllProductsFit(total, ws) ==> Allocation(total, ws) == Failure(TooLarge)
  {
    if forall i :: 0 <= i < |ws| ==> ws[i] == 0 {
      SumOfNothing(ws);
    }
    WeightTotalExact(ws);
    hide WeightTotal, SumOf, Line, Lines, Settle, Largest;
  }

  lemma {:induction false} SumOfNothing(ws: seq<int>)
    requires forall i :: 0 <= i < |ws| ==> ws[i] == 0
    ensures SumOf(ws) == 0
  {
    if ws != [] {
      SumOfNothing(ws[..|ws| - 1]);
    }
  }
}
