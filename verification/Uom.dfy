/** Quantities in base units that carry their dimension, and unit conversion. */
module Uom {
  import opened Wrappers
  import opened Int64

  type Dimension = string

  datatype Error = DimensionMismatch | UnknownDimension | NegativeAmount | BadFactor | Overflow

  datatype Quantity = Quantity(base: int64, dim: Dimension)

  const ZERO := Quantity(0, "")

  predicate Known(dim: Dimension) {
    dim in {"mass", "volume", "length", "area", "count"}
  }

  function New(baseUnits: int64, dim: Dimension): Result<Quantity, Error> {
    if baseUnits < 0 then Failure(NegativeAmount)
    else if !Known(dim) then Failure(UnknownDimension)
    else Success(Quantity(baseUnits, dim))
  }

  function ToBase(saleUnits: int64, factor: int64, dim: Dimension): Result<Quantity, Error> {
    if saleUnits < 0 then Failure(NegativeAmount)
    else if factor <= 0 then Failure(BadFactor)
    else if saleUnits != 0 then
      var product := Mul(saleUnits, factor);
      if Div(product, saleUnits) != factor then Failure(Overflow) else New(product, dim)
    else New(0, dim)
  }

  function ToSaleUnits(q: Quantity, factor: int64): Result<int64, Error> {
    if factor <= 0 then Failure(BadFactor) else Success(Div(q.base, factor))
  }

  function Combine(q: Quantity, o: Quantity): Result<Dimension, Error> {
    if q.dim == o.dim then Success(q.dim)
    else if q.dim == "" then Success(o.dim)
    else if o.dim == "" then Success(q.dim)
    else Failure(DimensionMismatch)
  }

  function Add(q: Quantity, o: Quantity): Result<Quantity, Error> {
    match Combine(q, o)
    case Failure(e) => Failure(e)
    case Success(dim) =>
      var sum := Wrap(q.base + o.base);
      if sum < q.base then Failure(Overflow) else Success(Quantity(sum, dim))
  }

  function Sub(q: Quantity, o: Quantity): Result<Quantity, Error> {
    match Combine(q, o)
    case Failure(e) => Failure(e)
    case Success(dim) =>
      if o.base > q.base then Failure(NegativeAmount) else Success(Quantity(Wrap(q.base - o.base), dim))
  }

  /** What every quantity built through this package satisfies. */
  predicate WellFormed(q: Quantity) {
    q.base >= 0 && (Known(q.dim) || q == ZERO)
  }

  lemma OperationsStayWellFormed(q: Quantity, o: Quantity, n: int64, factor: int64, dim: Dimension)
    requires WellFormed(q) && WellFormed(o)
    ensures New(n, dim).Success? ==> WellFormed(New(n, dim).value)
    ensures ToBase(n, factor, dim).Success? ==> WellFormed(ToBase(n, factor, dim).value)
    ensures Add(q, o).Success? ==> WellFormed(Add(q, o).value)
    ensures Sub(q, o).Success? ==> WellFormed(Sub(q, o).value)
  {
    hide Mul, Div;
  }

  /** Add is exact and refuses exactly a clash of dimensions or a sum out of range. */
  lemma AddExact(q: Quantity, o: Quantity)
    requires WellFormed(q) && WellFormed(o)
    ensures Add(q, o) ==
      if q.dim != "" && o.dim != "" && q.dim != o.dim then Failure(DimensionMismatch)
      else if q.base + o.base > MAX then Failure(Overflow)
      else Success(Quantity(q.base + o.base, if q.dim == "" then o.dim else q.dim))
  {
  }

  /** A quantity is built exactly of what is not negative, in one of the five dimensions. */
  lemma NewExact(baseUnits: int64, dim: Dimension)
    ensures New(baseUnits, dim) ==
      if baseUnits < 0 then Failure(NegativeAmount)
      else if dim == "mass" || dim == "volume" || dim == "length" || dim == "area" || dim == "count"
      then Success(Quantity(baseUnits, dim))
      else Failure(UnknownDimension)
  {
  }

  /** Sub is exact and refuses exactly a clash of dimensions or a negative difference. */
  lemma SubExact(q: Quantity, o: Quantity)
    requires WellFormed(q) && WellFormed(o)
    ensures Sub(q, o) ==
      if q.dim != "" && o.dim != "" && q.dim != o.dim then Failure(DimensionMismatch)
      else if o.base > q.base then Failure(NegativeAmount)
      else Success(Quantity(q.base - o.base, if q.dim == "" then o.dim else q.dim))
  {
  }

  lemma SubUndoesAdd(q: Quantity, o: Quantity)
    requires WellFormed(q) && WellFormed(o) && Add(q, o).Success?
    ensures
      var back := Sub(Add(q, o).value, o);
      back.Success? && back.value.base == q.base && (q.dim != "" ==> back.value == q)
  {
  }

  lemma ToBaseExact(saleUnits: int64, factor: int64, dim: Dimension)
    ensures ToBase(saleUnits, factor, dim) ==
      if saleUnits < 0 then Failure(NegativeAmount)
      else if factor <= 0 then Failure(BadFactor)
      else if saleUnits * factor > MAX then Failure(Overflow)
      else New(saleUnits * factor, dim)
  {
    if saleUnits > 0 && factor > 0 {
      assert saleUnits * factor == factor * saleUnits >= 0;
      DivideBackExact(factor, saleUnits);
    }
  }

  lemma ToSaleUnitsExact(q: Quantity, factor: int64)
    requires WellFormed(q) && factor > 0
    ensures ToSaleUnits(q, factor) == Success(q.base / factor)
    ensures factor * (q.base / factor) <= q.base < factor * (q.base / factor) + factor
    ensures 0 <= q.base / factor
  {
    FloorBounds(q.base, factor);
  }

  lemma SaleUnitsRoundTrip(saleUnits: int64, factor: int64, dim: Dimension)
    requires ToBase(saleUnits, factor, dim).Success?
    ensures ToSaleUnits(ToBase(saleUnits, factor, dim).value, factor) == Success(saleUnits)
  {
    hide Mul, Div, ToBase, ToSaleUnits;
    ToBaseExact(saleUnits, factor, dim);
    var q := ToBase(saleUnits, factor, dim).value;
    ToSaleUnitsExact(q, factor);
    FloorUnique(q.base, factor, saleUnits);
  }

  /** n packs can be taken from a quantity exactly when it shows at least n packs. */
  lemma PacksFitIff(n: int64, q: Quantity, factor: int64)
    requires WellFormed(q) && Known(q.dim) && n >= 0 && factor > 0
    ensures
      (ToBase(n, factor, q.dim).Success? && ToBase(n, factor, q.dim).value.base <= q.base)
      <==> n <= ToSaleUnits(q, factor).value
  {
    hide Mul, Div, ToBase, ToSaleUnits;
    ToBaseExact(n, factor, q.dim);
    ToSaleUnitsExact(q, factor);
    PacksInBase(n, q.base, factor, q.base / factor);
  }

  lemma PacksInBase(n: int, base: int, factor: int, packs: int)
    requires n >= 0 && factor > 0 && factor * packs <= base < factor * packs + factor
    ensures 0 <= n * factor && (n * factor <= base <==> n <= packs)
  {
    MulMonotone(0, n, factor);
    if n <= packs {
      MulMonotone(n, packs, factor);
    } else {
      MulMonotone(packs + 1, n, factor);
      assert (packs + 1) * factor == factor * packs + factor;
    }
  }

  // ----- totals

  /** A running total started from the zero value, the use `Combine` is written for. */
  function Total(qs: seq<Quantity>): Result<Quantity, Error> {
    if qs == [] then Success(ZERO)
    else
      match Total(qs[..|qs| - 1])
      case Failure(e) => Failure(e)
      case Success(t) => Add(t, qs[|qs| - 1])
  }

  function BaseSum(qs: seq<Quantity>): int {
    if qs == [] then 0 else BaseSum(qs[..|qs| - 1]) + qs[|qs| - 1].base
  }

  predicate AllWellFormed(qs: seq<Quantity>) {
    forall i :: 0 <= i < |qs| ==> WellFormed(qs[i])
  }

  /** Every quantity measures dim or nothing. */
  predicate Measures(qs: seq<Quantity>, dim: Dimension) {
    forall i :: 0 <= i < |qs| ==> qs[i].dim == dim || qs[i].dim == ""
  }

  predicate Mentions(qs: seq<Quantity>, dim: Dimension) {
    exists i :: 0 <= i < |qs| && qs[i].dim == dim
  }

  /** t is the total of qs: the true sum, in the one dimension mentioned if there is any. */
  predicate IsTotal(qs: seq<Quantity>, t: Quantity) {
    && t.base == BaseSum(qs)
    && Measures(qs, t.dim)
    && (t.dim != "" ==> Mentions(qs, t.dim))
  }

  lemma {:induction false} TotalSound(qs: seq<Quantity>)
    requires AllWellFormed(qs)
    ensures BaseSum(qs) >= 0
    ensures Total(qs).Success? ==> WellFormed(Total(qs).value) && IsTotal(qs, Total(qs).value)
  {
    if qs != [] {
      var init, q := qs[..|qs| - 1], qs[|qs| - 1];
      assert forall i :: 0 <= i < |init| ==> init[i] == qs[i];
      TotalSound(init);
      if Total(init).Success? {
        AddExact(Total(init).value, q);
        if Total(qs).Success? {
          TotalExtends(init, q, Total(init).value, Total(qs).value);
        }
      }
    }
  }

  lemma TotalExtends(init: seq<Quantity>, q: Quantity, t: Quantity, u: Quantity)
    requires WellFormed(t) && WellFormed(q) && IsTotal(init, t) && Add(t, q) == Success(u)
    ensures WellFormed(u) && IsTotal(init + [q], u)
  {
    var qs := init + [q];
    AddExact(t, q);
    assert qs[..|qs| - 1] == init;
    assert forall i :: 0 <= i < |init| ==> qs[i] == init[i];
    if u.dim != "" {
      if q.dim == u.dim {
        assert qs[|init|].dim == u.dim;
      } else {
        var i :| 0 <= i < |init| && init[i].dim == u.dim;
        assert qs[i].dim == u.dim;
      }
    }
  }

  lemma {:induction false} TotalComplete(qs: seq<Quantity>, t: Quantity)
    requires AllWellFormed(qs) && IsTotal(qs, t)
    ensures Total(qs) == Success(t)
  {
    hide Add, Known;
    if qs != [] {
      var init, q := qs[..|qs| - 1], qs[|qs| - 1];
      assert forall i :: 0 <= i < |init| ==> init[i] == qs[i];
      TotalSound(init);
      var u := TotalBefore(qs, t);
      TotalComplete(init, u);
      AddExact(u, q);
    }
  }

  /** The total of all but the last quantity, to which the last one adds up. */
  lemma TotalBefore(qs: seq<Quantity>, t: Quantity) returns (u: Quantity)
    requires AllWellFormed(qs) && IsTotal(qs, t) && qs != []
    requires BaseSum(qs[..|qs| - 1]) >= 0
    ensures WellFormed(u) && IsTotal(qs[..|qs| - 1], u)
    ensures
      var q := qs[|qs| - 1];
      t.base == u.base + q.base && (u.dim == "" || u.dim == t.dim) && t.dim == if u.dim == "" then q.dim else u.dim
  {
    hide Known, Wrap;
    var init, q := qs[..|qs| - 1], qs[|qs| - 1];
    assert forall i :: 0 <= i < |init| ==> init[i] == qs[i];
    u := Quantity(BaseSum(init), if Mentions(init, t.dim) then t.dim else "");
    if t.dim != "" {
      var i :| 0 <= i < |qs| && qs[i].dim == t.dim;
      assert WellFormed(qs[i]);
      if !Mentions(init, t.dim) {
        assert i == |init|;
        NoDimensionNoBase(init, t.dim);
      }
    } else {
      NoDimensionNoBase(init, t.dim);
    }
  }

  lemma {:induction false} NoDimensionNoBase(qs: seq<Quantity>, dim: Dimension)
    requires AllWellFormed(qs) && Measures(qs, dim) && (dim == "" || !Mentions(qs, dim))
    ensures BaseSum(qs) == 0 && Measures(qs, "")
  {
    if qs != [] {
      var init := qs[..|qs| - 1];
      assert forall i :: 0 <= i < |init| ==> init[i] == qs[i];
      NoDimensionNoBase(init, dim);
      assert qs[|qs| - 1].dim == "";
    }
  }

  // ----- the order of the additions does not matter

  lemma {:induction false} BaseSumSplit(a: seq<Quantity>, q: Quantity, b: seq<Quantity>)
    ensures BaseSum(a + [q] + b) == BaseSum(a + b) + q.base
    decreases |b|
  {
    if b == [] {
      assert (a + [q] + b)[..|a|] == a && a + b == a;
    } else {
      var k := |b| - 1;
      assert (a + [q] + b)[..|a| + 1 + k] == a + [q] + b[..k];
      assert (a + b)[..|a| + k] == a + b[..k];
      BaseSumSplit(a, q, b[..k]);
    }
  }

  lemma {:induction false} BaseSumPermutes(qs: seq<Quantity>, rs: seq<Quantity>)
    requires multiset(qs) == multiset(rs)
    ensures BaseSum(qs) == BaseSum(rs)
    decreases |qs|
  {
    if qs == [] {
      assert |multiset(rs)| == 0;
    } else {
      var k := |qs| - 1;
      var a, b := MatchLast(qs, rs);
      BaseSumSplit(a, qs[k], b);
      BaseSumPermutes(qs[..k], a + b);
    }
  }

  lemma DropOne(m: multiset<Quantity>, n: multiset<Quantity>, q: Quantity)
    requires m + multiset{q} == n + multiset{q}
    ensures m == n
  {
    assert m == (m + multiset{q}) - multiset{q};
    assert n == (n + multiset{q}) - multiset{q};
  }

  /** Where the last element of qs sits in a permutation of it. */
  lemma MatchLast(qs: seq<Quantity>, rs: seq<Quantity>) returns (a: seq<Quantity>, b: seq<Quantity>)
    requires multiset(qs) == multiset(rs) && qs != []
    ensures rs == a + [qs[|qs| - 1]] + b
    ensures multiset(qs[..|qs| - 1]) == multiset(a + b)
  {
    var k := |qs| - 1;
    assert qs == qs[..k] + [qs[k]];
    assert qs[k] in multiset(rs);
    var j :| 0 <= j < |rs| && rs[j] == qs[k];
    a, b := rs[..j], rs[j + 1..];
    assert rs == a + [rs[j]] + b;
    DropOne(multiset(qs[..k]), multiset(a + b), qs[k]);
  }

  /** Reordering the quantities changes neither whether the total exists nor what it is. */
  lemma TotalOrderFree(qs: seq<Quantity>, rs: seq<Quantity>)
    requires AllWellFormed(qs) && multiset(qs) == multiset(rs)
    ensures Total(qs).Success? == Total(rs).Success?
    ensures Total(qs).Success? ==> Total(qs) == Total(rs)
  {
    SameMembers(qs, rs);
    BaseSumPermutes(qs, rs);
    TotalSound(qs);
    TotalSound(rs);
    if Total(qs).Success? {
      TotalTransfers(qs, rs, Total(qs).value);
      TotalComplete(rs, Total(qs).value);
    } else if Total(rs).Success? {
      TotalTransfers(rs, qs, Total(rs).value);
      TotalComplete(qs, Total(rs).value);
    }
  }

  lemma SameMembers(qs: seq<Quantity>, rs: seq<Quantity>)
    requires multiset(qs) == multiset(rs)
    ensures forall q :: q in qs <==> q in rs
    ensures AllWellFormed(qs) ==> AllWellFormed(rs)
  {
    forall q ensures q in qs <==> q in rs {
      assert q in qs <==> q in multiset(qs);
      assert q in rs <==> q in multiset(rs);
    }
    forall i | 0 <= i < |rs| && AllWellFormed(qs) ensures WellFormed(rs[i]) {
      assert rs[i] in qs;
    }
  }

  lemma TotalTransfers(qs: seq<Quantity>, rs: seq<Quantity>, t: Quantity)
    requires IsTotal(qs, t) && BaseSum(qs) == BaseSum(rs)
    requires forall q :: q in qs <==> q in rs
    ensures IsTotal(rs, t)
  {
    forall i | 0 <= i < |rs| ensures rs[i].dim == t.dim || rs[i].dim == "" {
      assert rs[i] in qs;
    }
    if t.dim != "" {
      var i :| 0 <= i < |qs| && qs[i].dim == t.dim;
      assert qs[i] in rs;
    }
  }
}
