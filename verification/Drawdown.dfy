/** Maximum drawdown of an equity curve: the one-pass computation against the quadratic definition. */
module Drawdown {
  import opened Money
  import opened Results
  import opened Ordering
  import opened Fifo

  datatype EquityPoint = EquityPoint(ts: Timestamp, equity: real)

  predicate PointLeq(a: EquityPoint, b: EquityPoint) {
    a.ts.Instant() <= b.ts.Instant()
  }

  function Equities(points: seq<EquityPoint>): seq<real> {
    Map((p: EquityPoint) => p.equity, Sort(PointLeq, points))
  }

  function SameInstant(instant: int): EquityPoint -> bool {
    (p: EquityPoint) => p.ts.Instant() == instant
  }

  /** The curve is read in time order, and points of one instant in the order given. */
  lemma {:induction false} CurveInTimeOrder(points: seq<EquityPoint>) returns (curve: seq<EquityPoint>)
    ensures |Equities(points)| == |curve| && forall i :: 0 <= i < |curve| ==> Equities(points)[i] == curve[i].equity
    ensures multiset(curve) == multiset(points)
    ensures forall i, j :: 0 <= i < j < |curve| ==> curve[i].ts.Instant() <= curve[j].ts.Instant()
    ensures forall instant :: Filter(SameInstant(instant), curve) == Filter(SameInstant(instant), points)
  {
    curve := Sort(PointLeq, points);
    SortSorts(PointLeq, points);
    forall i, j | 0 <= i < j < |curve| ensures curve[i].ts.Instant() <= curve[j].ts.Instant() {
      assert PointLeq(curve[i], curve[j]);
    }
    forall instant ensures Filter(SameInstant(instant), curve) == Filter(SameInstant(instant), points) {
      SortStable(PointLeq, SameInstant(instant), points);
    }
  }

  /** The relative fall from one equity to another; there is none from nothing. */
  function Fall(from: real, to: real): real {
    if from > 0.0 then (from - to) / from else 0.0
  }

  /** The largest fall from any equity to a later one, or zero. */
  ghost predicate IsLargest(fall: (real, real) -> real, es: seq<real>, r: real) {
    && r >= 0.0
    && (forall i, j :: 0 <= i <= j < |es| ==> fall(es[i], es[j]) <= r)
    && (r == 0.0 || exists i, j :: 0 <= i <= j < |es| && fall(es[i], es[j]) == r)
  }

  /** The quadratic definition. */
  ghost predicate IsMaxDrawdown(es: seq<real>, r: real) {
    IsLargest(Fall, es, r)
  }

  function Highest(es: seq<real>): real
    requires es != []
  {
    var n := |es| - 1;
    if n == 0 || es[n] > Highest(es[..n]) then es[n] else Highest(es[..n])
  }

  /** The largest fall from the highest equity so far. */
  function PeakDrawdown(es: seq<real>): real {
    if es == [] then 0.0
    else
      var before, now := PeakDrawdown(es[..|es| - 1]), Fall(Highest(es), es[|es| - 1]);
      if now > before then now else before
  }

  /** `compute_max_drawdown`. */
  method ComputeMaxDrawdown(points: seq<EquityPoint>) returns (maxDd: real)
    ensures maxDd == PeakDrawdown(Equities(points))
  {
    var ordered := Sort(PointLeq, points);
    ghost var es := Equities(points);
    var peak: Option<real> := None;
    maxDd := 0.0;
    for i := 0 to |ordered|
      invariant 0.0 <= maxDd == PeakDrawdown(es[..i])
      invariant if i == 0 then peak.None? else peak == Some(Highest(es[..i]))
    {
      var equity := ordered[i].equity;
      assert es[..i + 1][..i] == es[..i] && es[..i + 1][i] == equity;
      NoFall(equity);
      if peak.None? || equity > peak.value {
        peak := Some(equity);
        continue;
      }
      if peak.value <= 0.0 {
        continue;
      }
      var drawdown := Fall(peak.value, equity);
      if drawdown > maxDd {
        maxDd := drawdown;
      }
    }
    assert es[..|ordered|] == es;
  }

  lemma {:induction false} NoFall(e: real)
    ensures Fall(e, e) == 0.0
  {
  }

  lemma {:induction false} FallSign(from: real, to: real)
    requires to <= from
    ensures Fall(from, to) >= 0.0
  {
    if from > 0.0 {
      DivideMonotone(0.0, from - to, from);
    }
  }

  /** Falling to the same equity, the higher start loses more. */
  lemma {:induction false} FallMonotone(low: real, high: real, to: real)
    requires 0.0 < low <= high && to >= 0.0
    ensures Fall(low, to) <= Fall(high, to) <= 1.0
  {
    LossIsRest(low, to);
    LossIsRest(high, to);
    QuotientGrows(to, low, high);
    DivideMonotone(0.0, to, high);
  }

  lemma {:induction false} LossIsRest(from: real, to: real)
    requires from > 0.0
    ensures Fall(from, to) == 1.0 - to / from
  {
    var f, kept := Fall(from, to), to / from;
    assert f * from == from - to && kept * from == to;
    var gap := f - (1.0 - kept);
    assert gap * from == 0.0;
    assert gap == (gap * from) / from;
  }

  lemma {:induction false} HighestIsMaximum(es: seq<real>) returns (at: nat)
    requires es != []
    ensures at < |es| && es[at] == Highest(es)
    ensures forall k :: 0 <= k < |es| ==> es[k] <= Highest(es)
  {
    var n := |es| - 1;
    at := n;
    if n > 0 {
      var i := HighestIsMaximum(es[..n]);
      if es[n] <= Highest(es[..n]) { at := i; }
    }
  }

  /** Once equity has been positive it is never negative. */
  ghost predicate Solvent(es: seq<real>) {
    forall i, j :: 0 <= i < j < |es| && es[i] > 0.0 ==> es[j] >= 0.0
  }

  /** The fall from the peak is the largest fall to the last point. */
  lemma {:induction false} LastFall(es: seq<real>) returns (at: nat)
    requires es != [] && Solvent(es)
    ensures var n := |es| - 1;
            && at <= n && es[at] == Highest(es)
            && 0.0 <= Fall(Highest(es), es[n]) <= 1.0
            && forall i :: 0 <= i <= n ==> Fall(es[i], es[n]) <= Fall(Highest(es), es[n])
  {
    var n := |es| - 1;
    at := HighestIsMaximum(es);
    FallSign(es[at], es[n]);
    NoFall(es[n]);
    forall i | 0 <= i <= n ensures Fall(es[i], es[n]) <= Fall(es[at], es[n]) {
      if es[i] > 0.0 && es[n] >= 0.0 {
        FallMonotone(es[i], es[at], es[n]);
      }
    }
    if es[at] > 0.0 {
      FallMonotone(es[at], es[at], es[n]);
    }
  }

  /**
   One pass is enough: on a curve that never turns negative after being positive (every non-negative
   curve), the largest fall from the peak is the largest fall between any two points in time order,
   and lies between 0 and 1.
   */
  lemma {:induction false} OnePassIsEnough(es: seq<real>)
    requires Solvent(es)
    ensures forall r :: IsMaxDrawdown(es, r) <==> r == PeakDrawdown(es)
    ensures 0.0 <= PeakDrawdown(es) <= 1.0
  {
    if es != [] {
      var before := es[..|es| - 1];
      OnePassIsEnough(before);
      assert IsMaxDrawdown(before, PeakDrawdown(before));
      var at := LastFall(es);
      ExtendLargest(Fall, es, PeakDrawdown(before), at);
      LargestIsUnique(Fall, es, PeakDrawdown(es));
    } else {
      LargestIsUnique(Fall, es, 0.0);
    }
  }

  /** What one more point does to the largest fall. */
  lemma {:induction false} ExtendLargest(fall: (real, real) -> real, es: seq<real>, before: real, at: nat)
    requires at < |es| && IsLargest(fall, es[..|es| - 1], before)
    requires var last := es[|es| - 1];
             0.0 <= fall(es[at], last) && forall i :: 0 <= i < |es| ==> fall(es[i], last) <= fall(es[at], last)
    ensures var now := fall(es[at], es[|es| - 1]);
            IsLargest(fall, es, if now > before then now else before)
  {
    var n, prefix := |es| - 1, es[..|es| - 1];
    var now := fall(es[at], es[n]);
    var r := if now > before then now else before;
    forall i, j | 0 <= i <= j < |es| ensures fall(es[i], es[j]) <= r {
      if j < n {
        assert fall(prefix[i], prefix[j]) <= before;
      }
    }
    if now <= before && before != 0.0 {
      var i, j :| 0 <= i <= j < |prefix| && fall(prefix[i], prefix[j]) == before;
      assert fall(es[i], es[j]) == r;
    }
  }

  lemma {:induction false} LargestIsUnique(fall: (real, real) -> real, es: seq<real>, largest: real)
    requires IsLargest(fall, es, largest)
    ensures forall r :: IsLargest(fall, es, r) <==> r == largest
  {
  }

  // --- curves that do turn negative

  /** What is owed at one point, relative to what was held at another. */
  function Debt(held: real, now: real): real
    requires held > 0.0
  {
    -now / held
  }

  lemma {:induction false} FallIsDebt(from: real, to: real)
    requires from > 0.0
    ensures Fall(from, to) == 1.0 + Debt(from, to)
  {
    LossIsRest(from, to);
    var kept, debt := to / from, Debt(from, to);
    assert kept * from == to && debt * from == -to;
    var gap := kept + debt;
    assert gap * from == 0.0;
    assert gap == (gap * from) / from;
  }

  /** A fall exceeds the whole exactly when it ends in debt. */
  lemma {:induction false} DebtSign(from: real, to: real)
    requires from > 0.0
    ensures Fall(from, to) > 1.0 <==> to < 0.0
  {
    FallIsDebt(from, to);
    assert Debt(from, to) * from == -to;
  }

  /** The same debt weighs more on the smaller start. */
  lemma {:induction false} DebtStrict(low: real, high: real, to: real)
    requires 0.0 < low && 0.0 < high && to < 0.0 && Debt(low, to) <= Debt(high, to)
    ensures high <= low
  {
    var x, y := Debt(low, to), Debt(high, to);
    assert x * low == -to && y * high == -to;
    if low < high {
      DivideMonotone(0.0, -to, high);
      PositiveDebt(high, to);
      TimesStrict(low, high, y);
      TimesMonotone(x, y, low);
      assert false;
    }
  }

  lemma {:induction false} PositiveDebt(held: real, now: real)
    requires held > 0.0 && now < 0.0
    ensures Debt(held, now) > 0.0
  {
    assert Debt(held, now) * held == -now;
  }

  /** What the one pass reports bounds the fall from the peak at every point, and is zero or one of them. */
  lemma {:induction false} PeakFalls(es: seq<real>, k: nat)
    requires k < |es|
    ensures Fall(Highest(es[..k + 1]), es[k]) <= PeakDrawdown(es)
  {
    var n := |es| - 1;
    if k == n {
      assert es[..k + 1] == es;
    } else {
      PeakFalls(es[..n], k);
      assert es[..n][..k + 1] == es[..k + 1];
    }
  }

  lemma {:induction false} PeakAttained(es: seq<real>) returns (at: nat, j: nat)
    requires PeakDrawdown(es) != 0.0
    ensures at <= j < |es| && es[at] == Highest(es[..j + 1]) && PeakDrawdown(es) == Fall(es[at], es[j])
  {
    var n := |es| - 1;
    var before, now := PeakDrawdown(es[..n]), Fall(Highest(es), es[n]);
    if now > before {
      j := n;
      assert es[..j + 1] == es;
      at := HighestIsMaximum(es);
    } else {
      at, j := PeakAttained(es[..n]);
      assert es[..n][..j + 1] == es[..j + 1];
    }
  }

  /** Every positive equity before j is the same one, and j ends in debt. */
  ghost predicate OneHolding(es: seq<real>, i: int, j: int) {
    && 0 <= i < j < |es| && es[i] > 0.0 && es[j] < 0.0
    && forall k :: 0 <= k < j && es[k] > 0.0 ==> es[k] == es[i]
  }

  /** No later point is deeper in debt relative to an earlier equity than j is relative to i. */
  ghost predicate DeepestDebt(es: seq<real>, i: int, j: int)
    requires 0 <= i < j < |es| && es[i] > 0.0
  {
    forall h, k :: 0 <= h < k < |es| && es[h] > 0.0 && es[k] < 0.0 ==> Debt(es[h], es[k]) <= Debt(es[i], es[j])
  }

  /** The deepest debt falls on a point before which the curve held only one positive equity. */
  ghost predicate DebtAfterOneHolding(es: seq<real>) {
    exists i, j :: OneHolding(es, i, j) && DeepestDebt(es, i, j)
  }

  /** Up to j the peak is the one positive equity. */
  lemma {:induction false} PeakIsHolding(es: seq<real>, i: int, j: int)
    requires OneHolding(es, i, j)
    ensures Highest(es[..j + 1]) == es[i]
  {
    var at := HighestIsMaximum(es[..j + 1]);
    assert es[..j + 1][i] <= Highest(es[..j + 1]);
    assert es[at] == Highest(es[..j + 1]) && es[at] > 0.0;
  }

  lemma {:induction false} AllWithinDebt(es: seq<real>, i: int, j: int, h: int, k: int)
    requires OneHolding(es, i, j) && DeepestDebt(es, i, j) && 0 <= h <= k < |es|
    ensures Fall(es[h], es[k]) <= Fall(es[i], es[j])
  {
    DebtSign(es[i], es[j]);
    if es[h] > 0.0 {
      DebtSign(es[h], es[k]);
      if es[k] < 0.0 {
        FallIsDebt(es[h], es[k]);
        FallIsDebt(es[i], es[j]);
      }
    }
  }

  lemma {:induction false} DebtIsExact(es: seq<real>, i: int, j: int)
    requires OneHolding(es, i, j) && DeepestDebt(es, i, j)
    ensures PeakDrawdown(es) == Fall(es[i], es[j]) && IsMaxDrawdown(es, PeakDrawdown(es))
  {
    PeakFalls(es, j);
    PeakIsHolding(es, i, j);
    DebtSign(es[i], es[j]);
    var at, k := PeakAttained(es);
    AllWithinDebt(es, i, j, at, k);
    forall h, k | 0 <= h <= k < |es| ensures Fall(es[h], es[k]) <= PeakDrawdown(es) {
      AllWithinDebt(es, i, j, h, k);
    }
  }

  /** An exact result above one is a debt after one holding. */
  lemma {:induction false} ExactIsDebt(es: seq<real>)
    requires IsMaxDrawdown(es, PeakDrawdown(es)) && !Solvent(es)
    ensures DebtAfterOneHolding(es)
  {
    var fall := Fall;
    var h, k :| 0 <= h < k < |es| && es[h] > 0.0 && es[k] < 0.0;
    DebtSign(es[h], es[k]);
    assert fall(es[h], es[k]) <= PeakDrawdown(es);
    var at, j := PeakAttained(es);
    DebtSign(es[at], es[j]);
    forall i | 0 <= i < j && es[i] > 0.0 ensures es[i] == es[at] {
      var top := HighestIsMaximum(es[..j + 1]);
      assert es[..j + 1][i] <= es[at];
      assert fall(es[i], es[j]) <= PeakDrawdown(es);
      FallIsDebt(es[i], es[j]);
      FallIsDebt(es[at], es[j]);
      DebtStrict(es[i], es[at], es[j]);
    }
    assert OneHolding(es, at, j);
    forall h, k | 0 <= h < k < |es| && es[h] > 0.0 && es[k] < 0.0 ensures Debt(es[h], es[k]) <= Debt(es[at], es[j]) {
      assert fall(es[h], es[k]) <= PeakDrawdown(es);
      FallIsDebt(es[h], es[k]);
      FallIsDebt(es[at], es[j]);
    }
  }

  /**
   When one pass is exact, for every curve: exactly when equity never turns negative after being
   positive, or the deepest debt comes after a single positive equity. Once two positive equities
   differ the peak is no longer the smallest of them, and a debt from then on is understated.
   */
  lemma {:induction false} OnePassIsExactIff(es: seq<real>)
    ensures IsMaxDrawdown(es, PeakDrawdown(es)) <==> Solvent(es) || DebtAfterOneHolding(es)
  {
    if Solvent(es) {
      OnePassIsEnough(es);
    } else if IsMaxDrawdown(es, PeakDrawdown(es)) {
      ExactIsDebt(es);
    }
    if i, j :| OneHolding(es, i, j) && DeepestDebt(es, i, j) {
      DebtIsExact(es, i, j);
    }
  }

  /** What is reported is never too much. */
  lemma {:induction false} NeverOverstated(es: seq<real>, r: real)
    requires IsMaxDrawdown(es, r)
    ensures PeakDrawdown(es) <= r
  {
    var fall := Fall;
    if PeakDrawdown(es) != 0.0 {
      var at, j := PeakAttained(es);
      assert fall(es[at], es[j]) <= r;
    }
  }

  /** With negative equity the peak is not always the worst start: here 1.1 is reported and 2 was lost. */
  lemma {:induction false} NegativeEquityUnderstated()
    ensures var es := [1.0, 10.0, -1.0]; PeakDrawdown(es) == 1.1 && Fall(es[0], es[2]) == 2.0
  {
    var es := [1.0, 10.0, -1.0];
    assert es[..2] == [1.0, 10.0] && es[..2][..1] == [1.0] && es[..2][..1][..0] == [];
    assert Highest([1.0]) == 1.0 && Highest([1.0, 10.0]) == 10.0 && Highest(es) == 10.0;
    assert PeakDrawdown([1.0]) == 0.0;
    assert PeakDrawdown([1.0, 10.0]) == 0.0;
  }
}
