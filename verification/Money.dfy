/**
 Decimal money arithmetic. Decimals are exact reals; the only rounding mode the program uses is
 ROUND_DOWN, which truncates toward zero.
 */
module Money {

  datatype Policy = Policy(priceTick: real, qtyStep: real, quotePrecision: int, feePrecision: int)

  const DEFAULT_POLICY := Policy(0.01, 0.00000001, 8, 8)

  function Min(x: real, y: real): real {
    if x <= y then x else y
  }

  function Max(x: real, y: real): real {
    if x >= y then x else y
  }

  function Abs(x: real): real {
    if x < 0.0 then -x else x
  }

  /** `to_integral_value(rounding=ROUND_DOWN)`. */
  function Trunc(x: real): (n: int)
    ensures x >= 0.0 ==> 0 <= n && n as real <= x < n as real + 1.0
    ensures x <= 0.0 ==> n <= 0 && n as real - 1.0 < x <= n as real
  {
    if x >= 0.0 then x.Floor else -((-x).Floor)
  }

  /** The k-th point of the grid with the given spacing. */
  function Multiple(k: int, step: real): real {
    k as real * step
  }

  lemma {:induction false} MultipleOrder(i: int, j: int, step: real)
    requires step > 0.0
    ensures i <= j ==> Multiple(i, step) <= Multiple(j, step)
    ensures Multiple(i + 1, step) == Multiple(i, step) + step
    ensures Multiple(i - j, step) == Multiple(i, step) - Multiple(j, step)
  {
    if i <= j {
      assert Multiple(j - i, step) >= 0.0;
    }
  }

  /** Scaling the bounds on a quotient back up to bounds on the dividend. */
  lemma {:induction false} QuotientBounds(value: real, n: int, step: real)
    requires step > 0.0
    ensures n as real <= value / step <==> Multiple(n, step) <= value
    ensures value / step <= n as real <==> value <= Multiple(n, step)
  {
    var q := value / step;
    assert q * step == value;
    assert (q - n as real) * step == value - Multiple(n, step);
  }

  lemma {:induction false} DivideMonotone(x: real, y: real, d: real)
    requires d > 0.0 && x <= y
    ensures x / d <= y / d
  {
    assert (y / d - x / d) * d == y - x;
  }

  lemma {:induction false} TimesMonotone(x: real, y: real, d: real)
    requires d >= 0.0 && x <= y
    ensures x * d <= y * d && d * x <= d * y
  {
    assert (y - x) * d >= 0.0;
  }

  lemma {:induction false} TimesStrict(x: real, y: real, d: real)
    requires d > 0.0 && x < y
    ensures x * d < y * d
  {
    assert (y - x) * d > 0.0;
  }

  lemma {:induction false} CancelFactor(x: real, y: real, d: real)
    requires d > 0.0 && x * d <= y * d
    ensures x <= y
  {
    if x > y {
      TimesStrict(y, x, d);
      assert false;
    }
  }

  lemma {:induction false} QuotientGrows(score: real, small: real, large: real)
    requires 0.0 <= score && 0.0 < small <= large
    ensures score / large <= score / small
  {
    var x := score / small;
    DivideMonotone(0.0, score, small);
    TimesMonotone(small, large, x);
    assert x * small == score;
    DivideMonotone(score, x * large, large);
  }

  /** `_quantize_to_step`: a non-positive step switches rounding off. */
  function ToStep(value: real, step: real): (r: real)
    ensures step > 0.0 && value >= 0.0 ==> 0.0 <= r <= value < r + step
    ensures step > 0.0 && value <= 0.0 ==> r - step < value <= r <= 0.0
  {
    if step <= 0.0 then value
    else
      var n := Trunc(value / step);
      QuotientBounds(value, 0, step);
      QuotientBounds(value, n, step);
      QuotientBounds(value, n + 1, step);
      QuotientBounds(value, n - 1, step);
      MultipleOrder(n, 0, step);
      MultipleOrder(0, n, step);
      MultipleOrder(n - 1, 0, step);
      Multiple(n, step)
  }

  /** A value that rounding leaves alone. */
  predicate OnStep(x: real, step: real) {
    ToStep(x, step) == x
  }

  lemma {:induction false} MultipleOnStep(k: int, step: real)
    requires step > 0.0
    ensures OnStep(Multiple(k, step), step)
  {
    assert Multiple(k, step) / step == k as real;
  }

  /** A value is on the grid exactly when it is a whole number of steps. */
  lemma {:induction false} OnStepIffMultiple(x: real, step: real)
    requires step > 0.0
    ensures OnStep(x, step) <==> exists k: int :: x == Multiple(k, step)
  {
    assert OnStep(x, step) ==> x == Multiple(Trunc(x / step), step);
    forall k: int | x == Multiple(k, step) ensures OnStep(x, step) {
      MultipleOnStep(k, step);
    }
  }

  /** The number of steps a grid point is made of. */
  ghost function StepsOf(x: real, step: real): (k: int)
    requires step > 0.0 && OnStep(x, step)
    ensures x == Multiple(k, step)
  {
    Trunc(x / step)
  }

  /** Rounding twice is rounding once. */
  lemma {:induction false} ToStepIdempotent(x: real, step: real)
    ensures OnStep(ToStep(x, step), step)
  {
    if step > 0.0 {
      MultipleOnStep(Trunc(x / step), step);
    }
  }

  lemma {:induction false} MultipleSum(i: int, j: int, step: real)
    ensures Multiple(i + j, step) == Multiple(i, step) + Multiple(j, step)
    ensures Multiple(i - j, step) == Multiple(i, step) - Multiple(j, step)
  {
  }

  lemma {:induction false} SumOnStep(x: real, y: real, step: real)
    requires OnStep(x, step) && OnStep(y, step)
    ensures OnStep(x + y, step) && OnStep(x - y, step)
  {
    if step > 0.0 {
      var i, j := StepsOf(x, step), StepsOf(y, step);
      MultipleSum(i, j, step);
      MultipleOnStep(i + j, step);
      MultipleOnStep(i - j, step);
    }
  }

  /** Two grid points less than one step apart are the same point. */
  lemma {:induction false} GridGap(x: real, y: real, step: real)
    requires step > 0.0 && OnStep(x, step) && OnStep(y, step)
    ensures x - step < y < x + step ==> x == y
  {
    var i, j := StepsOf(x, step), StepsOf(y, step);
    if x - step < y < x + step {
      MultipleOrder(i, j, step);
      MultipleOrder(j, i, step);
      MultipleOrder(i + 1, j, step);
      MultipleOrder(j + 1, i, step);
    }
  }

  /** Rounding a non-negative value down gives the largest grid point that does not exceed it. */
  lemma {:induction false} ToStepGreatest(x: real, g: real, step: real)
    requires x >= 0.0 && OnStep(g, step) && g <= x
    ensures g <= ToStep(x, step)
  {
    if step > 0.0 && ToStep(x, step) < g {
      ToStepIdempotent(x, step);
      GridGap(ToStep(x, step), g, step);
    }
  }

  lemma {:induction false} ToStepMonotone(x: real, y: real, step: real)
    requires 0.0 <= x <= y
    ensures ToStep(x, step) <= ToStep(y, step)
  {
    ToStepIdempotent(x, step);
    if step > 0.0 {
      ToStepGreatest(y, ToStep(x, step), step);
    }
  }

  /** Rounding a running total and rounding each addend disagree by at most one step. */
  lemma {:induction false} ToStepShift(base: real, x: real, step: real)
    requires step > 0.0 && OnStep(base, step)
    ensures Abs(ToStep(base + x, step) - (base + ToStep(x, step))) <= step
  {
    var l, r := ToStep(base + x, step), base + ToStep(x, step);
    ToStepIdempotent(base + x, step);
    ToStepIdempotent(x, step);
    SumOnStep(base, ToStep(x, step), step);
    // both are grid points strictly within one step of base + x
    var i, j := StepsOf(l, step), StepsOf(r, step);
    MultipleOrder(i, j, step);
    MultipleOrder(2, i - j, step);
    MultipleOrder(i - j, -2, step);
    MultipleOrder(1, 0, step);
    MultipleOrder(-2, 0, step);
    assert -2 < i - j < 2;
  }

  function Pow10(n: nat): (p: int)
    ensures p >= 1
  {
    if n == 0 then 1 else 10 * Pow10(n - 1)
  }

  /** `Decimal("1").scaleb(-precision)`. */
  function Quantum(precision: int): (q: real)
    ensures q > 0.0
  {
    if precision >= 0 then 1.0 / (Pow10(precision) as real) else Pow10(-precision) as real
  }

  function NonNegative(n: int): nat {
    if n < 0 then 0 else n
  }

  function RoundPrice(x: real, p: Policy): real {
    ToStep(x, p.priceTick)
  }

  function RoundQty(x: real, p: Policy): real {
    ToStep(x, p.qtyStep)
  }

  function RoundQuote(x: real, p: Policy): real {
    ToStep(x, Quantum(NonNegative(p.quotePrecision)))
  }

  function RoundFee(x: real, p: Policy): real {
    ToStep(x, Quantum(NonNegative(p.feePrecision)))
  }

  /** Ten quanta of one more digit are one quantum. */
  lemma {:induction false} QuantumScales(precision: int)
    ensures Quantum(0) == 1.0 && Quantum(precision) == 10.0 * Quantum(precision + 1)
  {
    if precision >= 0 {
      var p := Pow10(precision) as real;
      assert Pow10(precision + 1) as real == 10.0 * p;
      TenthOf(p);
    } else {
      assert Pow10(-precision) == 10 * Pow10(-precision - 1);
      assert precision == -1 ==> Quantum(precision + 1) == 1.0;
    }
  }

  lemma {:induction false} TenthOf(p: real)
    requires p > 0.0
    ensures 1.0 / p == 10.0 * (1.0 / (10.0 * p))
  {
    var a, b := 1.0 / p, 1.0 / (10.0 * p);
    assert a * p == 1.0 && b * (10.0 * p) == 1.0;
    assert (10.0 * b) * p == 1.0;
    assert (a - 10.0 * b) * p == 0.0;
  }

  /** Rounded toward zero to the nearest grid point; a grid without spacing rounds nothing. */
  ghost predicate RoundedTo(x: real, r: real, step: real) {
    && OnStep(r, step)
    && (step <= 0.0 ==> r == x)
    && (step > 0.0 && x >= 0.0 ==> 0.0 <= r <= x < r + step)
    && (step > 0.0 && x <= 0.0 ==> r - step < x <= r <= 0.0)
  }

  /** Prices, quantities, quotes and fees are each rounded to their own grid; a negative precision counts as none. */
  lemma {:induction false} RoundsToOwnGrid(x: real, p: Policy)
    ensures RoundedTo(x, RoundPrice(x, p), p.priceTick) && RoundedTo(x, RoundQty(x, p), p.qtyStep)
    ensures RoundedTo(x, RoundQuote(x, p), Quantum(if p.quotePrecision < 0 then 0 else p.quotePrecision))
    ensures RoundedTo(x, RoundFee(x, p), Quantum(if p.feePrecision < 0 then 0 else p.feePrecision))
  {
    ToStepIdempotent(x, p.priceTick);
    ToStepIdempotent(x, p.qtyStep);
    ToStepIdempotent(x, Quantum(NonNegative(p.quotePrecision)));
    ToStepIdempotent(x, Quantum(NonNegative(p.feePrecision)));
  }

  /** `round_qty` under a policy. */
  function QtyRounding(p: Policy): real -> real {
    x => RoundQty(x, p)
  }

  /** `round_quote` under a policy. */
  function QuoteRounding(p: Policy): real -> real {
    x => RoundQuote(x, p)
  }

  lemma {:induction false} RoundingKeepsZero(p: Policy)
    ensures QtyRounding(p)(0.0) == 0.0 && QuoteRounding(p)(0.0) == 0.0
  {
    assert p.qtyStep > 0.0 ==> OnStep(Multiple(0, p.qtyStep), p.qtyStep) by {
      if p.qtyStep > 0.0 { MultipleOnStep(0, p.qtyStep); }
    }
    MultipleOnStep(0, Quantum(NonNegative(p.quotePrecision)));
  }

  // --- what the ledgers rely on of a money rounding

  ghost function QuoteQuantum(p: Policy): real {
    Quantum(NonNegative(p.quotePrecision))
  }

  /** n quanta. */
  ghost function Quanta(n: nat, q: real): real {
    if n == 0 then 0.0 else Quanta(n - 1, q) + q
  }

  lemma {:induction false} QuantaAdd(m: nat, n: nat, q: real)
    requires q > 0.0
    ensures Quanta(m + n, q) == Quanta(m, q) + Quanta(n, q)
    ensures Quanta(n, q) == Multiple(n, q)
  {
    if n > 0 {
      QuantaAdd(m, n - 1, q);
      MultipleOrder(n - 1, 0, q);
    }
  }

  /** How far off the rounding is on the difference of two values it leaves alone. */
  ghost function Residue(round: real -> real, x: real, y: real): real {
    if round(x) == x && round(y) == y then round(x - y) - (x - y) else 0.0
  }

  /** The values a rounding leaves alone are closed under subtraction. */
  ghost predicate Grid(round: real -> real) {
    forall x, y :: Residue(round, x, y) == 0.0
  }

  /** How far rounding a total is from adding a rounded amount to a rounded total. */
  ghost function ShiftError(round: real -> real, total: real, x: real): real {
    if round(total) == total then Abs(round(total + x) - (total + round(x))) else 0.0
  }

  /** What a second rounding changes. */
  ghost function Unsettled(round: real -> real, x: real): real {
    round(round(x)) - round(x)
  }

  ghost function RoundError(round: real -> real, x: real): real {
    Abs(round(x) - x)
  }

  /** A rounding to a grid that holds zero, never off by more than one quantum. */
  ghost predicate MoneyRounding(round: real -> real, q: real) {
    && q > 0.0 && round(0.0) == 0.0 && Grid(round)
    && (forall x :: Unsettled(round, x) == 0.0)
    && (forall x :: RoundError(round, x) <= q)
    && (forall total, x :: ShiftError(round, total, x) <= q)
  }

  lemma {:induction false} RoundQtyGrid(p: Policy)
    ensures Grid(QtyRounding(p))
  {
    forall x, y ensures Residue(QtyRounding(p), x, y) == 0.0 {
      if OnStep(x, p.qtyStep) && OnStep(y, p.qtyStep) {
        SumOnStep(x, y, p.qtyStep);
      }
    }
  }

  lemma {:induction false} RoundQuoteGrid(p: Policy)
    ensures Grid(QuoteRounding(p))
  {
    var q := QuoteQuantum(p);
    forall x, y ensures Residue(QuoteRounding(p), x, y) == 0.0 {
      if OnStep(x, q) && OnStep(y, q) {
        SumOnStep(x, y, q);
      }
    }
  }

  lemma {:induction false} RoundQuoteErrors(p: Policy, total: real, x: real)
    ensures Unsettled(QuoteRounding(p), x) == 0.0
    ensures RoundError(QuoteRounding(p), x) <= QuoteQuantum(p)
    ensures ShiftError(QuoteRounding(p), total, x) <= QuoteQuantum(p)
  {
    ToStepIdempotent(x, QuoteQuantum(p));
    if OnStep(total, QuoteQuantum(p)) {
      ToStepShift(total, x, QuoteQuantum(p));
    }
  }

  /** `round_quote` is such a rounding, under every policy. */
  lemma {:induction false} RoundQuoteIsMoney(p: Policy)
    ensures MoneyRounding(QuoteRounding(p), QuoteQuantum(p))
  {
    RoundQuoteGrid(p);
    RoundingKeepsZero(p);
    forall x ensures Unsettled(QuoteRounding(p), x) == 0.0 && RoundError(QuoteRounding(p), x) <= QuoteQuantum(p) {
      RoundQuoteErrors(p, 0.0, x);
    }
    forall total, x ensures ShiftError(QuoteRounding(p), total, x) <= QuoteQuantum(p) {
      RoundQuoteErrors(p, total, x);
    }
  }
}
