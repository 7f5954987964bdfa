/** `size_order_from_notional`: an order candidate from a desired notional, a price and the exchange's rules. */
module NotionalSizing {
  import opened Money
  import opened Results

  datatype SymbolRules = SymbolRules(
    priceScale: int, quantityScale: int, minTotal: Option<real>, minPrice: Option<real>, maxPrice: Option<real>,
    minQty: Option<real>, maxQty: Option<real>, tickSize: Option<real>, stepSize: Option<real>)

  function PriceStep(rules: SymbolRules): (step: real)
    ensures step > 0.0
  {
    if rules.tickSize.Some? && rules.tickSize.value > 0.0 then rules.tickSize.value else Quantum(rules.priceScale)
  }

  function QtyStep(rules: SymbolRules): (step: real)
    ensures step > 0.0
  {
    if rules.stepSize.Some? && rules.stepSize.value > 0.0 then rules.stepSize.value else Quantum(rules.quantityScale)
  }

  datatype ValidationError =
    | NegativePrice | NegativeQuantity | PriceNotPositive | QuantityNotPositive | PriceScale | QuantityScale
    | PriceBelowMin | PriceAboveMax | QuantityBelowMin | QuantityAboveMax | TotalBelowMin

  function QuantizePrice(price: real, rules: SymbolRules): Result<real, ValidationError> {
    if price < 0.0 then Err(NegativePrice) else Ok(ToStep(price, PriceStep(rules)))
  }

  function QuantizeQuantity(qty: real, rules: SymbolRules): Result<real, ValidationError> {
    if qty < 0.0 then Err(NegativeQuantity) else Ok(ToStep(qty, QtyStep(rules)))
  }

  function Total(price: real, qty: real): real {
    price * qty
  }

  predicate Below(x: real, bound: Option<real>) {
    bound.Some? && x < bound.value
  }

  predicate Above(x: real, bound: Option<real>) {
    bound.Some? && x > bound.value
  }

  /** `validate_order`; None is no violation. */
  function ValidateOrder(price: real, qty: real, rules: SymbolRules): Option<ValidationError> {
    if price <= 0.0 then Some(PriceNotPositive)
    else if qty <= 0.0 then Some(QuantityNotPositive)
    else if QuantizePrice(price, rules) != Ok(price) then Some(PriceScale)
    else if QuantizeQuantity(qty, rules) != Ok(qty) then Some(QuantityScale)
    else if Below(price, rules.minPrice) then Some(PriceBelowMin)
    else if Above(price, rules.maxPrice) then Some(PriceAboveMax)
    else if Below(qty, rules.minQty) then Some(QuantityBelowMin)
    else if Above(qty, rules.maxQty) then Some(QuantityAboveMax)
    else if Below(Total(price, qty), rules.minTotal) then Some(TotalBelowMin)
    else None
  }

  datatype Status = SizedOk | BelowMinNotional | InvalidPrice | InvalidQuantity | ViolatesRules

  datatype Sizing = Sizing(status: Status, price: real, qty: real, notional: real)

  /** A missing or zero exchange minimum leaves the fallback. */
  function MinNotional(rules: SymbolRules, fallback: real): (minimum: real)
    ensures rules.minTotal.None? || rules.minTotal.value == 0.0 ==> minimum == fallback
    ensures rules.minTotal.Some? && rules.minTotal.value != 0.0 ==> Some(minimum) == rules.minTotal
  {
    if rules.minTotal.Some? && rules.minTotal.value != 0.0 then rules.minTotal.value else fallback
  }

  function Target(desired: real, minimum: real, upgrade: bool): real {
    if upgrade then Max(desired, minimum) else desired
  }

  function Quotient(x: real, y: real): real
    requires y > 0.0
  {
    x / y
  }

  function SizeFromNotional(desired: real, price: real, rules: SymbolRules, fallback: real, upgrade: bool): Sizing {
    var minimum := MinNotional(rules, fallback);
    if desired <= 0.0 then Sizing(InvalidQuantity, 0.0, 0.0, 0.0)
    else if price <= 0.0 then Sizing(InvalidPrice, 0.0, 0.0, 0.0)
    else
      var p := QuantizePrice(price, rules).value;
      if minimum > desired && !upgrade then Sizing(BelowMinNotional, p, 0.0, 0.0)
      else if p <= 0.0 then Sizing(InvalidPrice, p, 0.0, 0.0)
      else
        var q := QuantizeQuantity(Quotient(Target(desired, minimum, upgrade), p), rules);
        if q.Err? then Sizing(InvalidQuantity, p, 0.0, 0.0) else Conclude(p, q.value, minimum, rules)
  }

  /** The tests on a quantized order. */
  function Conclude(p: real, q: real, minimum: real, rules: SymbolRules): Sizing {
    var notional := Total(p, q);
    if q <= 0.0 then Sizing(InvalidQuantity, p, q, notional)
    else if minimum > 0.0 && notional < minimum then Sizing(BelowMinNotional, p, q, notional)
    else if ValidateOrder(p, q, rules).Some? then Sizing(ViolatesRules, p, q, notional)
    else Sizing(SizedOk, p, q, notional)
  }

  /** A sized order: on both grids, within the target, and short of it by less than one step's value. */
  ghost predicate Maximal(p: real, q: real, target: real, rules: SymbolRules) {
    && OnStep(p, PriceStep(rules)) && OnStep(q, QtyStep(rules)) && p > 0.0 && q >= 0.0
    && Total(p, q) <= target < Total(p, q) + Total(p, QtyStep(rules))
  }

  lemma {:induction false} FlooredIsMaximal(p: real, target: real, rules: SymbolRules)
    requires p > 0.0 && target >= 0.0 && OnStep(p, PriceStep(rules))
    ensures QuantizeQuantity(Quotient(target, p), rules).Ok?
    ensures Maximal(p, QuantizeQuantity(Quotient(target, p), rules).value, target, rules)
  {
    var raw, step := Quotient(target, p), QtyStep(rules);
    DivideMonotone(0.0, target, p);
    var q := ToStep(raw, step);
    ToStepIdempotent(raw, step);
    QuotientTimes(target, p);
    Between(p, q, raw, step);
  }

  lemma {:induction false} Between(p: real, q: real, raw: real, step: real)
    requires p > 0.0 && q <= raw < q + step
    ensures Total(p, q) <= Total(p, raw) < Total(p, q) + Total(p, step)
  {
    TimesMonotone(q, raw, p);
    var gap := q + step - raw;
    assert p * gap > 0.0;
    assert p * gap == p * q + p * step - p * raw;
  }

  /** No larger grid quantity fits the target. */
  lemma {:induction false} NothingLargerFits(p: real, q: real, target: real, g: real, rules: SymbolRules)
    requires Maximal(p, q, target, rules) && OnStep(g, QtyStep(rules)) && Total(p, g) <= target
    ensures g <= q
  {
    var step := QtyStep(rules);
    assert Total(p, g) < Total(p, q + step) by { assert p * (q + step) == p * q + p * step; }
    if g > q {
      CancelPrice(p, g, q + step);
      GridGap(q, g, step);
      assert false;
    }
  }

  lemma {:induction false} CancelPrice(p: real, x: real, y: real)
    requires p > 0.0 && Total(p, x) < Total(p, y)
    ensures x < y
  {
    if x >= y {
      TimesMonotone(y, x, p);
      assert false;
    }
  }

  /** What an order that gets as far as the final tests can still violate: a price or quantity bound. */
  predicate OutOfBounds(p: real, q: real, rules: SymbolRules) {
    || (rules.minPrice.Some? && p < rules.minPrice.value) || (rules.maxPrice.Some? && p > rules.maxPrice.value)
    || (rules.minQty.Some? && q < rules.minQty.value) || (rules.maxQty.Some? && q > rules.maxQty.value)
  }

  lemma {:induction false} ValidationIsBounds(p: real, q: real, rules: SymbolRules, fallback: real)
    requires p > 0.0 && q > 0.0 && OnStep(p, PriceStep(rules)) && OnStep(q, QtyStep(rules))
    requires var minimum := MinNotional(rules, fallback); minimum <= 0.0 || Total(p, q) >= minimum
    ensures ValidateOrder(p, q, rules).Some? <==> OutOfBounds(p, q, rules)
  {
    assert Total(p, q) > 0.0;
  }

  /** How a sizing that reaches the quantized order ends. */
  lemma {:induction false} Concluded(p: real, q: real, target: real, rules: SymbolRules, fallback: real)
    requires Maximal(p, q, target, rules)
    ensures var minimum := MinNotional(rules, fallback);
            var r := Conclude(p, q, minimum, rules);
            && (r.status.ViolatesRules? <==> q > 0.0 && !(minimum > 0.0 && Total(p, q) < minimum) && OutOfBounds(p, q, rules))
            && (r.status.SizedOk? <==> q > 0.0 && !(minimum > 0.0 && Total(p, q) < minimum) && !OutOfBounds(p, q, rules))
  {
    var minimum := MinNotional(rules, fallback);
    if q > 0.0 && !(minimum > 0.0 && Total(p, q) < minimum) {
      ValidationIsBounds(p, q, rules, fallback);
    }
  }

  /** Past the input tests, the order is the maximal one for its target. */
  lemma {:induction false} SizingReaches(desired: real, price: real, rules: SymbolRules, fallback: real, upgrade: bool)
    returns (p: real, q: real)
    requires desired > 0.0 && price > 0.0 && (upgrade || MinNotional(rules, fallback) <= desired)
    requires QuantizePrice(price, rules) != Ok(0.0)
    ensures QuantizePrice(price, rules) == Ok(p) && Maximal(p, q, Target(desired, MinNotional(rules, fallback), upgrade), rules)
    ensures SizeFromNotional(desired, price, rules, fallback, upgrade) == Conclude(p, q, MinNotional(rules, fallback), rules)
  {
    var target := Target(desired, MinNotional(rules, fallback), upgrade);
    p := QuantizePrice(price, rules).value;
    ToStepIdempotent(price, PriceStep(rules));
    FlooredIsMaximal(p, target, rules);
    q := QuantizeQuantity(Quotient(target, p), rules).value;
  }

  /** The sizings that get past the tests on the desired notional and the price. */
  predicate Reaches(desired: real, price: real, rules: SymbolRules, fallback: real, upgrade: bool) {
    && desired > 0.0 && price > 0.0 && (upgrade || MinNotional(rules, fallback) <= desired)
    && QuantizePrice(price, rules) != Ok(0.0)
  }

  lemma {:induction false} EarlyExit(desired: real, price: real, rules: SymbolRules, fallback: real, upgrade: bool)
    requires !Reaches(desired, price, rules, fallback, upgrade)
    ensures var s := SizeFromNotional(desired, price, rules, fallback, upgrade).status;
            s.InvalidQuantity? || s.InvalidPrice? || s.BelowMinNotional?
  {
  }

  /**
   An accepted order is on both grids, meets a positive minimum, does not exceed the target and is
   short of it by less than one step's value: no larger grid quantity would fit.
   */
  lemma {:induction false} AcceptedIsMaximal(desired: real, price: real, rules: SymbolRules, fallback: real, upgrade: bool, g: real)
    ensures var s := SizeFromNotional(desired, price, rules, fallback, upgrade);
            var minimum := MinNotional(rules, fallback);
            s.status.SizedOk? ==>
              && Maximal(s.price, s.qty, Target(desired, minimum, upgrade), rules)
              && s.notional == Total(s.price, s.qty) && (minimum > 0.0 ==> s.notional >= minimum)
              && s.qty > 0.0 && !OutOfBounds(s.price, s.qty, rules)
              && (OnStep(g, QtyStep(rules)) && Total(s.price, g) <= Target(desired, minimum, upgrade) ==> g <= s.qty)
  {
    if Reaches(desired, price, rules, fallback, upgrade) {
      var p, q := SizingReaches(desired, price, rules, fallback, upgrade);
      var target := Target(desired, MinNotional(rules, fallback), upgrade);
      Concluded(p, q, target, rules, fallback);
      if OnStep(g, QtyStep(rules)) && Total(p, g) <= target {
        NothingLargerFits(p, q, target, g, rules);
      }
    } else {
      EarlyExit(desired, price, rules, fallback, upgrade);
    }
  }

  /** The order considered for a target: the price rounded down, and the most it buys. */
  ghost predicate Considered(desired: real, price: real, p: real, q: real, minimum: real, upgrade: bool, rules: SymbolRules) {
    && p <= price < p + PriceStep(rules) && OnStep(p, PriceStep(rules)) && 0.0 <= p
    && (p > 0.0 ==> Maximal(p, q, if upgrade && desired < minimum then minimum else desired, rules))
  }

  lemma {:induction false} ConcludedExactly(p: real, q: real, target: real, rules: SymbolRules, fallback: real)
    requires Maximal(p, q, target, rules)
    ensures var r, minimum := Conclude(p, q, MinNotional(rules, fallback), rules), MinNotional(rules, fallback);
            && r.price == p && r.qty == q && r.notional == Total(p, q)
            && r.status == if q == 0.0 then InvalidQuantity
                           else if minimum > 0.0 && Total(p, q) < minimum then BelowMinNotional
                           else if OutOfBounds(p, q, rules) then ViolatesRules
                           else SizedOk
  {
    Concluded(p, q, target, rules, fallback);
  }

  lemma {:induction false} FloorOf(price: real, rules: SymbolRules)
    requires price > 0.0
    ensures var p := ToStep(price, PriceStep(rules));
            && QuantizePrice(price, rules) == Ok(p) && 0.0 <= p <= price < p + PriceStep(rules) && OnStep(p, PriceStep(rules))
  {
    ToStepIdempotent(price, PriceStep(rules));
  }

  /**
   How a positive sizing ends, in every case: below the minimum without an upgrade; a price below one tick;
   a quantity below one step; rounded down below a positive minimum; out of bounds; or accepted.
   */
  lemma {:induction false} SizedExactly(desired: real, price: real, rules: SymbolRules, fallback: real, upgrade: bool)
    returns (p: real, q: real)
    requires desired > 0.0 && price > 0.0
    ensures Considered(desired, price, p, q, MinNotional(rules, fallback), upgrade, rules)
    ensures var s, minimum := SizeFromNotional(desired, price, rules, fallback, upgrade), MinNotional(rules, fallback);
            && s.price == p
            && s.status ==
               (if minimum > desired && !upgrade then BelowMinNotional
                else if p == 0.0 then InvalidPrice
                else if q == 0.0 then InvalidQuantity
                else if minimum > 0.0 && Total(p, q) < minimum then BelowMinNotional
                else if OutOfBounds(p, q, rules) then ViolatesRules
                else SizedOk)
            && (s.status.SizedOk? || s.status.ViolatesRules? ==> s.qty == q && s.notional == Total(p, q))
  {
    var minimum := MinNotional(rules, fallback);
    p, q := ToStep(price, PriceStep(rules)), 0.0;
    FloorOf(price, rules);
    if p > 0.0 && (upgrade || minimum <= desired) {
      p, q := SizingReaches(desired, price, rules, fallback, upgrade);
      ConcludedExactly(p, q, Target(desired, minimum, upgrade), rules, fallback);
    } else if p > 0.0 {
      FlooredIsMaximal(p, desired, rules);
      q := QuantizeQuantity(Quotient(desired, p), rules).value;
    }
  }

  /** The last check finds bounds on price and quantity and nothing else, never the grid or the minimum total. */
  lemma {:induction false} ViolationsAreBounds(desired: real, price: real, rules: SymbolRules, fallback: real, upgrade: bool)
    ensures var s := SizeFromNotional(desired, price, rules, fallback, upgrade);
            s.status.ViolatesRules? ==>
              && OutOfBounds(s.price, s.qty, rules)
              && ValidateOrder(s.price, s.qty, rules).Some?
              && ValidateOrder(s.price, s.qty, rules).value in {PriceBelowMin, PriceAboveMax, QuantityBelowMin, QuantityAboveMax}
  {
    if Reaches(desired, price, rules, fallback, upgrade) {
      var p, q := SizingReaches(desired, price, rules, fallback, upgrade);
      Concluded(p, q, Target(desired, MinNotional(rules, fallback), upgrade), rules, fallback);
    } else {
      EarlyExit(desired, price, rules, fallback, upgrade);
    }
  }

  /** An order for a whole target, nothing left over, is one whose exact quantity is on the grid. */
  lemma {:induction false} ExactFit(p: real, q: real, target: real, rules: SymbolRules)
    requires Maximal(p, q, target, rules)
    ensures Total(p, q) == target <==> OnStep(Quotient(target, p), QtyStep(rules))
  {
    var exact := Quotient(target, p);
    QuotientTimes(target, p);
    if Total(p, q) == target {
      SameTotal(p, q, exact);
    }
    if OnStep(exact, QtyStep(rules)) {
      NothingLargerFits(p, q, target, exact, rules);
      TimesMonotone(exact, q, p);
    }
  }

  lemma {:induction false} QuotientTimes(target: real, p: real)
    requires p > 0.0
    ensures Total(p, Quotient(target, p)) == target
  {
  }

  lemma {:induction false} SameTotal(p: real, x: real, y: real)
    requires p > 0.0 && Total(p, x) == Total(p, y)
    ensures x == y
  {
    CancelFactor(x, y, p);
    CancelFactor(y, x, p);
  }

  /**
   Upgrading to the minimum rarely helps: quantities are floored, so a desired notional below the
   minimum is raised to an order that meets it exactly when the minimum, at the quantized price, is a
   whole number of quantity steps.
   */
  lemma {:induction false} UpgradeNeedsAnExactFit(desired: real, price: real, rules: SymbolRules, fallback: real)
    requires 0.0 < desired < MinNotional(rules, fallback) && price > 0.0 && QuantizePrice(price, rules).value > 0.0
    ensures var s := SizeFromNotional(desired, price, rules, fallback, true);
            s.status.SizedOk? || s.status.ViolatesRules?
            <==> OnStep(Quotient(MinNotional(rules, fallback), QuantizePrice(price, rules).value), QtyStep(rules))
  {
    var minimum := MinNotional(rules, fallback);
    var p, q := SizingReaches(desired, price, rules, fallback, true);
    Concluded(p, q, minimum, rules, fallback);
    ExactFit(p, q, minimum, rules);
    if q == 0.0 {
      assert Total(p, q) == 0.0;
    }
  }
}
