/** Order sizing: from a stage 4 action, and from a desired notional. */
module OrderSizing {
  import opened Money
  import opened Results
  import opened Quantizer

  // --- stage 4 submit

  datatype Sized =
    | BadInput(error: ValueError)
    | BelowMinimum(price: real, qty: real)
    | AboveCap(price: real, qty: real)
    | Order(price: real, qty: real)

  /** The larger of the configured and the exchange's minimum. */
  function MinRequired(configured: real, rules: ExchangeRules): (r: real)
    ensures configured <= r && rules.minNotional <= r && (r == configured || r == rules.minNotional)
  {
    Max(configured, rules.minNotional)
  }

  function Notional(price: real, qty: real): real {
    price * qty
  }

  function Needed(minimum: real, price: real): real
    requires price > 0.0
  {
    minimum / price
  }

  /** The quantity after the round-up repair of an order that flooring took below the minimum. */
  function RepairedQty(intent: real, price: real, qty: real, minimum: real, rules: ExchangeRules): real {
    if Notional(price, qty) < minimum && intent >= minimum && price > 0.0 then
      var up := QuantizeQtyUp(Needed(minimum, price), rules);
      if Notional(price, up) >= minimum then up else qty
    else qty
  }

  /** The sizing part of `_execute_submit_action`; None is no cap. */
  function SizeAction(price: real, qty: real, configuredMin: real, cap: Option<real>, rules: ExchangeRules): Sized {
    var p, q := QuantizePrice(price, rules), QuantizeQty(qty, rules);
    if p.Err? then BadInput(p.error)
    else if q.Err? then BadInput(q.error)
    else Finish(p.value, RepairedQty(Notional(price, qty), p.value, q.value, MinRequired(configuredMin, rules), rules),
                MinRequired(configuredMin, rules), cap)
  }

  function Finish(price: real, qty: real, minimum: real, cap: Option<real>): Sized {
    if Notional(price, qty) < minimum then BelowMinimum(price, qty)
    else if cap.Some? && cap.value > 0.0 && Notional(price, qty) > cap.value then AboveCap(price, qty)
    else Order(price, qty)
  }

  lemma {:induction false} NotionalMonotone(p: real, q: real, p': real, q': real)
    requires 0.0 <= p <= p' && 0.0 <= q <= q'
    ensures 0.0 <= Notional(p, q) <= Notional(p', q')
  {
    TimesMonotone(p, p', q);
    TimesMonotone(q, q', p');
    TimesMonotone(0.0, p, q);
  }

  /** What the repair leaves: a grid quantity, enough for the minimum by less than one step's value. */
  ghost predicate Repaired(price: real, up: real, minimum: real, step: real) {
    && OnStep(up, step) && minimum <= Notional(price, up) < minimum + Notional(price, step)
  }

  /** The repair always works when there is a price. */
  lemma {:induction false} RepairWorks(price: real, minimum: real, rules: ExchangeRules)
    requires price > 0.0 && minimum > 0.0
    ensures Repaired(price, QuantizeQtyUp(Needed(minimum, price), rules), minimum, QtyStep(rules))
  {
    var needed, step := Needed(minimum, price), QtyStep(rules);
    var up := QuantizeQtyUp(needed, rules);
    NeededTimes(minimum, price);
    NeededIsLeast(minimum, price, needed);
    Stretch(price, needed, up, step);
  }

  lemma {:induction false} Stretch(price: real, needed: real, up: real, step: real)
    requires price > 0.0 && needed <= up < needed + step
    ensures Notional(price, needed) <= Notional(price, up) < Notional(price, needed) + Notional(price, step)
  {
    TimesMonotone(needed, up, price);
    var gap := needed + step - up;
    assert price * gap > 0.0;
    assert price * gap == price * needed + price * step - price * up;
  }

  /** The repair takes no more than it must: no smaller grid quantity meets the minimum. */
  lemma {:induction false} RepairIsLeast(price: real, minimum: real, g: real, rules: ExchangeRules)
    requires price > 0.0 && minimum > 0.0 && OnStep(g, QtyStep(rules)) && Notional(price, g) >= minimum
    ensures QuantizeQtyUp(Needed(minimum, price), rules) <= g
  {
    NeededIsLeast(minimum, price, g);
    LeastOnGrid(Needed(minimum, price), QuantizeQtyUp(Needed(minimum, price), rules), g, QtyStep(rules));
  }

  lemma {:induction false} NeededTimes(minimum: real, price: real)
    requires price > 0.0
    ensures Needed(minimum, price) * price == minimum
  {
  }

  /** Whatever meets the minimum is at least what is needed, and what is needed is positive. */
  lemma {:induction false} NeededIsLeast(minimum: real, price: real, g: real)
    requires price > 0.0 && minimum > 0.0 && Notional(price, g) >= minimum
    ensures 0.0 < Needed(minimum, price) <= g
  {
    var needed := Needed(minimum, price);
    NeededTimes(minimum, price);
    assert needed * price <= g * price;
    CancelFactor(needed, g, price);
    if needed <= 0.0 {
      TimesMonotone(needed, 0.0, price);
      assert false;
    }
  }

  lemma {:induction false} LeastOnGrid(needed: real, up: real, g: real, step: real)
    requires step > 0.0 && OnStep(up, step) && OnStep(g, step) && needed <= g && up < needed + step
    ensures up <= g
  {
    GridGap(up, g, step);
  }

  /** An intent whose floored order falls short of the minimum, and what becomes of it. */
  lemma {:induction false} RepairOutcome(intent: real, price: real, qty: real, minimum: real, rules: ExchangeRules)
    requires price >= 0.0 && 0.0 <= Notional(price, qty) <= intent && OnStep(qty, QtyStep(rules))
    ensures var q := RepairedQty(intent, price, qty, minimum, rules);
            && OnStep(q, QtyStep(rules))
            && (Notional(price, q) < minimum <==> intent < minimum || (price == 0.0 && minimum > 0.0))
            && (q == qty || (price > 0.0 && Notional(price, qty) < minimum && Repaired(price, q, minimum, QtyStep(rules))))
  {
    if Notional(price, qty) < minimum && intent >= minimum && price > 0.0 {
      RepairWorks(price, minimum, rules);
    } else if price == 0.0 {
      assert Notional(price, qty) == 0.0;
    }
  }

  /** A valid intent reaches the final tests with both quantities on their grids. */
  lemma {:induction false} SizeReaches(price: real, qty: real, configuredMin: real, cap: Option<real>, rules: ExchangeRules)
    returns (p: real, q: real)
    requires price > 0.0 && qty > 0.0
    ensures SizeAction(price, qty, configuredMin, cap, rules) == Finish(p, q, MinRequired(configuredMin, rules), cap)
    ensures QuantizePrice(price, rules) == Ok(p) && OnStep(p, PriceStep(rules)) && OnStep(q, QtyStep(rules))
    ensures var minimum := MinRequired(configuredMin, rules);
            && (Notional(p, q) < minimum <==> Notional(price, qty) < minimum || (p == 0.0 && minimum > 0.0))
            && (QuantizeQty(qty, rules) == Ok(q) || (p > 0.0 && Repaired(p, q, minimum, QtyStep(rules))))
  {
    p := QuantizePrice(price, rules).value;
    var floor := QuantizeQty(qty, rules).value;
    q := RepairedQty(Notional(price, qty), p, floor, MinRequired(configuredMin, rules), rules);
    NotionalMonotone(p, floor, price, qty);
    RepairOutcome(Notional(price, qty), p, floor, MinRequired(configuredMin, rules), rules);
  }

  /** Price and quantity rounded down to their grids. */
  ghost predicate Floored(value: real, grid: real, step: real) {
    OnStep(grid, step) && 0.0 <= grid <= value < grid + step
  }

  /**
   An order that may be sent for an intent: the price rounded down to the tick; the quantity rounded down
   to its step, or a grid quantity that overshoots the minimum by less than one step's value; worth at
   least the minimum and at most a positive cap.
   */
  ghost predicate SizedWell(intentPrice: real, intentQty: real, price: real, qty: real, minimum: real, cap: Option<real>, rules: ExchangeRules) {
    && Floored(intentPrice, price, PriceStep(rules)) && OnStep(qty, QtyStep(rules)) && qty >= 0.0
    && minimum <= price * qty && (cap.Some? && cap.value > 0.0 ==> price * qty <= cap.value)
    && (Floored(intentQty, qty, QtyStep(rules))
        || (intentPrice * intentQty >= minimum && price * qty < minimum + price * QtyStep(rules)))
  }

  lemma {:induction false} PositiveQty(price: real, qty: real)
    requires price > 0.0 && Notional(price, qty) > 0.0
    ensures qty > 0.0
  {
    if qty <= 0.0 {
      TimesMonotone(qty, 0.0, price);
      assert false;
    }
  }

  /** Every order stage 4 submits or simulates may be sent for its intent; only empty intents are bad input. */
  lemma {:induction false} SizedOrders(price: real, qty: real, configuredMin: real, cap: Option<real>, rules: ExchangeRules)
    ensures var s := SizeAction(price, qty, configuredMin, cap, rules);
            && (s.BadInput? <==> price <= 0.0 || qty <= 0.0)
            && (s.Order? ==> SizedWell(price, qty, s.price, s.qty, MinRequired(configuredMin, rules), cap, rules))
  {
    if price > 0.0 && qty > 0.0 {
      var minimum := MinRequired(configuredMin, rules);
      var p, q := SizeReaches(price, qty, configuredMin, cap, rules);
      if QuantizeQty(qty, rules) != Ok(q) {
        PositiveQty(p, q);
      }
      FinishedWell(price, qty, p, q, minimum, cap, rules);
    }
  }

  lemma {:induction false} FinishedWell(intentPrice: real, intentQty: real, price: real, qty: real, minimum: real, cap: Option<real>, rules: ExchangeRules)
    requires Floored(intentPrice, price, PriceStep(rules)) && OnStep(qty, QtyStep(rules)) && qty >= 0.0
    requires Floored(intentQty, qty, QtyStep(rules))
             || (Notional(intentPrice, intentQty) >= minimum && Repaired(price, qty, minimum, QtyStep(rules)))
    ensures var s := Finish(price, qty, minimum, cap);
            s.Order? ==> s == Order(price, qty) && SizedWell(intentPrice, intentQty, price, qty, minimum, cap, rules)
  {
  }

  /**
   A minimum-notional reject happens exactly when the minimum is positive and the intent is worth less
   than it or its price floors to zero.
   */
  lemma {:induction false} RejectedExactly(price: real, qty: real, configuredMin: real, cap: Option<real>, rules: ExchangeRules)
    requires price > 0.0 && qty > 0.0
    ensures var minimum := MinRequired(configuredMin, rules);
            SizeAction(price, qty, configuredMin, cap, rules).BelowMinimum?
            <==> minimum > 0.0 && (Notional(price, qty) < minimum || QuantizePrice(price, rules) == Ok(0.0))
  {
    var p, q := SizeReaches(price, qty, configuredMin, cap, rules);
    NotionalMonotone(0.0, 0.0, price, qty);
  }

  lemma {:induction false} NotionalGrows(price: real, x: real, y: real)
    requires price >= 0.0 && x <= y
    ensures Notional(price, x) <= Notional(price, y)
  {
    TimesMonotone(x, y, price);
  }

  /** The quantity taken is the least grid quantity from the floored one on that meets the minimum. */
  lemma {:induction false} TakenIsLeast(intent: real, price: real, floor: real, g: real, minimum: real, rules: ExchangeRules)
    requires price >= 0.0 && 0.0 <= floor <= g && OnStep(g, QtyStep(rules)) && Notional(price, g) >= minimum
    requires Notional(price, RepairedQty(intent, price, floor, minimum, rules)) >= minimum
    ensures Notional(price, RepairedQty(intent, price, floor, minimum, rules)) <= Notional(price, g)
  {
    NotionalMonotone(price, floor, price, g);
    var q := RepairedQty(intent, price, floor, minimum, rules);
    if q != floor {
      RepairIsLeast(price, minimum, g, rules);
      NotionalGrows(price, q, g);
    }
  }

  lemma {:induction false} TakenIsOnGrid(intent: real, price: real, floor: real, minimum: real, rules: ExchangeRules)
    requires price >= 0.0 && floor >= 0.0 && OnStep(floor, QtyStep(rules))
    ensures var q := RepairedQty(intent, price, floor, minimum, rules);
            OnStep(q, QtyStep(rules)) && q >= floor
  {
    var q := RepairedQty(intent, price, floor, minimum, rules);
    if q != floor {
      assert Notional(price, floor) < minimum <= Notional(price, q);
      CancelFactor(floor, q, price);
    }
  }

  /** A cap reject happens exactly when no grid quantity from the floored one on is worth the minimum and within the cap. */
  lemma {:induction false} CappedExactly(price: real, qty: real, configuredMin: real, cap: Option<real>, rules: ExchangeRules)
    requires price > 0.0 && qty > 0.0
    ensures var s, minimum := SizeAction(price, qty, configuredMin, cap, rules), MinRequired(configuredMin, rules);
            var p, floor := QuantizePrice(price, rules).value, QuantizeQty(qty, rules).value;
            s.AboveCap? <==>
              && cap.Some? && cap.value > 0.0 && !s.BelowMinimum?
              && forall g :: OnStep(g, QtyStep(rules)) && g >= floor && Notional(p, g) >= minimum ==> Notional(p, g) > cap.value
  {
    var s, minimum := SizeAction(price, qty, configuredMin, cap, rules), MinRequired(configuredMin, rules);
    var p, floor := QuantizePrice(price, rules).value, QuantizeQty(qty, rules).value;
    var q := RepairedQty(Notional(price, qty), p, floor, minimum, rules);
    assert s == Finish(p, q, minimum, cap);
    if cap.Some? && cap.value > 0.0 && Notional(p, q) >= minimum {
      TakenIsOnGrid(Notional(price, qty), p, floor, minimum, rules);
      forall g | OnStep(g, QtyStep(rules)) && g >= floor && Notional(p, g) >= minimum ensures Notional(p, q) <= Notional(p, g) {
        TakenIsLeast(Notional(price, qty), p, floor, g, minimum, rules);
      }
    }
  }

  /** Without a positive minimum an order can come out empty: a price below one tick is sent as zero. */
  lemma {:induction false} EmptyOrders(price: real, qty: real, configuredMin: real, cap: Option<real>, rules: ExchangeRules)
    requires price > 0.0 && qty > 0.0
    ensures var s := SizeAction(price, qty, configuredMin, cap, rules);
            s.Order? && Notional(s.price, s.qty) == 0.0
            <==> MinRequired(configuredMin, rules) <= 0.0
                 && (QuantizePrice(price, rules) == Ok(0.0) || QuantizeQty(qty, rules) == Ok(0.0))
  {
    var p, q := SizeReaches(price, qty, configuredMin, cap, rules);
    ZeroNotional(p, q);
    NotionalMonotone(0.0, 0.0, price, qty);
  }

  lemma {:induction false} ZeroNotional(p: real, q: real)
    ensures Notional(p, q) == 0.0 <==> p == 0.0 || q == 0.0
  {
  }
}
