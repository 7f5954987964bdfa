/** The stage 3 risk policy: intents judged in turn against order limits and a running notional. */
module RiskPolicy {
  import opened Money
  import opened Results

  datatype Intent = Intent(id: string, symbol: string, buy: bool, qty: real, limitPrice: Option<real>)

  datatype Rules = Rules(minNotional: real, priceTick: real, qtyStep: real)

  datatype Limits = Limits(
    maxOrdersPerCycle: int, maxOpenOrdersPerSymbol: int, cooldownSeconds: real, capPerCycle: real, maxPerOrder: real)

  /** What a cycle knows. `ages` holds the seconds since the last intent of a symbol and side. */
  datatype Context = Context(
    openOrders: map<string, int>, ages: map<(string, bool), real>, investable: real, rules: map<string, Rules>)

  datatype Reason =
    | MaxOpenOrders | Cooldown | RulesUnavailable | NonPositiveAfterQuantize | MinNotional | MissingLimitPrice
    | CashReserveTarget | CapNonPositive | NotionalCap

  /** An intent is approved, perhaps reshaped, or blocked with one event. */
  datatype Verdict = Approve(intent: Intent, notional: real) | Block(id: string, reason: Reason)

  function Notional(price: real, qty: real): real {
    qty * price
  }

  function Quotient(x: real, y: real): real
    requires y > 0.0
  {
    x / y
  }

  /** A price and a quantity on their grids, or the reason there is none: `_normalize_intent`. */
  function Normalize(c: Context, i: Intent): Result<Intent, Reason> {
    if i.limitPrice.None? then Ok(i)
    else if i.symbol !in c.rules then Err(RulesUnavailable)
    else
      var rules := c.rules[i.symbol];
      var price, qty := ToStep(i.limitPrice.value, rules.priceTick), ToStep(i.qty, rules.qtyStep);
      if price <= 0.0 || qty <= 0.0 then Err(NonPositiveAfterQuantize)
      else if Notional(price, qty) < rules.minNotional then Err(MinNotional)
      else Ok(i.(qty := qty, limitPrice := Some(price)))
  }

  /** The quantity that keeps an order within the per-order cap. */
  function CapQty(l: Limits, price: real, qty: real, step: real): real
    requires price > 0.0
  {
    if l.maxPerOrder > 0.0 && Notional(price, qty) > l.maxPerOrder then ToStep(Quotient(l.maxPerOrder, price), step) else qty
  }

  /** The tests on a normalized intent with a price. */
  function JudgeSized(l: Limits, c: Context, used: real, i: Intent, price: real, qty: real, capped: real): Verdict {
    if i.buy && c.investable > 0.0 && used + Notional(price, qty) > c.investable then Block(i.id, CashReserveTarget)
    else if capped <= 0.0 then Block(i.id, CapNonPositive)
    else if used + Notional(price, capped) > l.capPerCycle then Block(i.id, NotionalCap)
    else Approve(i.(qty := capped, limitPrice := Some(price)), Notional(price, capped))
  }

  /** The body of the loop. */
  function Judge(l: Limits, c: Context, used: real, i: Intent): Verdict {
    if (if i.symbol in c.openOrders then c.openOrders[i.symbol] else 0) >= l.maxOpenOrdersPerSymbol then Block(i.id, MaxOpenOrders)
    else if (i.symbol, i.buy) in c.ages && c.ages[(i.symbol, i.buy)] < l.cooldownSeconds then Block(i.id, Cooldown)
    else
      match Normalize(c, i)
      case Err(reason) => Block(i.id, reason)
      case Ok(n) =>
        if n.limitPrice.None? then Block(i.id, MissingLimitPrice)
        else
          NormalizeShrinks(c, i);
          var price := n.limitPrice.value;
          JudgeSized(l, c, used, i, price, n.qty, CapQty(l, price, n.qty, c.rules[i.symbol].qtyStep))
  }

  // --- the whole list

  function Spent(v: Verdict): real {
    if v.Approve? then v.notional else 0.0
  }

  function Used(vs: seq<Verdict>): real {
    if vs == [] then 0.0 else Used(vs[..|vs| - 1]) + Spent(vs[|vs| - 1])
  }

  /** An intent in turn, with the notional approved before it. */
  datatype Turn = Turn(used: real, intent: Intent)

  function Judging(l: Limits, c: Context): Turn -> Verdict {
    (t: Turn) => Judge(l, c, t.used, t.intent)
  }

  function JudgeAll(judge: Turn -> Verdict, intents: seq<Intent>): (vs: seq<Verdict>)
    ensures |vs| == |intents|
  {
    if intents == [] then []
    else
      var n := |intents| - 1;
      var before := JudgeAll(judge, intents[..n]);
      before + [judge(Turn(Used(before), intents[n]))]
  }

  /** `intents[:max]`: a negative maximum counts from the end. */
  function Examined(intents: seq<Intent>, max: int): seq<Intent> {
    if max >= 0 then (if max <= |intents| then intents[..max] else intents)
    else if |intents| + max >= 0 then intents[..|intents| + max]
    else []
  }

  function Approved(vs: seq<Verdict>): seq<Intent> {
    if vs == [] then []
    else Approved(vs[..|vs| - 1]) + if vs[|vs| - 1].Approve? then [vs[|vs| - 1].intent] else []
  }

  datatype Blocked = Blocked(id: string, reason: Reason)

  function BlockedEvents(vs: seq<Verdict>): seq<Blocked> {
    if vs == [] then []
    else BlockedEvents(vs[..|vs| - 1]) + if vs[|vs| - 1].Block? then [Blocked(vs[|vs| - 1].id, vs[|vs| - 1].reason)] else []
  }

  function Verdicts(l: Limits, c: Context, intents: seq<Intent>): seq<Verdict> {
    JudgeAll(Judging(l, c), Examined(intents, l.maxOrdersPerCycle))
  }

  lemma {:induction false} OneMore(vs: seq<Verdict>, v: Verdict)
    ensures Used(vs + [v]) == Used(vs) + Spent(v)
    ensures Approved(vs + [v]) == (if v.Approve? then Approved(vs) + [v.intent] else Approved(vs))
    ensures BlockedEvents(vs + [v]) == (if v.Block? then BlockedEvents(vs) + [Blocked(v.id, v.reason)] else BlockedEvents(vs))
  {
    assert (vs + [v])[..|vs|] == vs;
    assert Approved(vs) + [] == Approved(vs);
    assert BlockedEvents(vs) + [] == BlockedEvents(vs);
  }

  lemma {:induction false} JudgeNext(judge: Turn -> Verdict, intents: seq<Intent>, i: nat)
    requires i < |intents|
    ensures var before := JudgeAll(judge, intents[..i]);
            JudgeAll(judge, intents[..i + 1]) == before + [judge(Turn(Used(before), intents[i]))]
  {
    assert intents[..i + 1][..i] == intents[..i];
  }

  class Policy {
    const limits: Limits
    var lastBlockedEvents: seq<Blocked>

    constructor (l: Limits)
      ensures limits == l && lastBlockedEvents == []
    {
      limits, lastBlockedEvents := l, [];
    }

    method Evaluate(c: Context, intents: seq<Intent>) returns (approved: seq<Intent>)
      modifies this
      ensures approved == Approved(Verdicts(limits, c, intents))
      ensures lastBlockedEvents == BlockedEvents(Verdicts(limits, c, intents))
    {
      lastBlockedEvents, approved := [], [];
      var used := 0.0;
      var examined := Examined(intents, limits.maxOrdersPerCycle);
      ghost var judge, vs: seq<Verdict> := Judging(limits, c), [];
      for i := 0 to |examined|
        invariant vs == JudgeAll(judge, examined[..i])
        invariant approved == Approved(vs) && lastBlockedEvents == BlockedEvents(vs) && used == Used(vs)
      {
        JudgeNext(judge, examined, i);
        var v := Judge(limits, c, used, examined[i]);
        assert v == judge(Turn(used, examined[i]));
        OneMore(vs, v);
        vs := vs + [v];
        if v.Block? {
          lastBlockedEvents := lastBlockedEvents + [Blocked(v.id, v.reason)];
          continue;
        }
        approved := approved + [v.intent];
        used := used + v.notional;
      }
      assert examined[..|examined|] == examined;
    }
  }

  // --- what every verdict keeps

  lemma {:induction false} PositiveNotional(price: real, qty: real)
    requires price > 0.0 && qty > 0.0
    ensures Notional(price, qty) > 0.0
  {
  }

  /** Capping only shrinks, and what is left respects the cap. */
  lemma {:induction false} CapShrinks(l: Limits, price: real, qty: real, step: real)
    requires price > 0.0 && qty > 0.0
    ensures var capped := CapQty(l, price, qty, step);
            && capped <= qty && Notional(price, capped) <= Notional(price, qty)
            && (l.maxPerOrder > 0.0 ==> Notional(price, capped) <= l.maxPerOrder)
  {
    if l.maxPerOrder > 0.0 && Notional(price, qty) > l.maxPerOrder {
      var room := Quotient(l.maxPerOrder, price);
      var capped := ToStep(room, step);
      DivideMonotone(0.0, l.maxPerOrder, price);
      CapFits(l.maxPerOrder, price, qty, room, capped);
    }
  }

  lemma {:induction false} CapFits(cap: real, price: real, qty: real, room: real, capped: real)
    requires price > 0.0 && room == Quotient(cap, price) && capped <= room && cap <= Notional(price, qty)
    ensures Notional(price, capped) <= cap && capped <= qty
  {
    TimesMonotone(capped, room, price);
    Scaled(cap, price, room);
    assert room * price <= qty * price;
    CancelFactor(room, qty, price);
  }

  lemma {:induction false} Scaled(cap: real, price: real, room: real)
    requires price > 0.0 && room == Quotient(cap, price)
    ensures room * price == cap
  {
  }

  /** An approval in its turn. */
  ghost predicate Sound(l: Limits, c: Context, t: Turn, v: Verdict) {
    v.Approve? ==>
      && v.intent.limitPrice.Some? && v.intent.limitPrice.value > 0.0 && v.intent.qty > 0.0
      && v.notional == Notional(v.intent.limitPrice.value, v.intent.qty) > 0.0
      && v.intent == t.intent.(qty := v.intent.qty, limitPrice := v.intent.limitPrice)
      && v.intent.qty <= t.intent.qty && t.intent.limitPrice.Some? && v.intent.limitPrice.value <= t.intent.limitPrice.value
      && (l.maxPerOrder > 0.0 ==> v.notional <= l.maxPerOrder)
      && t.used + v.notional <= l.capPerCycle
      && (v.intent.buy && c.investable > 0.0 ==> t.used + v.notional <= c.investable)
  }

  lemma {:induction false} NormalizeShrinks(c: Context, i: Intent)
    ensures var n := Normalize(c, i);
            n.Ok? && i.limitPrice.Some? ==>
              && i.symbol in c.rules && n.value == i.(qty := n.value.qty, limitPrice := n.value.limitPrice)
              && n.value.limitPrice.Some? && 0.0 < n.value.limitPrice.value <= i.limitPrice.value && 0.0 < n.value.qty <= i.qty
  {
  }

  lemma {:induction false} SizedSound(l: Limits, c: Context, used: real, i: Intent, price: real, qty: real, capped: real)
    requires i.limitPrice.Some? && 0.0 < price <= i.limitPrice.value && 0.0 < qty <= i.qty
    requires capped <= qty && Notional(price, capped) <= Notional(price, qty)
    requires l.maxPerOrder > 0.0 ==> Notional(price, capped) <= l.maxPerOrder
    ensures Sound(l, c, Turn(used, i), JudgeSized(l, c, used, i, price, qty, capped))
  {
    if capped > 0.0 {
      PositiveNotional(price, capped);
    }
  }

  lemma {:induction false} JudgeIsSound(l: Limits, c: Context, t: Turn)
    ensures Sound(l, c, t, Judging(l, c)(t))
  {
    var n := Normalize(c, t.intent);
    NormalizeShrinks(c, t.intent);
    if n.Ok? && t.intent.limitPrice.Some? {
      var price, step := n.value.limitPrice.value, c.rules[t.intent.symbol].qtyStep;
      CapShrinks(l, price, n.value.qty, step);
      SizedSound(l, c, t.used, t.intent, price, n.value.qty, CapQty(l, price, n.value.qty, step));
    }
  }

  /** A blocked intent leaves one event that names it. */
  lemma {:induction false} BlocksAreNamed(l: Limits, c: Context, t: Turn)
    ensures var v := Judging(l, c)(t);
            v.Block? ==> v.id == t.intent.id
  {
  }

  /** Every verdict, on the notional approved before it. */
  ghost predicate SoundRun(l: Limits, c: Context, intents: seq<Intent>, vs: seq<Verdict>) {
    && |vs| == |intents|
    && forall i :: 0 <= i < |vs| ==> SoundAt(l, c, intents, vs, i)
  }

  ghost predicate SoundAt(l: Limits, c: Context, intents: seq<Intent>, vs: seq<Verdict>, i: int)
    requires 0 <= i < |vs| == |intents|
  {
    Sound(l, c, Turn(Used(vs[..i]), intents[i]), vs[i]) && (vs[i].Block? ==> vs[i].id == intents[i].id)
  }

  lemma {:induction false} RunIsSound(l: Limits, c: Context, intents: seq<Intent>)
    ensures SoundRun(l, c, intents, JudgeAll(Judging(l, c), intents))
  {
    var judge := Judging(l, c);
    var vs := JudgeAll(judge, intents);
    if intents != [] {
      var n := |intents| - 1;
      RunIsSound(l, c, intents[..n]);
      var before := JudgeAll(judge, intents[..n]);
      JudgeIsSound(l, c, Turn(Used(before), intents[n]));
      BlocksAreNamed(l, c, Turn(Used(before), intents[n]));
      forall i | 0 <= i < |vs| ensures SoundAt(l, c, intents, vs, i) {
        assert vs[..i] == before[..i];
        if i < n {
          assert SoundAt(l, c, intents[..n], before, i);
        } else {
          assert before[..i] == before;
        }
      }
    }
  }

  lemma {:induction false} SoundBefore(l: Limits, c: Context, intents: seq<Intent>, vs: seq<Verdict>)
    requires SoundRun(l, c, intents, vs) && vs != []
    ensures SoundRun(l, c, intents[..|vs| - 1], vs[..|vs| - 1])
  {
    var n := |vs| - 1;
    forall i | 0 <= i < n ensures SoundAt(l, c, intents[..n], vs[..n], i) {
      assert SoundAt(l, c, intents, vs, i);
      assert vs[..n][..i] == vs[..i];
    }
  }

  lemma {:induction false} UsedWithinCap(l: Limits, c: Context, intents: seq<Intent>, vs: seq<Verdict>)
    requires SoundRun(l, c, intents, vs) && l.capPerCycle >= 0.0
    ensures 0.0 <= Used(vs) <= l.capPerCycle
  {
    if vs != [] {
      var n := |vs| - 1;
      SoundBefore(l, c, intents, vs);
      UsedWithinCap(l, c, intents[..n], vs[..n]);
      assert SoundAt(l, c, intents, vs, n);
    }
  }

  lemma {:induction false} EveryVerdictCounted(vs: seq<Verdict>)
    ensures |Approved(vs)| + |BlockedEvents(vs)| == |vs|
  {
    if vs != [] {
      EveryVerdictCounted(vs[..|vs| - 1]);
    }
  }

  /**
   Bounds and bookkeeping for every intent list: approved notional stays within the cycle cap; each
   order respects a positive per-order cap; at each approved buy the notional so far is within a
   positive investable amount; price and quantity only shrink; and approved intents plus blocked events
   are the intents examined.
   */
  lemma {:induction false} EvaluateIsSound(l: Limits, c: Context, intents: seq<Intent>)
    requires l.capPerCycle >= 0.0
    ensures var vs := Verdicts(l, c, intents);
            && SoundRun(l, c, Examined(intents, l.maxOrdersPerCycle), vs)
            && Used(vs) <= l.capPerCycle
            && |Approved(vs)| + |BlockedEvents(vs)| == |Examined(intents, l.maxOrdersPerCycle)| <= |intents|
  {
    var examined := Examined(intents, l.maxOrdersPerCycle);
    RunIsSound(l, c, examined);
    UsedWithinCap(l, c, examined, Verdicts(l, c, intents));
    EveryVerdictCounted(Verdicts(l, c, intents));
  }

  /** The first intents are examined: so many, or all but so many, when a negative maximum counts from the end. */
  lemma {:induction false} ExaminedIsPrefix(intents: seq<Intent>, max: int)
    ensures var n := if max >= 0 then (if |intents| < max then |intents| else max) else if |intents| < -max then 0 else |intents| + max;
            0 <= n <= |intents| && Examined(intents, max) == intents[..n]
  {
  }

  /** What approved intents are worth together. */
  ghost function Worth(approved: seq<Intent>): real {
    if approved == [] then 0.0
    else
      var i := approved[|approved| - 1];
      Worth(approved[..|approved| - 1]) + if i.limitPrice.Some? then Notional(i.limitPrice.value, i.qty) else 0.0
  }

  lemma {:induction false} WorthNext(approved: seq<Intent>, i: Intent)
    ensures Worth(approved + [i]) == Worth(approved) + if i.limitPrice.Some? then Notional(i.limitPrice.value, i.qty) else 0.0
  {
    assert (approved + [i])[..|approved|] == approved;
  }

  lemma {:induction false} UsedIsWorth(l: Limits, c: Context, intents: seq<Intent>, vs: seq<Verdict>)
    requires SoundRun(l, c, intents, vs)
    ensures Used(vs) == Worth(Approved(vs))
  {
    if vs != [] {
      var n := |vs| - 1;
      SoundBefore(l, c, intents, vs);
      UsedIsWorth(l, c, intents[..n], vs[..n]);
      assert SoundAt(l, c, intents, vs, n);
      assert vs[..n] + [vs[n]] == vs;
      OneMore(vs[..n], vs[n]);
      if vs[n].Approve? {
        WorthNext(Approved(vs[..n]), vs[n].intent);
      }
    }
  }

  /** The approved intents of a cycle are worth no more than its cap, whatever was approved before what. */
  lemma {:induction false} ApprovedWithinCap(l: Limits, c: Context, intents: seq<Intent>)
    requires l.capPerCycle >= 0.0
    ensures Worth(Approved(Verdicts(l, c, intents))) <= l.capPerCycle
  {
    EvaluateIsSound(l, c, intents);
    UsedIsWorth(l, c, Examined(intents, l.maxOrdersPerCycle), Verdicts(l, c, intents));
  }

  /** The per-order cap cuts the order to a quantity worth less than the minimum. */
  predicate CutBelowMinimum(l: Limits, r: Rules, price: real, qty: real)
    requires price > 0.0
  {
    && l.maxPerOrder > 0.0 && Notional(price, qty) > l.maxPerOrder
    && Notional(price, ToStep(Quotient(l.maxPerOrder, price), r.qtyStep)) < r.minNotional
  }

  /**
   The minimum notional is not looked at again after capping. An approval is worth less than the minimum
   exactly when the per-order cap bites on its floored price and quantity and leaves less than the minimum.
   */
  lemma {:induction false} BelowMinimumExactly(l: Limits, c: Context, used: real, i: Intent)
    requires i.limitPrice.Some? && i.symbol in c.rules
    ensures var r := c.rules[i.symbol];
            var p, q := ToStep(i.limitPrice.value, r.priceTick), ToStep(i.qty, r.qtyStep);
            var v := Judge(l, c, used, i);
            v.Approve? ==> p > 0.0 && (v.notional < r.minNotional <==> CutBelowMinimum(l, r, p, q))
  {
    NormalizeShrinks(c, i);
  }

  /** So without a per-order cap every approval of a run meets the minimum of its symbol. */
  lemma {:induction false} UncappedMeetMinimum(l: Limits, c: Context, intents: seq<Intent>, n: nat)
    requires l.maxPerOrder <= 0.0 && n < |JudgeAll(Judging(l, c), intents)|
    ensures var v := JudgeAll(Judging(l, c), intents)[n];
            v.Approve? ==> v.intent.symbol in c.rules && v.notional >= c.rules[v.intent.symbol].minNotional
  {
    JudgedInTurn(Judging(l, c), intents, n);
    var i, used := intents[n], Used(JudgeAll(Judging(l, c), intents)[..n]);
    JudgeIsSound(l, c, Turn(used, i));
    NormalizeShrinks(c, i);
    if i.limitPrice.Some? && i.symbol in c.rules {
      BelowMinimumExactly(l, c, used, i);
    }
  }

  lemma {:induction false} JudgedInTurn(judge: Turn -> Verdict, intents: seq<Intent>, n: nat)
    requires n < |intents|
    ensures var vs := JudgeAll(judge, intents);
            vs[n] == judge(Turn(Used(vs[..n]), intents[n]))
  {
    var last := |intents| - 1;
    var before, vs := JudgeAll(judge, intents[..last]), JudgeAll(judge, intents);
    if n == last {
      assert vs[..n] == before;
    } else {
      JudgedInTurn(judge, intents[..last], n);
      assert vs[..n] == before[..n];
    }
  }

  // --- when an intent is approved

  /** The grid quantity for an order within the cap: the given one, or the largest that is worth no more than the cap. */
  ghost predicate WithinCap(cap: real, price: real, qty: real, step: real, g: real) {
    if cap > 0.0 && qty * price > cap
    then OnStep(g, step) && g * price <= cap && forall x :: OnStep(x, step) && x * price <= cap ==> x <= g
    else g == qty
  }

  lemma {:induction false} LargestBelow(cap: real, price: real, step: real, x: real)
    requires price > 0.0 && cap > 0.0 && OnStep(x, step) && x * price <= cap
    ensures x <= ToStep(Quotient(cap, price), step)
  {
    Scaled(cap, price, Quotient(cap, price));
    CancelFactor(x, Quotient(cap, price), price);
    DivideMonotone(0.0, cap, price);
    ToStepGreatest(Quotient(cap, price), x, step);
  }

  lemma {:induction false} CapIsLargest(l: Limits, price: real, qty: real, step: real)
    requires price > 0.0 && qty > 0.0
    ensures WithinCap(l.maxPerOrder, price, qty, step, CapQty(l, price, qty, step))
  {
    CapShrinks(l, price, qty, step);
    if l.maxPerOrder > 0.0 && Notional(price, qty) > l.maxPerOrder {
      ToStepIdempotent(Quotient(l.maxPerOrder, price), step);
      forall x | OnStep(x, step) && x * price <= l.maxPerOrder ensures x <= CapQty(l, price, qty, step) {
        LargestBelow(l.maxPerOrder, price, step, x);
      }
    }
  }

  /** What the limits and rules say of an intent, apart from its size. */
  datatype Gates = Gates(openOrders: bool, cooldown: bool, unpriced: bool, unruled: bool)

  function GatesOf(l: Limits, c: Context, i: Intent): Gates {
    Gates((if i.symbol in c.openOrders then c.openOrders[i.symbol] else 0) >= l.maxOpenOrdersPerSymbol,
          (i.symbol, i.buy) in c.ages && c.ages[(i.symbol, i.buy)] < l.cooldownSeconds,
          i.limitPrice.None?, i.limitPrice.Some? && i.symbol !in c.rules)
  }

  /** The size of an order: rounded down to its grids, and then cut by the per-order cap. */
  datatype Size = Size(price: real, qty: real, capped: real, minimum: real)

  ghost predicate IsSize(l: Limits, r: Rules, i: Intent, z: Size) {
    && i.limitPrice.Some? && z.minimum == r.minNotional
    && z.price == ToStep(i.limitPrice.value, r.priceTick) && z.qty == ToStep(i.qty, r.qtyStep)
    && (z.price > 0.0 && z.qty > 0.0 ==> WithinCap(l.maxPerOrder, z.price, z.qty, r.qtyStep, z.capped))
  }

  /** What stands against an order of this size. */
  predicate Against(l: Limits, c: Context, used: real, buy: bool, z: Size, reason: Reason) {
    match reason
    case NonPositiveAfterQuantize => z.price <= 0.0 || z.qty <= 0.0
    case MinNotional => Notional(z.price, z.qty) < z.minimum
    case CashReserveTarget => buy && c.investable > 0.0 && used + Notional(z.price, z.qty) > c.investable
    case CapNonPositive => z.capped <= 0.0
    case NotionalCap => used + Notional(z.price, z.capped) > l.capPerCycle
    case _ => false
  }

  predicate Unopposed(l: Limits, c: Context, used: real, buy: bool, z: Size) {
    && !Against(l, c, used, buy, z, NonPositiveAfterQuantize) && !Against(l, c, used, buy, z, MinNotional)
    && !Against(l, c, used, buy, z, CashReserveTarget) && !Against(l, c, used, buy, z, CapNonPositive)
    && !Against(l, c, used, buy, z, NotionalCap)
  }

  lemma {:induction false} SizeExists(l: Limits, r: Rules, i: Intent) returns (z: Size)
    requires i.limitPrice.Some?
    ensures IsSize(l, r, i, z)
    ensures z.price > 0.0 && z.qty > 0.0 ==> z.capped == CapQty(l, z.price, z.qty, r.qtyStep)
  {
    z := Size(ToStep(i.limitPrice.value, r.priceTick), ToStep(i.qty, r.qtyStep), 0.0, r.minNotional);
    if z.price > 0.0 && z.qty > 0.0 {
      z := z.(capped := CapQty(l, z.price, z.qty, r.qtyStep));
      CapIsLargest(l, z.price, z.qty, r.qtyStep);
    }
  }

  /** The verdict on a size, once nothing else stands in the way. */
  lemma {:induction false} JudgedBySize(l: Limits, c: Context, used: real, i: Intent, z: Size)
    requires z.price > 0.0 && z.qty > 0.0 && Notional(z.price, z.qty) >= z.minimum
    ensures var v := JudgeSized(l, c, used, i, z.price, z.qty, z.capped);
            && (v.Approve? <==> Unopposed(l, c, used, i.buy, z))
            && (v.Approve? ==> v == Approve(i.(qty := z.capped, limitPrice := Some(z.price)), Notional(z.price, z.capped)))
            && (v.Block? ==> Against(l, c, used, i.buy, z, v.reason))
  {
  }

  lemma {:induction false} NormalizedBySize(c: Context, i: Intent, price: real, qty: real)
    requires i.limitPrice.Some? && i.symbol in c.rules
    requires price == ToStep(i.limitPrice.value, c.rules[i.symbol].priceTick) && qty == ToStep(i.qty, c.rules[i.symbol].qtyStep)
    ensures Normalize(c, i)
         == if price <= 0.0 || qty <= 0.0 then Err(NonPositiveAfterQuantize)
            else if Notional(price, qty) < c.rules[i.symbol].minNotional then Err(MinNotional)
            else Ok(i.(qty := qty, limitPrice := Some(price)))
  {
  }

  /**
   When an intent with a price and rules is approved: when there is room for an open order, no cooldown, and
   nothing against its size; and then for its price rounded down to the tick and the largest grid quantity
   up to its own that the per-order cap allows. A block names something that stands against it.
   */
  lemma {:induction false} ApprovedExactly(l: Limits, c: Context, used: real, i: Intent) returns (z: Size)
    requires i.limitPrice.Some? && i.symbol in c.rules
    ensures IsSize(l, c.rules[i.symbol], i, z)
    ensures var v, gates := Judge(l, c, used, i), GatesOf(l, c, i);
            && (v.Approve? <==> !gates.openOrders && !gates.cooldown && Unopposed(l, c, used, i.buy, z))
            && (v.Approve? ==> v == Approve(i.(qty := z.capped, limitPrice := Some(z.price)), Notional(z.price, z.capped)))
            && (v.Block? ==>
                  if gates.openOrders then v.reason.MaxOpenOrders? else if gates.cooldown then v.reason.Cooldown?
                  else Against(l, c, used, i.buy, z, v.reason))
  {
    z := SizeExists(l, c.rules[i.symbol], i);
    NormalizedBySize(c, i, z.price, z.qty);
    if z.price > 0.0 && z.qty > 0.0 && Notional(z.price, z.qty) >= z.minimum {
      JudgedBySize(l, c, used, i, z);
    }
  }

  /** Without a price or without rules an intent is blocked, for that reason unless an earlier gate is closed. */
  lemma {:induction false} BlockedWithoutSize(l: Limits, c: Context, used: real, i: Intent)
    requires GatesOf(l, c, i).unpriced || GatesOf(l, c, i).unruled
    ensures var gates := GatesOf(l, c, i);
            Judge(l, c, used, i)
            == Block(i.id, if gates.openOrders then MaxOpenOrders else if gates.cooldown then Cooldown
                           else if gates.unpriced then MissingLimitPrice else RulesUnavailable)
  {
  }

  /** Such an approval: this order is worth 50, with a minimum of 60. */
  lemma {:induction false} CappedBelowMinimum()
    ensures var l := Limits(1, 1, 0.0, 1000.0, 50.0);
            var c := Context(map[], map[], 0.0, map["BTCTRY" := Rules(60.0, 1.0, 1.0)]);
            var i := Intent("a", "BTCTRY", true, 100.0, Some(1.0));
            Judge(l, c, 0.0, i) == Approve(i.(qty := 50.0), 50.0)
  {
    assert ToStep(1.0, 1.0) == 1.0 && ToStep(100.0, 1.0) == 100.0 && ToStep(50.0, 1.0) == 50.0 by {
      MultipleOnStep(1, 1.0);
      MultipleOnStep(100, 1.0);
      MultipleOnStep(50, 1.0);
    }
    var i := Intent("a", "BTCTRY", true, 100.0, Some(1.0));
    assert i.(qty := 100.0, limitPrice := Some(1.0)) == i;
  }
}
