/** The allocation service: intents sized one after another against a cash budget, a cycle cap and per-intent caps. */
module Allocation {
  import opened Money
  import opened Results

  datatype Reason =
    | AllOk | NotImplemented | NoMarkPrice | CashTarget | MinNotional | MaxIntentCap | CycleCap | MaxPositionCap
    | NoPosition | PositionValueCap

  datatype Status = Accepted | Scaled | Rejected

  datatype UsageMode = UseAll | Fraction | Cap

  datatype Knobs = Knobs(
    targetTryCash: real, tryCashMax: real, minOrder: real, feeBufferBps: real, feeBufferRatio: real, maxIntent: real,
    maxPosition: real, maxCycle: real, usageMode: UsageMode, usageFraction: real, maxTryPerCycle: real)

  datatype Intent = Intent(symbol: string, buy: bool, place: bool, requested: Option<real>)

  /** Cash, and what is held and marked, by canonical symbol. */
  datatype Account = Account(cash: real, positions: map<string, real>, marks: map<string, real>)

  datatype Decision = Decision(
    symbol: string, buy: bool, requested: Option<real>, granted: Option<real>, qty: real, status: Status,
    reason: Reason, index: nat)

  // --- the budget

  function InvestableTotal(a: Account, k: Knobs): (r: real)
    ensures r >= 0.0 && (a.cash >= k.targetTryCash ==> r == a.cash - k.targetTryCash)
  {
    Max(a.cash - k.targetTryCash, 0.0)
  }

  function Clamp(x: real): (r: real)
    ensures 0.0 <= r <= 1.0
  {
    Min(Max(x, 0.0), 1.0)
  }

  function Share(total: real, fraction: real): (r: real)
    requires total >= 0.0 && 0.0 <= fraction <= 1.0
    ensures 0.0 <= r <= total
  {
    FractionOf(total, fraction);
    total * fraction
  }

  lemma {:induction false} FractionOf(total: real, fraction: real)
    requires total >= 0.0 && 0.0 <= fraction <= 1.0
    ensures 0.0 <= total * fraction <= total
  {
    var rest := 1.0 - fraction;
    assert total * fraction >= 0.0 && total * rest >= 0.0;
    assert total * fraction + total * rest == total;
  }

  /** `_resolve_investable_budget`: never more than there is. */
  function Investable(total: real, k: Knobs): (r: real)
    requires total >= 0.0
    ensures 0.0 <= r <= total
  {
    var used := match k.usageMode
                case Fraction => Share(total, Clamp(k.usageFraction))
                case Cap => Min(total, Max(k.maxTryPerCycle, 0.0))
                case UseAll => total;
    if k.tryCashMax > 0.0 then Min(used, Max(k.tryCashMax - k.targetTryCash, 0.0)) else used
  }

  function FeeRatio(k: Knobs): (r: real)
    ensures r >= 0.0 && (k.feeBufferRatio > 0.0 ==> r == k.feeBufferRatio)
    ensures k.feeBufferRatio <= 0.0 ==> r * 10000.0 == Max(k.feeBufferBps, 0.0)
  {
    if k.feeBufferRatio > 0.0 then k.feeBufferRatio else Max(k.feeBufferBps, 0.0) / 10000.0
  }

  /** The notional that can be bought while keeping the fees in reserve. */
  function DeployBudget(investable: real, ratio: real): (r: real)
    requires investable >= 0.0 && ratio >= 0.0
    ensures r >= 0.0 && r * (1.0 + ratio) == investable
  {
    DivideMonotone(0.0, investable, 1.0 + ratio);
    investable / (1.0 + ratio)
  }

  // --- one intent

  /** A cap; None is no cap. */
  datatype Limit = Limit(reason: Reason, value: Option<real>)

  function Value(qty: real, mark: real): real {
    qty * mark
  }

  function Quotient(x: real, y: real): real
    requires y > 0.0
  {
    x / y
  }

  function PositionOf(a: Account, symbol: string): real {
    if symbol in a.positions then a.positions[symbol] else 0.0
  }

  function MarkOf(a: Account, symbol: string): real {
    if symbol in a.marks then a.marks[symbol] else 0.0
  }

  /** Room for more of a symbol, measured from the position at the start of the cycle. */
  function PositionRoom(held: real, mark: real, k: Knobs): Option<real> {
    if k.maxPosition <= 0.0 then None
    else Some(Max(k.maxPosition - (if held > 0.0 then Value(held, mark) else 0.0), 0.0))
  }

  /** Without a configured cap the request itself is the limit. */
  function CycleRoom(requested: real, left: real, k: Knobs): real {
    if k.maxCycle <= 0.0 then requested else Max(left, 0.0)
  }

  function IntentCap(k: Knobs): seq<Limit> {
    if k.maxIntent > 0.0 then [Limit(MaxIntentCap, Some(k.maxIntent))] else []
  }

  /** The limits of an intent, in order of precedence. */
  function Limits(buy: bool, requested: real, budget: real, cycle: real, held: real, mark: real, k: Knobs): seq<Limit> {
    (if buy then [Limit(CashTarget, Some(budget)), Limit(MaxPositionCap, PositionRoom(held, mark, k))]
     else [Limit(PositionValueCap, Some(Value(held, mark)))])
    + [Limit(CycleCap, Some(CycleRoom(requested, cycle, k)))] + IntentCap(k)
  }

  function Smallest(x: real, limits: seq<Limit>): (r: real)
    ensures r <= x
    ensures forall l :: l in limits && l.value.Some? ==> r <= l.value.value
    ensures r == x || exists l :: l in limits && l.value == Some(r)
  {
    if limits == [] then x
    else
      var rest := Smallest(x, limits[1..]);
      assert limits == [limits[0]] + limits[1..];
      if limits[0].value.Some? && limits[0].value.value < rest then limits[0].value.value else rest
  }

  /** `_first_binding_reason`. */
  function Binding(requested: real, granted: real, limits: seq<Limit>): Reason
    requires limits != []
  {
    if granted >= requested then AllOk else FirstAt(granted, limits)
  }

  function FirstAt(granted: real, limits: seq<Limit>): Reason
    requires limits != []
  {
    if limits[0].value == Some(granted) || |limits| == 1 then limits[0].reason else FirstAt(granted, limits[1..])
  }

  predicate Allows(l: Limit, minimum: real) {
    l.value.None? || l.value.value >= minimum
  }

  /** Raising to the minimum may break the intent cap, and no other limit. */
  predicate CanRaise(limits: seq<Limit>, minimum: real) {
    forall l :: l in limits && !l.reason.MaxIntentCap? ==> Allows(l, minimum)
  }

  /** The first limit below the minimum. */
  function Blocking(limits: seq<Limit>, minimum: real, otherwise: Reason): Reason {
    if limits == [] then otherwise
    else if !Allows(limits[0], minimum) then limits[0].reason
    else Blocking(limits[1..], minimum, otherwise)
  }

  function Sized(i: Intent, index: nat, requested: real, mark: real, limits: seq<Limit>, k: Knobs): Decision
    requires limits != [] && mark > 0.0
  {
    var fits := Smallest(requested, limits);
    var binding := Binding(requested, fits, limits);
    if fits < k.minOrder && !CanRaise(limits, k.minOrder) then
      Decision(i.symbol, i.buy, i.requested, None, 0.0, Rejected,
               if Blocking(limits, k.minOrder, binding).CashTarget? then CashTarget else MinNotional, index)
    else
      var granted := if fits < k.minOrder then k.minOrder else fits;
      var reason := if granted == requested then AllOk else binding;
      Decision(i.symbol, i.buy, i.requested, Some(granted), Quotient(granted, mark),
               if reason.AllOk? then Accepted else Scaled, reason, index)
  }

  function Reject(i: Intent, index: nat, reason: Reason): Decision {
    Decision(i.symbol, i.buy, i.requested, None, 0.0, Rejected, reason, index)
  }

  /** The body of the loop over intents. */
  function Decide(a: Account, k: Knobs, budget: real, cycle: real, i: Intent, index: nat): Decision {
    var held, mark := PositionOf(a, i.symbol), MarkOf(a, i.symbol);
    if !i.place then Reject(i, index, NotImplemented)
    else if i.requested.None? || i.requested.value <= 0.0 then Reject(i, index, MinNotional)
    else if !i.buy && held <= 0.0 then Reject(i, index, NoPosition)
    else if mark <= 0.0 then Reject(i, index, NoMarkPrice)
    else Sized(i, index, i.requested.value, mark, Limits(i.buy, i.requested.value, budget, cycle, held, mark, k), k)
  }

  // --- the whole list

  function Spent(d: Decision): real {
    if d.granted.Some? then d.granted.value else 0.0
  }

  function BuyTotal(ds: seq<Decision>): real {
    if ds == [] then 0.0
    else
      var n := |ds| - 1;
      BuyTotal(ds[..n]) + if ds[n].buy then Spent(ds[n]) else 0.0
  }

  function Total(ds: seq<Decision>): real {
    if ds == [] then 0.0
    else
      var n := |ds| - 1;
      Total(ds[..n]) + Spent(ds[n])
  }

  /** An intent in turn, with what is left of the budget and of the cycle cap. */
  datatype Turn = Turn(budget: real, cycle: real, intent: Intent, index: nat)

  function Decider(a: Account, k: Knobs): Turn -> Decision {
    (t: Turn) => Decide(a, k, t.budget, t.cycle, t.intent, t.index)
  }

  function CycleLeft(maxCycle: real, before: seq<Decision>): real {
    if maxCycle > 0.0 then maxCycle - Total(before) else maxCycle
  }

  function TurnAfter(budget: real, maxCycle: real, before: seq<Decision>, i: Intent): Turn {
    Turn(budget - BuyTotal(before), CycleLeft(maxCycle, before), i, |before|)
  }

  /** The decisions, each on what the ones before it left. */
  function DecideAll(decide: Turn -> Decision, budget: real, maxCycle: real, intents: seq<Intent>): (ds: seq<Decision>)
    ensures |ds| == |intents|
  {
    if intents == [] then []
    else
      var n := |intents| - 1;
      var before := DecideAll(decide, budget, maxCycle, intents[..n]);
      before + [decide(TurnAfter(budget, maxCycle, before, intents[n]))]
  }

  datatype Outcome = Outcome(decisions: seq<Decision>, actions: seq<Decision>, plannedTotal: real, unused: real)

  /** The decisions that carry an action. */
  function ActionsOf(ds: seq<Decision>): seq<Decision> {
    if ds == [] then []
    else
      var n := |ds| - 1;
      ActionsOf(ds[..n]) + if ds[n].granted.Some? then [ds[n]] else []
  }

  function Budget(a: Account, k: Knobs): (r: real)
    ensures r >= 0.0
  {
    DeployBudget(Investable(InvestableTotal(a, k), k), FeeRatio(k))
  }

  function Decisions(a: Account, k: Knobs, intents: seq<Intent>): seq<Decision> {
    DecideAll(Decider(a, k), Budget(a, k), k.maxCycle, intents)
  }

  lemma {:induction false} OneMore(ds: seq<Decision>, d: Decision, maxCycle: real)
    ensures BuyTotal(ds + [d]) == BuyTotal(ds) + if d.buy then Spent(d) else 0.0
    ensures Total(ds + [d]) == Total(ds) + Spent(d)
    ensures ActionsOf(ds + [d]) == if d.granted.Some? then ActionsOf(ds) + [d] else ActionsOf(ds)
    ensures CycleLeft(maxCycle, ds + [d]) == CycleLeft(maxCycle, ds) - if maxCycle > 0.0 then Spent(d) else 0.0
  {
    assert (ds + [d])[..|ds|] == ds;
  }

  lemma {:induction false} DecideNext(decide: Turn -> Decision, budget: real, maxCycle: real, intents: seq<Intent>, i: nat)
    requires i < |intents|
    ensures var before := DecideAll(decide, budget, maxCycle, intents[..i]);
            DecideAll(decide, budget, maxCycle, intents[..i + 1])
            == before + [decide(Turn(budget - BuyTotal(before), CycleLeft(maxCycle, before), intents[i], i))]
  {
    var next := intents[..i + 1];
    assert next[..|next| - 1] == intents[..i] && next[|next| - 1] == intents[i];
    TurnIs(budget, maxCycle, DecideAll(decide, budget, maxCycle, intents[..i]), intents[i]);
  }

  lemma {:induction false} TurnIs(budget: real, maxCycle: real, before: seq<Decision>, i: Intent)
    ensures TurnAfter(budget, maxCycle, before, i) == Turn(budget - BuyTotal(before), CycleLeft(maxCycle, before), i, |before|)
  {
  }

  /** What the loop of `allocate` has so far. */
  datatype Books = Books(decisions: seq<Decision>, actions: seq<Decision>, planned: real, left: real, cycle: real)

  ghost predicate Kept(b: Books, budget: real, maxCycle: real) {
    && b.actions == ActionsOf(b.decisions) && b.planned == BuyTotal(b.decisions)
    && b.left == budget - BuyTotal(b.decisions) && b.cycle == CycleLeft(maxCycle, b.decisions)
  }

  /** The end of the loop body: the decision is appended, and what it grants is taken from what is left. */
  method Record(b: Books, d: Decision, ghost budget: real, maxCycle: real) returns (b': Books)
    requires Kept(b, budget, maxCycle)
    ensures Kept(b', budget, maxCycle) && b'.decisions == b.decisions + [d]
  {
    OneMore(b.decisions, d, maxCycle);
    var actions, planned, left, cycle := b.actions, b.planned, b.left, b.cycle;
    if d.granted.Some? {
      actions := actions + [d];
      if d.buy {
        planned := planned + d.granted.value;
        left := left - d.granted.value;
      }
      if maxCycle > 0.0 {
        cycle := cycle - d.granted.value;
      }
    }
    b' := Books(b.decisions + [d], actions, planned, left, cycle);
  }

  method StartBooks(budget: real, maxCycle: real) returns (b: Books)
    ensures Kept(b, budget, maxCycle) && b.decisions == []
  {
    b := Books([], [], 0.0, budget, maxCycle);
  }

  /** One more intent, on what the books have left. */
  method DecideOne(decide: Turn -> Decision, budget: real, maxCycle: real, intents: seq<Intent>, i: nat, b: Books) returns (b': Books)
    requires i < |intents| && b.decisions == DecideAll(decide, budget, maxCycle, intents[..i]) && Kept(b, budget, maxCycle)
    ensures b'.decisions == DecideAll(decide, budget, maxCycle, intents[..i + 1]) && Kept(b', budget, maxCycle)
  {
    DecideNext(decide, budget, maxCycle, intents, i);
    var d := decide(Turn(b.left, b.cycle, intents[i], i));
    b' := Record(b, d, budget, maxCycle);
  }

  /** The loop of `allocate`, which keeps what is left of the budget and of the cycle cap. */
  method DecideInTurn(decide: Turn -> Decision, budget: real, maxCycle: real, intents: seq<Intent>)
    returns (b: Books)
    ensures b.decisions == DecideAll(decide, budget, maxCycle, intents) && Kept(b, budget, maxCycle)
  {
    b := StartBooks(budget, maxCycle);
    for i := 0 to |intents|
      invariant b.decisions == DecideAll(decide, budget, maxCycle, intents[..i]) && Kept(b, budget, maxCycle)
    {
      b := DecideOne(decide, budget, maxCycle, intents, i, b);
    }
    assert intents[..|intents|] == intents;
  }

  method Allocate(a: Account, k: Knobs, intents: seq<Intent>) returns (r: Outcome)
    ensures r.decisions == Decisions(a, k, intents) && r.actions == ActionsOf(r.decisions)
    ensures r.plannedTotal == BuyTotal(r.decisions) && r.unused == Max(0.0, Budget(a, k) - r.plannedTotal)
  {
    var budget := Budget(a, k);
    var b := DecideInTurn(Decider(a, k), budget, k.maxCycle, intents);
    r := Outcome(b.decisions, b.actions, b.planned, Max(0.0, budget - b.planned));
  }

  /** What was granted to buys, or to sells. */
  ghost function GrantedTo(ds: seq<Decision>, buys: bool): real {
    if ds == [] then 0.0
    else
      var n := |ds| - 1;
      GrantedTo(ds[..n], buys) + if ds[n].buy == buys && ds[n].granted.Some? then ds[n].granted.value else 0.0
  }

  /** Buys use up the budget, buys and sells the cycle cap. */
  lemma {:induction false} TotalsAreGrants(ds: seq<Decision>, maxCycle: real)
    ensures BuyTotal(ds) == GrantedTo(ds, true)
    ensures Total(ds) == GrantedTo(ds, true) + GrantedTo(ds, false)
    ensures maxCycle > 0.0 ==> CycleLeft(maxCycle, ds) == maxCycle - GrantedTo(ds, true) - GrantedTo(ds, false)
  {
    if ds != [] {
      TotalsAreGrants(ds[..|ds| - 1], maxCycle);
    }
  }

  /** An action for every decision that grants something, and for no other. */
  lemma {:induction false} ActionsExactly(ds: seq<Decision>, d: Decision)
    ensures d in ActionsOf(ds) <==> d in ds && d.granted.Some?
  {
    if ds != [] {
      var n := |ds| - 1;
      ActionsExactly(ds[..n], d);
      assert ds == ds[..n] + [ds[n]];
    }
  }

  /** A turn on the budget less the buys before it, and on the cycle cap less everything before it. */
  ghost function TurnOn(budget: real, maxCycle: real, before: seq<Decision>, i: Intent): Turn {
    var bought, sold := GrantedTo(before, true), GrantedTo(before, false);
    Turn(budget - bought, if maxCycle > 0.0 then maxCycle - bought - sold else maxCycle, i, |before|)
  }

  lemma {:induction false} TurnsAgree(budget: real, maxCycle: real, before: seq<Decision>, i: Intent)
    ensures TurnAfter(budget, maxCycle, before, i) == TurnOn(budget, maxCycle, before, i)
  {
    TotalsAreGrants(before, maxCycle);
  }

  /** Each decision is made on what the ones before it left. */
  lemma {:induction false} DecidedInTurn(a: Account, k: Knobs, intents: seq<Intent>, i: nat)
    requires i < |intents|
    ensures var ds := Decisions(a, k, intents);
            ds[i] == Decider(a, k)(TurnOn(Budget(a, k), k.maxCycle, ds[..i], intents[i]))
  {
    DecisionsBefore(Decider(a, k), Budget(a, k), k.maxCycle, intents, i);
    TurnsAgree(Budget(a, k), k.maxCycle, Decisions(a, k, intents)[..i], intents[i]);
  }

  lemma {:induction false} DecisionsBefore(decide: Turn -> Decision, budget: real, maxCycle: real, intents: seq<Intent>, i: nat)
    requires i < |intents|
    ensures var ds := DecideAll(decide, budget, maxCycle, intents);
            ds[i] == decide(TurnAfter(budget, maxCycle, ds[..i], intents[i]))
  {
    var n := |intents| - 1;
    var before := DecideAll(decide, budget, maxCycle, intents[..n]);
    if i < n {
      DecisionsBefore(decide, budget, maxCycle, intents[..n], i);
      assert DecideAll(decide, budget, maxCycle, intents)[..i] == before[..i];
    } else {
      assert DecideAll(decide, budget, maxCycle, intents)[..i] == before;
    }
  }

  // --- what every decision keeps

  /** Within its own budget, its own room in the cycle, and at least the minimum. */
  ghost predicate Bounded(t: Turn, d: Decision, minOrder: real, maxCycle: real) {
    && d.index == t.index && d.buy == t.intent.buy && d.symbol == t.intent.symbol && d.requested == t.intent.requested
    && (d.granted.Some? <==> !d.status.Rejected?)
    && (d.granted.Some? ==>
          && d.granted.value >= minOrder && d.granted.value >= 0.0
          && (d.buy && t.budget >= 0.0 ==> d.granted.value <= t.budget)
          && (maxCycle > 0.0 && t.cycle >= 0.0 ==> d.granted.value <= t.cycle))
  }

  ghost predicate AlwaysBounded(decide: Turn -> Decision, minOrder: real, maxCycle: real) {
    forall t: Turn :: t.budget >= 0.0 && (maxCycle > 0.0 ==> t.cycle >= 0.0) ==> Bounded(t, decide(t), minOrder, maxCycle)
  }

  /** One decision per intent, in order, none below the minimum, and totals within the budget and the cap. */
  ghost predicate InOrderWithin(ds: seq<Decision>, intents: seq<Intent>, budget: real, maxCycle: real, minOrder: real) {
    && BuyTotal(ds) <= budget && (maxCycle > 0.0 ==> Total(ds) <= maxCycle)
    && |ds| == |intents|
    && forall i :: 0 <= i < |ds| ==> Answers(ds[i], intents[i], i, minOrder)
  }

  ghost predicate Answers(d: Decision, i: Intent, index: int, minOrder: real) {
    && d.index == index && d.requested == i.requested && d.symbol == i.symbol && d.buy == i.buy
    && (d.granted.Some? <==> !d.status.Rejected?) && (d.granted.Some? ==> d.granted.value >= minOrder)
  }

  lemma {:induction false} RunningTotals(decide: Turn -> Decision, budget: real, maxCycle: real, minOrder: real, intents: seq<Intent>)
    requires AlwaysBounded(decide, minOrder, maxCycle) && budget >= 0.0
    ensures InOrderWithin(DecideAll(decide, budget, maxCycle, intents), intents, budget, maxCycle, minOrder)
  {
    if intents != [] {
      var n := |intents| - 1;
      RunningTotals(decide, budget, maxCycle, minOrder, intents[..n]);
      var before := DecideAll(decide, budget, maxCycle, intents[..n]);
      var t := TurnAfter(budget, maxCycle, before, intents[n]);
      OneMore(before, decide(t), maxCycle);
      assert Bounded(t, decide(t), minOrder, maxCycle);
    }
  }

  // --- one decision

  lemma {:induction false} HasLimits(buy: bool, requested: real, budget: real, cycle: real, held: real, mark: real, k: Knobs)
    ensures var limits := Limits(buy, requested, budget, cycle, held, mark, k);
            && limits != []
            && Limit(CycleCap, Some(CycleRoom(requested, cycle, k))) in limits
            && (buy ==> Limit(CashTarget, Some(budget)) in limits && Limit(MaxPositionCap, PositionRoom(held, mark, k)) in limits)
            && (!buy ==> Limit(PositionValueCap, Some(Value(held, mark))) in limits)
            && (k.maxIntent > 0.0 ==> Limit(MaxIntentCap, Some(k.maxIntent)) in limits)
            && Named(limits)
  {
    var limits := Limits(buy, requested, budget, cycle, held, mark, k);
    var i := if buy then 2 else 1;
    assert limits[i] == Limit(CycleCap, Some(CycleRoom(requested, cycle, k)));
    assert limits[0] in limits;
    assert buy ==> limits[1] == Limit(MaxPositionCap, PositionRoom(held, mark, k));
    assert k.maxIntent > 0.0 ==> limits[i + 1] == Limit(MaxIntentCap, Some(k.maxIntent));
  }

  /** What was granted respects every limit, or is the minimum and breaks none but the intent cap. */
  lemma {:induction false} SizedWithin(i: Intent, index: nat, requested: real, mark: real, limits: seq<Limit>, k: Knobs, l: Limit)
    requires limits != [] && mark > 0.0 && l in limits && l.value.Some?
    ensures var d := Sized(i, index, requested, mark, limits, k);
            d.granted.Some? ==> d.granted.value <= l.value.value || (l.reason.MaxIntentCap? && d.granted.value == k.minOrder)
  {
    assert Smallest(requested, limits) <= l.value.value;
    if CanRaise(limits, k.minOrder) && !l.reason.MaxIntentCap? {
      assert Allows(l, k.minOrder);
    }
  }

  lemma {:induction false} SmallestNonNegative(requested: real, limits: seq<Limit>)
    requires requested >= 0.0 && forall l :: l in limits && l.value.Some? ==> l.value.value >= 0.0
    ensures Smallest(requested, limits) >= 0.0
  {
    var r := Smallest(requested, limits);
    if r != requested {
      var l :| l in limits && l.value == Some(r);
    }
  }

  lemma {:induction false} LimitsNonNegative(buy: bool, requested: real, budget: real, cycle: real, held: real, mark: real, k: Knobs)
    requires requested > 0.0 && budget >= 0.0 && mark > 0.0 && (buy || held > 0.0)
    ensures forall l :: l in Limits(buy, requested, budget, cycle, held, mark, k) && l.value.Some? ==> l.value.value >= 0.0
  {
    if !buy {
      TimesMonotone(0.0, held, mark);
    }
  }

  /** An intent that gets as far as the limits. */
  predicate Sizable(a: Account, i: Intent) {
    && i.place && i.requested.Some? && i.requested.value > 0.0 && (i.buy || PositionOf(a, i.symbol) > 0.0)
    && MarkOf(a, i.symbol) > 0.0
  }

  function LimitsOf(a: Account, k: Knobs, t: Turn): seq<Limit>
    requires Sizable(a, t.intent)
  {
    var i := t.intent;
    Limits(i.buy, i.requested.value, t.budget, t.cycle, PositionOf(a, i.symbol), MarkOf(a, i.symbol), k)
  }

  lemma {:induction false} Reaches(a: Account, k: Knobs, t: Turn)
    ensures var d := Decider(a, k)(t);
            if Sizable(a, t.intent)
            then LimitsOf(a, k, t) != []
                 && d == Sized(t.intent, t.index, t.intent.requested.value, MarkOf(a, t.intent.symbol), LimitsOf(a, k, t), k)
            else d.granted.None? && d.status.Rejected? && d == Reject(t.intent, t.index, d.reason)
  {
    if Sizable(a, t.intent) {
      var i := t.intent;
      HasLimits(i.buy, i.requested.value, t.budget, t.cycle, PositionOf(a, i.symbol), MarkOf(a, i.symbol), k);
    }
  }

  lemma {:induction false} DecisionBounded(a: Account, k: Knobs, t: Turn)
    requires t.budget >= 0.0 && (k.maxCycle > 0.0 ==> t.cycle >= 0.0)
    ensures Bounded(t, Decider(a, k)(t), k.minOrder, k.maxCycle)
  {
    Reaches(a, k, t);
    if Sizable(a, t.intent) {
      var i, held, mark := t.intent, PositionOf(a, t.intent.symbol), MarkOf(a, t.intent.symbol);
      var limits, requested := LimitsOf(a, k, t), t.intent.requested.value;
      HasLimits(i.buy, requested, t.budget, t.cycle, held, mark, k);
      LimitsNonNegative(i.buy, requested, t.budget, t.cycle, held, mark, k);
      SmallestNonNegative(requested, limits);
      SizedWithin(i, t.index, requested, mark, limits, k, Limit(CycleCap, Some(CycleRoom(requested, t.cycle, k))));
      if i.buy {
        SizedWithin(i, t.index, requested, mark, limits, k, Limit(CashTarget, Some(t.budget)));
      }
    }
  }

  /**
   The cash reserve survives every intent list. Buys with their fees stay within what may be invested
   this cycle, so cash at or above its target stays there; all notional stays within a configured cycle
   cap; every grant meets the minimum order; and there is one decision per intent, in order.
   */
  lemma {:induction false} ReserveIsKept(a: Account, k: Knobs, intents: seq<Intent>)
    ensures var ds := Decisions(a, k, intents);
            && InOrderWithin(ds, intents, Budget(a, k), k.maxCycle, k.minOrder)
            && WithFees(BuyTotal(ds), k) <= Investable(InvestableTotal(a, k), k)
            && (a.cash >= k.targetTryCash ==> a.cash - WithFees(BuyTotal(ds), k) >= k.targetTryCash)
  {
    var decide := Decider(a, k);
    forall t: Turn | t.budget >= 0.0 && (k.maxCycle > 0.0 ==> t.cycle >= 0.0)
      ensures Bounded(t, decide(t), k.minOrder, k.maxCycle)
    {
      DecisionBounded(a, k, t);
    }
    RunningTotals(decide, Budget(a, k), k.maxCycle, k.minOrder, intents);
    FeesIncluded(BuyTotal(Decisions(a, k, intents)), a, k);
  }

  /** A notional with the fees reserved for it. */
  ghost function WithFees(notional: real, k: Knobs): real {
    notional * (1.0 + FeeRatio(k))
  }

  lemma {:induction false} FeesIncluded(bought: real, a: Account, k: Knobs)
    requires bought <= Budget(a, k)
    ensures WithFees(bought, k) <= Investable(InvestableTotal(a, k), k)
  {
    BudgetWithFees(a, k);
    WithinScaled(bought, Budget(a, k), 1.0 + FeeRatio(k), Investable(InvestableTotal(a, k), k));
  }

  lemma {:induction false} BudgetWithFees(a: Account, k: Knobs)
    ensures Budget(a, k) * (1.0 + FeeRatio(k)) == Investable(InvestableTotal(a, k), k)
  {
  }

  lemma {:induction false} WithinScaled(bought: real, budget: real, factor: real, investable: real)
    requires bought <= budget && factor > 0.0 && budget * factor == investable
    ensures bought * factor <= investable
  {
    TimesMonotone(bought, budget, factor);
  }

  /**
   The caps of one intent, on what its turn leaves: a sell stays within the position and its value; a
   buy leaves the position at the start of the cycle within its cap; and the intent cap holds unless
   the grant was raised to the minimum order.
   */
  lemma {:induction false} IntentCaps(a: Account, k: Knobs, t: Turn)
    requires Sizable(a, t.intent)
    ensures var d, held, mark := Decider(a, k)(t), PositionOf(a, t.intent.symbol), MarkOf(a, t.intent.symbol);
            d.granted.Some? ==>
              && d.qty == Quotient(d.granted.value, mark)
              && (!d.buy ==> d.granted.value <= Value(held, mark) && d.qty <= held)
              && (d.buy && k.maxPosition > 0.0 && held > 0.0 && Value(held, mark) <= k.maxPosition ==>
                    Value(held, mark) + d.granted.value <= k.maxPosition)
              && (k.maxIntent > 0.0 ==> d.granted.value <= k.maxIntent || d.granted.value == k.minOrder)
  {
    Reaches(a, k, t);
    var i, held, mark := t.intent, PositionOf(a, t.intent.symbol), MarkOf(a, t.intent.symbol);
    var limits, requested := LimitsOf(a, k, t), t.intent.requested.value;
    var d := Decider(a, k)(t);
    HasLimits(i.buy, requested, t.budget, t.cycle, held, mark, k);
    if k.maxIntent > 0.0 {
      SizedWithin(i, t.index, requested, mark, limits, k, Limit(MaxIntentCap, Some(k.maxIntent)));
    }
    if i.buy {
      if k.maxPosition > 0.0 {
        SizedWithin(i, t.index, requested, mark, limits, k, Limit(MaxPositionCap, PositionRoom(held, mark, k)));
      }
    } else {
      SizedWithin(i, t.index, requested, mark, limits, k, Limit(PositionValueCap, Some(Value(held, mark))));
      if d.granted.Some? {
        SellWithinPosition(d.granted.value, held, mark);
      }
    }
  }

  lemma {:induction false} SellWithinPosition(notional: real, held: real, mark: real)
    requires mark > 0.0 && notional <= Value(held, mark)
    ensures Quotient(notional, mark) <= held
  {
    assert Quotient(notional, mark) * mark == notional;
    CancelFactor(Quotient(notional, mark), held, mark);
  }

  /**
   An intent is granted more than it asked for exactly when the request is below the minimum order and no
   limit but the intent cap stands below that minimum. A cycle cap is then configured. Such a grant is
   reported as accepted, with reason "ok", exactly when no limit was below the request.
   */
  lemma {:induction false} RaisedAboveRequest(a: Account, k: Knobs, t: Turn)
    requires Sizable(a, t.intent)
    ensures var d, requested, limits := Decider(a, k)(t), t.intent.requested.value, LimitsOf(a, k, t);
            var raised := requested < k.minOrder && CanRaise(limits, k.minOrder);
            && (d.granted.Some? && d.granted.value > requested <==> raised)
            && (raised ==> k.maxCycle > 0.0)
            && (raised ==> (d.status.Accepted? <==> forall l :: l in limits ==> Allows(l, requested)))
  {
    Reaches(a, k, t);
    var i, requested, limits := t.intent, t.intent.requested.value, LimitsOf(a, k, t);
    HasLimits(i.buy, requested, t.budget, t.cycle, PositionOf(a, i.symbol), MarkOf(a, i.symbol), k);
    RaisedSized(i, t.index, requested, MarkOf(a, i.symbol), limits, k);
    if requested < k.minOrder && CanRaise(limits, k.minOrder) {
      assert Allows(Limit(CycleCap, Some(CycleRoom(requested, t.cycle, k))), k.minOrder);
    }
  }

  lemma {:induction false} RaisedSized(i: Intent, index: nat, requested: real, mark: real, limits: seq<Limit>, k: Knobs)
    requires limits != [] && mark > 0.0 && Named(limits)
    ensures var d := Sized(i, index, requested, mark, limits, k);
            var raised := requested < k.minOrder && CanRaise(limits, k.minOrder);
            && (d.granted.Some? && d.granted.value > requested <==> raised)
            && (raised ==> (d.status.Accepted? <==> forall l :: l in limits ==> Allows(l, requested)))
  {
    var fits := Smallest(requested, limits);
    BindingIsOk(requested, fits, limits);
    if forall l :: l in limits ==> Allows(l, requested) {
      SmallestIsRequest(requested, limits);
    }
  }

  lemma {:induction false} SmallestIsRequest(requested: real, limits: seq<Limit>)
    requires forall l :: l in limits ==> Allows(l, requested)
    ensures Smallest(requested, limits) == requested
  {
    if limits != [] {
      assert Allows(limits[0], requested);
      SmallestIsRequest(requested, limits[1..]);
    }
  }

  /** No limit is called "ok". */
  ghost predicate Named(limits: seq<Limit>) {
    forall l :: l in limits ==> !l.reason.AllOk?
  }

  lemma {:induction false} BindingIsOk(requested: real, fits: real, limits: seq<Limit>)
    requires limits != []
    ensures Named(limits) ==> (Binding(requested, fits, limits).AllOk? <==> fits >= requested)
  {
    if Named(limits) && fits < requested {
      FirstIsNamed(fits, limits);
    }
  }

  lemma {:induction false} FirstIsNamed(fits: real, limits: seq<Limit>)
    requires limits != [] && Named(limits)
    ensures !FirstAt(fits, limits).AllOk?
  {
    assert limits[0] in limits;
    if |limits| > 1 {
      FirstIsNamed(fits, limits[1..]);
    }
  }

  // --- how much is granted, in terms of the settings

  /** What may be invested this cycle is the most that every setting allows. */
  lemma {:induction false} InvestableExactly(total: real, k: Knobs, x: real)
    requires total >= 0.0
    ensures x <= Investable(total, k) <==>
              && x <= total
              && (k.usageMode.Fraction? ==> x <= total * Min(Max(k.usageFraction, 0.0), 1.0))
              && (k.usageMode.Cap? ==> x <= Max(k.maxTryPerCycle, 0.0))
              && (k.tryCashMax > 0.0 ==> x <= Max(k.tryCashMax - k.targetTryCash, 0.0))
  {
    FractionOf(total, Clamp(k.usageFraction));
  }

  /** What the symbol was worth at the start of the cycle. */
  function Worth(a: Account, symbol: string): real {
    if PositionOf(a, symbol) > 0.0 then Value(PositionOf(a, symbol), MarkOf(a, symbol)) else 0.0
  }

  /** So much breaks neither the budget, nor the position it would build or sell from, nor the cycle cap. */
  predicate WithinRooms(a: Account, k: Knobs, t: Turn, x: real) {
    && (t.intent.buy ==> x <= t.budget && (k.maxPosition > 0.0 ==> x <= Max(k.maxPosition - Worth(a, t.intent.symbol), 0.0)))
    && (!t.intent.buy ==> x <= Worth(a, t.intent.symbol))
    && (k.maxCycle > 0.0 ==> x <= Max(t.cycle, 0.0))
  }

  /** So much was asked for and breaks no limit. */
  predicate Fits(a: Account, k: Knobs, t: Turn, x: real)
    requires Sizable(a, t.intent)
  {
    x <= t.intent.requested.value && WithinRooms(a, k, t, x) && (k.maxIntent > 0.0 ==> x <= k.maxIntent)
  }

  /** The most that fits. */
  ghost predicate IsMost(a: Account, k: Knobs, t: Turn, most: real)
    requires Sizable(a, t.intent)
  {
    Fits(a, k, t, most) && forall x :: Fits(a, k, t, x) ==> x <= most
  }

  lemma {:induction false} LimitsAllow(a: Account, k: Knobs, t: Turn, x: real)
    requires Sizable(a, t.intent)
    ensures x <= t.intent.requested.value ==>
              (Fits(a, k, t, x) <==> forall l :: l in LimitsOf(a, k, t) ==> Allows(l, x))
    ensures CanRaise(LimitsOf(a, k, t), x) <==> WithinRooms(a, k, t, x) && (k.maxCycle <= 0.0 ==> x <= t.intent.requested.value)
  {
    var i, held, mark, limits := t.intent, PositionOf(a, t.intent.symbol), MarkOf(a, t.intent.symbol), LimitsOf(a, k, t);
    HasLimits(i.buy, i.requested.value, t.budget, t.cycle, held, mark, k);
    if i.buy {
      assert forall l :: l in limits ==>
        l == Limit(CashTarget, Some(t.budget)) || l == Limit(MaxPositionCap, PositionRoom(held, mark, k))
        || l == Limit(CycleCap, Some(CycleRoom(i.requested.value, t.cycle, k)))
        || (k.maxIntent > 0.0 && l == Limit(MaxIntentCap, Some(k.maxIntent)));
    } else {
      assert forall l :: l in limits ==>
        l == Limit(PositionValueCap, Some(Value(held, mark)))
        || l == Limit(CycleCap, Some(CycleRoom(i.requested.value, t.cycle, k)))
        || (k.maxIntent > 0.0 && l == Limit(MaxIntentCap, Some(k.maxIntent)));
    }
  }

  lemma {:induction false} SmallestAllowed(x: real, limits: seq<Limit>, y: real)
    ensures forall l :: l in limits ==> Allows(l, Smallest(x, limits))
    ensures y <= x && (forall l :: l in limits ==> Allows(l, y)) ==> y <= Smallest(x, limits)
  {
    var r := Smallest(x, limits);
    if r != x {
      var l :| l in limits && l.value == Some(r);
      assert Allows(l, y) ==> y <= r;
    }
  }

  lemma {:induction false} SmallestIsMost(a: Account, k: Knobs, t: Turn)
    requires Sizable(a, t.intent)
    ensures IsMost(a, k, t, Smallest(t.intent.requested.value, LimitsOf(a, k, t)))
  {
    var requested, limits := t.intent.requested.value, LimitsOf(a, k, t);
    SmallestAllowed(requested, limits, requested);
    LimitsAllow(a, k, t, Smallest(requested, limits));
    forall x | Fits(a, k, t, x) ensures x <= Smallest(requested, limits) {
      LimitsAllow(a, k, t, x);
      SmallestAllowed(requested, limits, x);
    }
  }

  /** The limit that is called this stands at so much. */
  ghost predicate StandsAt(a: Account, k: Knobs, t: Turn, reason: Reason, x: real) {
    match reason
    case CashTarget => t.intent.buy && t.budget == x
    case MaxPositionCap => t.intent.buy && k.maxPosition > 0.0 && Max(k.maxPosition - Worth(a, t.intent.symbol), 0.0) == x
    case PositionValueCap => !t.intent.buy && Worth(a, t.intent.symbol) == x
    case CycleCap => k.maxCycle > 0.0 && Max(t.cycle, 0.0) == x
    case MaxIntentCap => k.maxIntent > 0.0 && k.maxIntent == x
    case _ => false
  }

  /** A grant names no limit when it is what was asked for, and otherwise one that stands at the most that fits. */
  ghost predicate ReasonFits(a: Account, k: Knobs, t: Turn, d: Decision, most: real)
    requires Sizable(a, t.intent)
  {
    if most == t.intent.requested.value || d.granted == t.intent.requested then d.reason.AllOk? && d.status.Accepted?
    else StandsAt(a, k, t, d.reason, most) && d.status.Scaled?
  }

  lemma {:induction false} FirstStands(x: real, limits: seq<Limit>)
    requires limits != [] && exists l :: l in limits && l.value == Some(x)
    ensures exists l :: l in limits && l.value == Some(x) && l.reason == FirstAt(x, limits)
  {
    if limits[0].value == Some(x) {
      assert limits[0] in limits;
    } else {
      var l :| l in limits && l.value == Some(x);
      assert limits == [limits[0]] + limits[1..];
      assert l in limits[1..];
      FirstStands(x, limits[1..]);
      var m :| m in limits[1..] && m.value == Some(x) && m.reason == FirstAt(x, limits[1..]);
      assert m in limits;
    }
  }

  lemma {:induction false} LimitStands(a: Account, k: Knobs, t: Turn, l: Limit, x: real)
    requires Sizable(a, t.intent) && l in LimitsOf(a, k, t) && l.value == Some(x) && x < t.intent.requested.value
    ensures StandsAt(a, k, t, l.reason, x)
  {
  }

  lemma {:induction false} BindingStands(a: Account, k: Knobs, t: Turn)
    requires Sizable(a, t.intent) && Smallest(t.intent.requested.value, LimitsOf(a, k, t)) < t.intent.requested.value
    ensures var most := Smallest(t.intent.requested.value, LimitsOf(a, k, t));
            LimitsOf(a, k, t) != [] && StandsAt(a, k, t, Binding(t.intent.requested.value, most, LimitsOf(a, k, t)), most)
  {
    Reaches(a, k, t);
    var limits := LimitsOf(a, k, t);
    var most := Smallest(t.intent.requested.value, limits);
    FirstStands(most, limits);
    var l :| l in limits && l.value == Some(most) && l.reason == FirstAt(most, limits);
    LimitStands(a, k, t, l, most);
  }

  lemma {:induction false} BlockedByCash(a: Account, k: Knobs, t: Turn, otherwise: Reason)
    requires Sizable(a, t.intent) && !CanRaise(LimitsOf(a, k, t), k.minOrder)
    ensures Blocking(LimitsOf(a, k, t), k.minOrder, otherwise).CashTarget? <==> t.intent.buy && t.budget < k.minOrder
  {
    BlockingIsLimit(LimitsOf(a, k, t), k.minOrder, otherwise);
    var limits := LimitsOf(a, k, t);
    if t.intent.buy && t.budget < k.minOrder {
      assert limits[0] == Limit(CashTarget, Some(t.budget));
    }
  }

  lemma {:induction false} BlockingIsLimit(limits: seq<Limit>, minimum: real, otherwise: Reason)
    requires exists l :: l in limits && !Allows(l, minimum)
    ensures exists l :: l in limits && !Allows(l, minimum) && l.reason == Blocking(limits, minimum, otherwise)
  {
    if !Allows(limits[0], minimum) {
      assert limits[0] in limits;
    } else {
      assert limits == [limits[0]] + limits[1..];
      BlockingIsLimit(limits[1..], minimum, otherwise);
      var l :| l in limits[1..] && !Allows(l, minimum) && l.reason == Blocking(limits[1..], minimum, otherwise);
      assert l in limits;
    }
  }

  /**
   How much is granted: the most that fits, when that meets the minimum order; else the minimum order,
   when only the request, under a cycle cap, or the intent cap stands below it; else nothing, for lack of
   cash when the budget is below the minimum.
   */
  lemma {:induction false} GrantedExactly(a: Account, k: Knobs, t: Turn) returns (most: real)
    requires Sizable(a, t.intent)
    ensures IsMost(a, k, t, most)
    ensures var d := Decider(a, k)(t);
            var raised := WithinRooms(a, k, t, k.minOrder) && (k.maxCycle <= 0.0 ==> k.minOrder <= t.intent.requested.value);
            if most >= k.minOrder then d.granted == Some(most) && ReasonFits(a, k, t, d, most)
            else if raised then d.granted == Some(k.minOrder) && ReasonFits(a, k, t, d, most)
            else d.granted.None? && d.reason == if t.intent.buy && t.budget < k.minOrder then CashTarget else MinNotional
  {
    var requested, limits := t.intent.requested.value, LimitsOf(a, k, t);
    most := Smallest(requested, limits);
    Reaches(a, k, t);
    SmallestIsMost(a, k, t);
    LimitsAllow(a, k, t, k.minOrder);
    if most < requested {
      BindingStands(a, k, t);
    }
    if !CanRaise(limits, k.minOrder) {
      BlockedByCash(a, k, t, Binding(requested, most, limits));
    }
  }

  /** Why an intent does not get as far as the limits. */
  lemma {:induction false} RejectedEarly(a: Account, k: Knobs, t: Turn)
    requires !Sizable(a, t.intent)
    ensures var d, i := Decider(a, k)(t), t.intent;
            && d.granted.None? && d.status.Rejected?
            && (d.reason.NotImplemented? <==> !i.place)
            && (d.reason.MinNotional? <==> i.place && (i.requested.None? || i.requested.value <= 0.0))
            && (d.reason.NoPosition? <==>
                  i.place && i.requested.Some? && i.requested.value > 0.0 && !i.buy && PositionOf(a, i.symbol) <= 0.0)
            && (d.reason.NoMarkPrice? <==>
                  i.place && i.requested.Some? && i.requested.value > 0.0 && (i.buy || PositionOf(a, i.symbol) > 0.0))
  {
  }
}
