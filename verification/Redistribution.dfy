/**
 The aggressive plan: the deploy budget is shared out by score, symbols whose share does not make a
 valid order are dropped, and their share goes to the others, until nobody is dropped.
 */
module Redistribution {
  import opened Money
  import opened Results
  import opened Quantizer

  datatype Market = Market(scores: map<string, real>, marks: map<string, real>, rules: map<string, ExchangeRules>)

  function Get(m: map<string, real>, symbol: string): real {
    if symbol in m then m[symbol] else 0.0
  }

  predicate IsEligible(m: Market, symbol: string) {
    symbol in m.rules && Get(m.marks, symbol) > 0.0
  }

  function Score(m: Market, symbol: string): (r: real)
    ensures r >= 0.0
    ensures r > 0.0 <==> symbol in m.scores && m.scores[symbol] > 0.0
    ensures r > 0.0 ==> m.scores[symbol] == r
  {
    Max(0.0, Get(m.scores, symbol))
  }

  function TotalScore(m: Market, symbols: seq<string>): (r: real)
    ensures r >= 0.0
  {
    if symbols == [] then 0.0
    else
      var n := |symbols| - 1;
      TotalScore(m, symbols[..n]) + Score(m, symbols[n])
  }

  /** What one round's shares depend on. */
  datatype Round = Round(budget: real, totalScore: real, count: nat)

  function RoundOf(m: Market, budget: real, kept: seq<string>): Round {
    Round(budget, TotalScore(m, kept), |kept|)
  }

  function Weight(m: Market, r: Round, symbol: string): real
    requires r.count > 0
  {
    if r.totalScore > 0.0 then Score(m, symbol) / r.totalScore else 1.0 / r.count as real
  }

  /** The part of the budget a symbol gets. */
  function Allot(m: Market, r: Round, symbol: string): real
    requires r.count > 0
  {
    r.budget * Weight(m, r, symbol)
  }

  datatype Plan = Plan(symbol: string, price: real, qty: real, notional: real)

  datatype DropReason = InvalidPrice | ZeroQty | MinNotional

  type Planner = string -> Result<Plan, DropReason>

  /** An order for so much of an eligible symbol, or why there is none. */
  function PlanOrder(m: Market, symbol: string, notional: real): Result<Plan, DropReason> {
    if !IsEligible(m, symbol) then Err(InvalidPrice)
    else
      var rules := m.rules[symbol];
      var price := QuantizePrice(m.marks[symbol], rules).value;
      if price <= 0.0 then Err(InvalidPrice) else PlanQty(symbol, price, QuantizeQty(notional / price, rules), rules)
  }

  /** A quantity that cannot be quantized is not positive. */
  function PlanQty(symbol: string, price: real, qty: Result<real, ValueError>, rules: ExchangeRules): Result<Plan, DropReason> {
    if qty.Err? then Err(ZeroQty)
    else if qty.value <= 0.0 || !MeetsMinNotional(price, qty.value, rules) then Err(MinNotional)
    else Ok(Plan(symbol, price, qty.value, qty.value * price))
  }

  /** How a round plans each symbol. */
  function PlannerOf(m: Market, r: Round): Planner {
    symbol => if r.count == 0 then Err(InvalidPrice) else PlanOrder(m, symbol, Allot(m, r, symbol))
  }

  /** Those of the symbols that get an order. */
  function Passing(plan: Planner, symbols: seq<string>): (kept: seq<string>)
    ensures |kept| <= |symbols|
  {
    if symbols == [] then []
    else
      var n := |symbols| - 1;
      Passing(plan, symbols[..n]) + if plan(symbols[n]).Ok? then [symbols[n]] else []
  }

  lemma {:induction false} PassingMembers(plan: Planner, symbols: seq<string>, s: string)
    ensures s in Passing(plan, symbols) <==> s in symbols && plan(s).Ok?
  {
    if symbols != [] {
      var n := |symbols| - 1;
      PassingMembers(plan, symbols[..n], s);
      assert symbols == symbols[..n] + [symbols[n]];
    }
  }

  /** `plans[symbol] = plan` on a dictionary that lists its keys in insertion order. */
  function Put(plans: seq<Plan>, plan: Plan): seq<Plan> {
    if exists i :: 0 <= i < |plans| && plans[i].symbol == plan.symbol then
      seq(|plans|, i requires 0 <= i < |plans| => if plans[i].symbol == plan.symbol then plan else plans[i])
    else plans + [plan]
  }

  /** One round's plans. */
  function PlansOf(plan: Planner, symbols: seq<string>): seq<Plan> {
    if symbols == [] then []
    else
      var n := |symbols| - 1;
      var before, last := PlansOf(plan, symbols[..n]), plan(symbols[n]);
      if last.Ok? then Put(before, last.value) else before
  }

  // --- the loop

  /** `list.remove`: the first occurrence goes. */
  function Remove(s: seq<string>, x: string): seq<string> {
    if s == [] then [] else if s[0] == x then s[1..] else [s[0]] + Remove(s[1..], x)
  }

  lemma {:induction false} RemoveAt(s: seq<string>, i: nat)
    requires i < |s| && forall j :: 0 <= j < i ==> s[j] != s[i]
    ensures Remove(s, s[i]) == s[..i] + s[i + 1..]
  {
    if i > 0 {
      RemoveAt(s[1..], i - 1);
      assert s[1..][..i - 1] == s[1..i] && s[1..][i..] == s[i + 1..];
    }
  }

  /** Dropping the next symbol of a snapshot whose earlier symbols were dropped or kept. */
  lemma {:induction false} RemoveNext(passed: seq<string>, symbol: string, rest: seq<string>)
    requires symbol !in passed
    ensures Remove(passed + ([symbol] + rest), symbol) == passed + rest
  {
    var all := passed + ([symbol] + rest);
    assert all[..|passed|] == passed && all[|passed|] == symbol && all[|passed| + 1..] == rest;
    forall j | 0 <= j < |passed| ensures all[j] != symbol {
      assert all[j] in passed;
    }
    RemoveAt(all, |passed|);
  }

  lemma {:induction false} PassingNext(plan: Planner, snapshot: seq<string>, i: nat)
    requires i < |snapshot|
    ensures var passed, plans, p := Passing(plan, snapshot[..i]), PlansOf(plan, snapshot[..i]), plan(snapshot[i]);
            && Passing(plan, snapshot[..i + 1]) == (if p.Ok? then passed + [snapshot[i]] else passed)
            && PlansOf(plan, snapshot[..i + 1]) == (if p.Ok? then Put(plans, p.value) else plans)
            && (p.Err? ==> snapshot[i] !in passed)
  {
    assert snapshot[..i + 1][..i] == snapshot[..i];
    var passed := Passing(plan, snapshot[..i]);
    assert passed + [] == passed;
    PassingMembers(plan, snapshot[..i], snapshot[i]);
  }

  lemma {:induction false} Reassociate(a: seq<string>, x: string, b: seq<string>)
    ensures a + ([x] + b) == (a + [x]) + b
  {
  }

  /** Processing one more symbol of the snapshot. */
  lemma {:induction false} RoundStep(plan: Planner, snapshot: seq<string>, i: nat, kept: seq<string>)
    requires i < |snapshot| && kept == Passing(plan, snapshot[..i]) + snapshot[i..]
    ensures var next := if plan(snapshot[i]).Ok? then kept else Remove(kept, snapshot[i]);
            && next == Passing(plan, snapshot[..i + 1]) + snapshot[i + 1..]
            && |next| == if plan(snapshot[i]).Ok? then |kept| else |kept| - 1
  {
    PassingNext(plan, snapshot, i);
    assert snapshot[i..] == [snapshot[i]] + snapshot[i + 1..];
    KeptNext(Passing(plan, snapshot[..i]), snapshot[i], snapshot[i + 1..], plan(snapshot[i]).Ok?);
  }

  lemma {:induction false} KeptNext(passed: seq<string>, symbol: string, rest: seq<string>, ok: bool)
    requires !ok ==> symbol !in passed
    ensures var kept := passed + ([symbol] + rest);
            var next := if ok then kept else Remove(kept, symbol);
            && next == (if ok then passed + [symbol] else passed) + rest
            && |next| == if ok then |kept| else |kept| - 1
  {
    if ok {
      Reassociate(passed, symbol, rest);
    } else {
      RemoveNext(passed, symbol, rest);
    }
  }

  type Drops = map<DropReason, nat>

  function Count(drops: Drops, reason: DropReason): nat {
    if reason in drops then drops[reason] else 0
  }

  function TotalDrops(drops: Drops): nat {
    Count(drops, InvalidPrice) + Count(drops, ZeroQty) + Count(drops, MinNotional)
  }

  lemma {:induction false} DropCounted(drops: Drops, reason: DropReason)
    ensures TotalDrops(drops[reason := Count(drops, reason) + 1]) == TotalDrops(drops) + 1
  {
    match reason case InvalidPrice => case ZeroQty => case MinNotional =>
  }

  /** One round: the for loop over a snapshot of the kept symbols. */
  method RunRound(plan: Planner, snapshot: seq<string>, drops0: Drops)
    returns (kept: seq<string>, plans: seq<Plan>, drops: Drops, droppedAny: bool)
    ensures kept == Passing(plan, snapshot) && plans == PlansOf(plan, snapshot)
    ensures |kept| + TotalDrops(drops) == |snapshot| + TotalDrops(drops0)
    ensures droppedAny <==> |kept| < |snapshot|
  {
    kept, plans, drops, droppedAny := snapshot, [], drops0, false;
    for i := 0 to |snapshot|
      invariant kept == Passing(plan, snapshot[..i]) + snapshot[i..]
      invariant plans == PlansOf(plan, snapshot[..i])
      invariant |kept| + TotalDrops(drops) == |snapshot| + TotalDrops(drops0)
      invariant droppedAny <==> |kept| < |snapshot|
    {
      var symbol := snapshot[i];
      PassingNext(plan, snapshot, i);
      RoundStep(plan, snapshot, i, kept);
      match plan(symbol)
      case Err(reason) =>
        DropCounted(drops, reason);
        kept, drops, droppedAny := Remove(kept, symbol), drops[reason := Count(drops, reason) + 1], true;
      case Ok(p) =>
        plans := Put(plans, p);
    }
    assert snapshot[..|snapshot|] == snapshot;
  }

  function Eligible(m: Market, universe: seq<string>): seq<string> {
    if universe == [] then []
    else
      var n := |universe| - 1;
      Eligible(m, universe[..n]) + if IsEligible(m, universe[n]) then [universe[n]] else []
  }

  /** Those who get an order in round one. */
  function Survivors(m: Market, budget: real, universe: seq<string>): seq<string> {
    var eligible := Eligible(m, universe);
    Passing(PlannerOf(m, RoundOf(m, budget, eligible)), eligible)
  }

  // --- shares only grow

  lemma {:induction false} PlanQtyMonotone(symbol: string, price: real, qty: real, qty': real, rules: ExchangeRules)
    requires price > 0.0 && qty <= qty' && PlanQty(symbol, price, Ok(qty), rules).Ok?
    ensures PlanQty(symbol, price, Ok(qty'), rules).Ok?
  {
    TimesMonotone(qty, qty', price);
  }

  lemma {:induction false} QuantizeMonotone(x: real, y: real, price: real, rules: ExchangeRules)
    requires price > 0.0 && x <= y && QuantizeQty(x / price, rules).Ok?
    ensures var q, q' := QuantizeQty(x / price, rules), QuantizeQty(y / price, rules);
            q'.Ok? && q.value <= q'.value
  {
    DivideMonotone(x, y, price);
    ToStepMonotone(x / price, y / price, QtyStep(rules));
  }

  /** What makes an order once makes one again with more money. */
  lemma {:induction false} PassesAgain(m: Market, symbol: string, x: real, y: real)
    requires PlanOrder(m, symbol, x).Ok? && x <= y
    ensures PlanOrder(m, symbol, y).Ok?
  {
    var rules := m.rules[symbol];
    var price := QuantizePrice(m.marks[symbol], rules).value;
    QuantizeMonotone(x, y, price, rules);
    PlanQtyMonotone(symbol, price, QuantizeQty(x / price, rules).value, QuantizeQty(y / price, rules).value, rules);
  }

  lemma {:induction false} OrderNeedsMoney(m: Market, symbol: string, notional: real)
    requires PlanOrder(m, symbol, notional).Ok?
    ensures notional > 0.0
  {
    var price := QuantizePrice(m.marks[symbol], m.rules[symbol]).value;
    assert notional / price > 0.0;
    assert (notional / price) * price == notional;
  }

  lemma {:induction false} ScoreOfPart(m: Market, plan: Planner, symbols: seq<string>)
    ensures TotalScore(m, Passing(plan, symbols)) <= TotalScore(m, symbols)
  {
    if symbols != [] {
      var n := |symbols| - 1;
      ScoreOfPart(m, plan, symbols[..n]);
      var before := Passing(plan, symbols[..n]);
      assert (before + [symbols[n]])[..|before|] == before;
      assert before + [] == before;
    }
  }

  lemma {:induction false} ScoreOfMember(m: Market, symbols: seq<string>, symbol: string)
    requires symbol in symbols
    ensures Score(m, symbol) <= TotalScore(m, symbols)
  {
    var n := |symbols| - 1;
    if symbols[n] != symbol {
      ScoreOfMember(m, symbols[..n], symbol);
    }
  }

  /** The round's total score, and whether a symbol with an order in it has a positive score. */
  lemma {:induction false} PassingScores(m: Market, r: Round, symbol: string)
    requires r.budget >= 0.0 && r.totalScore > 0.0 && r.count > 0 && PlannerOf(m, r)(symbol).Ok?
    ensures Score(m, symbol) > 0.0
  {
    OrderNeedsMoney(m, symbol, Allot(m, r, symbol));
    if Score(m, symbol) == 0.0 {
      NoScoreNoShare(m, r, symbol);
      assert false;
    }
  }

  lemma {:induction false} NoScoreNoShare(m: Market, r: Round, symbol: string)
    requires r.totalScore > 0.0 && r.count > 0 && Score(m, symbol) == 0.0
    ensures Allot(m, r, symbol) == 0.0
  {
    assert Weight(m, r, symbol) == 0.0;
  }

  /** Shares only grow as others drop. */
  lemma {:induction false} ShareGrows(m: Market, r: Round, r': Round, symbol: string)
    requires 0 < r'.count <= r.count && 0.0 <= r'.totalScore <= r.totalScore && r.budget == r'.budget >= 0.0
    requires r.totalScore > 0.0 ==> r'.totalScore > 0.0
    ensures Allot(m, r, symbol) <= Allot(m, r', symbol)
  {
    WeightGrows(m, r, r', symbol);
    TimesMonotone(Weight(m, r, symbol), Weight(m, r', symbol), r.budget);
  }

  lemma {:induction false} WeightGrows(m: Market, r: Round, r': Round, symbol: string)
    requires 0 < r'.count <= r.count && 0.0 <= r'.totalScore <= r.totalScore
    requires r.totalScore > 0.0 ==> r'.totalScore > 0.0
    ensures Weight(m, r, symbol) <= Weight(m, r', symbol)
  {
    if r.totalScore > 0.0 {
      QuotientGrows(Score(m, symbol), r'.totalScore, r.totalScore);
    } else {
      QuotientGrows(1.0, r'.count as real, r.count as real);
    }
  }

  lemma {:induction false} StillPasses(m: Market, r: Round, r': Round, symbol: string)
    requires 0 < r'.count <= r.count && 0.0 <= r'.totalScore <= r.totalScore && r.budget == r'.budget >= 0.0
    requires r.totalScore > 0.0 ==> r'.totalScore > 0.0
    requires PlannerOf(m, r)(symbol).Ok?
    ensures PlannerOf(m, r')(symbol).Ok?
  {
    ShareGrows(m, r, r', symbol);
    PassesAgain(m, symbol, Allot(m, r, symbol), Allot(m, r', symbol));
  }

  /** Whoever passes a round passes the next one, with the others' shares added. */
  lemma {:induction false} SurvivorPasses(m: Market, budget: real, kept: seq<string>, symbol: string)
    requires budget >= 0.0 && symbol in Passing(PlannerOf(m, RoundOf(m, budget, kept)), kept)
    ensures var next := Passing(PlannerOf(m, RoundOf(m, budget, kept)), kept);
            PlannerOf(m, RoundOf(m, budget, next))(symbol).Ok?
  {
    var r := RoundOf(m, budget, kept);
    var next := Passing(PlannerOf(m, r), kept);
    var r' := RoundOf(m, budget, next);
    ScoreOfPart(m, PlannerOf(m, r), kept);
    PassingMembers(PlannerOf(m, r), kept, symbol);
    if r.totalScore > 0.0 {
      PassingScores(m, r, symbol);
      ScoreOfMember(m, next, symbol);
    }
    StillPasses(m, r, r', symbol);
  }

  lemma {:induction false} AllPass(plan: Planner, symbols: seq<string>)
    requires forall i :: 0 <= i < |symbols| ==> plan(symbols[i]).Ok?
    ensures Passing(plan, symbols) == symbols
  {
    if symbols != [] {
      AllPass(plan, symbols[..|symbols| - 1]);
    }
  }

  /** The second round drops nobody. */
  lemma {:induction false} SecondRoundIsStable(m: Market, budget: real, kept: seq<string>)
    requires budget >= 0.0
    ensures var next := Passing(PlannerOf(m, RoundOf(m, budget, kept)), kept);
            Passing(PlannerOf(m, RoundOf(m, budget, next)), next) == next
  {
    var next := Passing(PlannerOf(m, RoundOf(m, budget, kept)), kept);
    forall i | 0 <= i < |next| ensures PlannerOf(m, RoundOf(m, budget, next))(next[i]).Ok? {
      SurvivorPasses(m, budget, kept, next[i]);
    }
    AllPass(PlannerOf(m, RoundOf(m, budget, next)), next);
  }

  // --- what is ordered

  /**
   An order that may be placed with so much money: the mark price rounded down to its grid, a positive grid
   quantity worth the minimum and no more than the money, which would not pay for one step more.
   */
  ghost predicate PlanFits(m: Market, money: real, plan: Plan) {
    && IsEligible(m, plan.symbol)
    && var rules, mark := m.rules[plan.symbol], m.marks[plan.symbol];
       && OnStep(plan.price, PriceStep(rules)) && 0.0 < plan.price <= mark < plan.price + PriceStep(rules)
       && OnStep(plan.qty, QtyStep(rules)) && plan.qty > 0.0
       && plan.notional == plan.price * plan.qty
       && rules.minNotional <= plan.price * plan.qty <= money < plan.price * (plan.qty + QtyStep(rules))
  }

  lemma {:induction false} QuotientTimes(money: real, price: real)
    requires price > 0.0
    ensures price * (money / price) == money
  {
  }

  lemma {:induction false} MoneyBetween(money: real, price: real, qty: real, step: real)
    requires price > 0.0 && qty <= money / price < qty + step
    ensures price * qty <= money < price * (qty + step)
  {
    QuotientTimes(money, price);
    TimesMonotone(qty, money / price, price);
    TimesStrict(money / price, qty + step, price);
  }

  lemma {:induction false} PlansFit(m: Market, symbol: string, money: real)
    requires PlanOrder(m, symbol, money).Ok?
    ensures PlanOrder(m, symbol, money).value.symbol == symbol && PlanFits(m, money, PlanOrder(m, symbol, money).value)
  {
    var rules := m.rules[symbol];
    var price := QuantizePrice(m.marks[symbol], rules).value;
    MoneyBetween(money, price, QuantizeQty(money / price, rules).value, QtyStep(rules));
  }

  /** A positive grid quantity worth the minimum and no more than the money. */
  ghost predicate Pays(price: real, money: real, g: real, rules: ExchangeRules) {
    OnStep(g, QtyStep(rules)) && g > 0.0 && rules.minNotional <= price * g <= money
  }

  /** There is such a quantity at this price. */
  ghost predicate Affordable(price: real, money: real, rules: ExchangeRules) {
    exists g :: Pays(price, money, g, rules)
  }

  /** What the money buys at most, rounded down, pays if anything does. */
  lemma {:induction false} FloorPays(price: real, money: real, most: real, g: real, rules: ExchangeRules)
    requires price > 0.0 && most * price == money && Pays(price, money, g, rules)
    ensures QuantizeQty(most, rules).Ok? && QuantizeQty(most, rules).value >= g
    ensures MeetsMinNotional(price, QuantizeQty(most, rules).value, rules)
  {
    CancelFactor(g, most, price);
    ToStepGreatest(most, g, QtyStep(rules));
    TimesMonotone(g, QuantizeQty(most, rules).value, price);
  }

  lemma {:induction false} OrderPays(symbol: string, price: real, money: real, most: real, rules: ExchangeRules)
    requires price > 0.0 && most * price == money && PlanQty(symbol, price, QuantizeQty(most, rules), rules).Ok?
    ensures Pays(price, money, QuantizeQty(most, rules).value, rules)
  {
    TimesMonotone(QuantizeQty(most, rules).value, most, price);
  }

  lemma {:induction false} SignOfProduct(most: real, price: real)
    requires price > 0.0
    ensures most > 0.0 <==> most * price > 0.0
  {
    if most > 0.0 {
      TimesStrict(0.0, most, price);
    } else {
      TimesMonotone(most, 0.0, price);
    }
  }

  lemma {:induction false} QtyExactly(symbol: string, price: real, money: real, most: real, rules: ExchangeRules)
    requires price > 0.0 && most * price == money
    ensures var r := PlanQty(symbol, price, QuantizeQty(most, rules), rules);
            && (r.Ok? <==> Affordable(price, money, rules))
            && (r.Err? ==> r.error == if money <= 0.0 then ZeroQty else MinNotional)
  {
    SignOfProduct(most, price);
    var r := PlanQty(symbol, price, QuantizeQty(most, rules), rules);
    if r.Ok? {
      OrderPays(symbol, price, money, most, rules);
    } else if Affordable(price, money, rules) {
      var g :| Pays(price, money, g, rules);
      FloorPays(price, money, most, g, rules);
      assert false;
    }
  }

  /**
   When there is an order, and otherwise which reason is given: no mark price or one below a tick; no
   money; or no grid quantity that is worth the minimum and affordable.
   */
  lemma {:induction false} OrderExactly(m: Market, symbol: string, money: real)
    ensures var r := PlanOrder(m, symbol, money);
            if !IsEligible(m, symbol) || ToStep(m.marks[symbol], PriceStep(m.rules[symbol])) <= 0.0 then r == Err(InvalidPrice)
            else
              && (r.Ok? <==> Affordable(ToStep(m.marks[symbol], PriceStep(m.rules[symbol])), money, m.rules[symbol]))
              && (r.Err? ==> r.error == if money <= 0.0 then ZeroQty else MinNotional)
  {
    if IsEligible(m, symbol) && ToStep(m.marks[symbol], PriceStep(m.rules[symbol])) > 0.0 {
      var price := ToStep(m.marks[symbol], PriceStep(m.rules[symbol]));
      QuotientTimes(money, price);
      QtyExactly(symbol, price, money, money / price, m.rules[symbol]);
    }
  }

  /** Shares are proportional to scores, and equal when nobody has one. */
  lemma {:induction false} SharesByScore(m: Market, r: Round, a: string, b: string)
    requires r.count > 0
    ensures r.totalScore > 0.0 ==> Allot(m, r, a) * Score(m, b) == Allot(m, r, b) * Score(m, a)
    ensures r.totalScore <= 0.0 ==> Allot(m, r, a) == Allot(m, r, b)
  {
    if r.totalScore > 0.0 {
      Proportional(r.budget, Score(m, a), Score(m, b), r.totalScore);
    }
  }

  lemma {:induction false} Proportional(budget: real, x: real, y: real, total: real)
    requires total > 0.0
    ensures (budget * (x / total)) * y == (budget * (y / total)) * x
  {
    var a, b := x / total, y / total;
    assert x == a * total && y == b * total;
    Exchange(budget, a, b, total);
  }

  lemma {:induction false} Exchange(budget: real, a: real, b: real, total: real)
    ensures (budget * a) * (b * total) == (budget * b) * (a * total)
  {
  }

  /** Who survives: the eligible symbols that can place an order with their share of the first round. */
  lemma {:induction false} SurvivesExactly(m: Market, budget: real, universe: seq<string>, symbol: string)
    ensures var eligible := Eligible(m, universe);
            symbol in Survivors(m, budget, universe) <==>
              && symbol in universe && symbol in m.rules && symbol in m.marks && m.marks[symbol] > 0.0
              && var rules := m.rules[symbol];
                 var price := ToStep(m.marks[symbol], PriceStep(rules));
                 |eligible| > 0 && price > 0.0 && Affordable(price, Allot(m, RoundOf(m, budget, eligible), symbol), rules)
  {
    var eligible := Eligible(m, universe);
    EligibleMembers(m, universe, symbol);
    PassingMembers(PlannerOf(m, RoundOf(m, budget, eligible)), eligible, symbol);
    if symbol in eligible {
      OrderExactly(m, symbol, Allot(m, RoundOf(m, budget, eligible), symbol));
    }
  }

  lemma {:induction false} EligibleMembers(m: Market, universe: seq<string>, symbol: string)
    ensures symbol in Eligible(m, universe) <==> symbol in universe && IsEligible(m, symbol)
  {
    if universe != [] {
      var n := |universe| - 1;
      EligibleMembers(m, universe[..n], symbol);
      assert universe == universe[..n] + [universe[n]];
    }
  }

  /** What the planned orders cost. */
  function CostOfOrders(plans: seq<Plan>): real {
    if plans == [] then 0.0
    else
      var n := |plans| - 1;
      CostOfOrders(plans[..n]) + plans[n].price * plans[n].qty
  }

  lemma {:induction false} PlannedIsCost(plans: seq<Plan>)
    requires forall i :: 0 <= i < |plans| ==> plans[i].notional == plans[i].price * plans[i].qty
    ensures PlannedTotal(plans) == CostOfOrders(plans)
  {
    if plans != [] {
      PlannedIsCost(plans[..|plans| - 1]);
    }
  }

  /** Every order of a plan fits its symbol's share of the budget among the given symbols. */
  ghost predicate PlansFitShares(m: Market, budget: real, symbols: seq<string>, plans: seq<Plan>) {
    && (symbols == [] ==> plans == [])
    && (symbols != [] ==> forall i :: 0 <= i < |plans| ==> PlanFits(m, Allot(m, RoundOf(m, budget, symbols), plans[i].symbol), plans[i]))
  }

  // --- the budget

  ghost function TotalAllotted(m: Market, r: Round, symbols: seq<string>): real
    requires r.count > 0
  {
    if symbols == [] then 0.0
    else
      var n := |symbols| - 1;
      TotalAllotted(m, r, symbols[..n]) + Allot(m, r, symbols[n])
  }

  function PlannedTotal(plans: seq<Plan>): real {
    if plans == [] then 0.0
    else
      var n := |plans| - 1;
      PlannedTotal(plans[..n]) + plans[n].notional
  }

  /** An order never costs more than its allotment. */
  lemma {:induction false} OrderWithinAllotment(m: Market, symbol: string, notional: real)
    requires PlanOrder(m, symbol, notional).Ok?
    ensures var plan := PlanOrder(m, symbol, notional).value;
            plan.symbol == symbol && 0.0 < plan.qty && 0.0 < plan.price && plan.notional <= notional
  {
    var rules := m.rules[symbol];
    var price := QuantizePrice(m.marks[symbol], rules).value;
    CostWithin(notional, price, QuantizeQty(notional / price, rules).value);
  }

  lemma {:induction false} CostWithin(notional: real, price: real, qty: real)
    requires price > 0.0 && qty <= notional / price
    ensures qty * price <= notional
  {
    TimesMonotone(qty, notional / price, price);
    assert (notional / price) * price == notional;
  }

  /** The part of a budget that goes with part of a total score. */
  ghost function Part(budget: real, score: real, total: real): real
    requires total > 0.0
  {
    budget * (score / total)
  }

  lemma {:induction false} PartsAdd(budget: real, x: real, y: real, total: real)
    requires total > 0.0
    ensures Part(budget, x + y, total) == Part(budget, x, total) + Part(budget, y, total)
    ensures Part(budget, 0.0, total) == 0.0
  {
    var a, b, c := x / total, y / total, (x + y) / total;
    assert (a + b) * total == x + y;
    assert c * total == x + y;
    assert (c - (a + b)) * total == 0.0;
    assert c == a + b;
  }

  lemma {:induction false} WholePart(budget: real, total: real)
    requires total > 0.0
    ensures Part(budget, total, total) == budget
  {
    assert total / total == 1.0;
  }

  lemma {:induction false} AllotIsPart(m: Market, r: Round, symbol: string)
    requires r.count > 0 && r.totalScore > 0.0
    ensures Allot(m, r, symbol) == Part(r.budget, Score(m, symbol), r.totalScore)
  {
  }

  lemma {:induction false} AllottedByScore(m: Market, r: Round, symbols: seq<string>)
    requires r.count > 0 && r.totalScore > 0.0
    ensures TotalAllotted(m, r, symbols) == Part(r.budget, TotalScore(m, symbols), r.totalScore)
  {
    if symbols == [] {
      PartsAdd(r.budget, 0.0, 0.0, r.totalScore);
    } else {
      var n := |symbols| - 1;
      AllottedByScore(m, r, symbols[..n]);
      AllotIsPart(m, r, symbols[n]);
      PartsAdd(r.budget, TotalScore(m, symbols[..n]), Score(m, symbols[n]), r.totalScore);
    }
  }

  lemma {:induction false} AllottedEqually(m: Market, r: Round, symbols: seq<string>)
    requires r.count > 0 && r.totalScore <= 0.0
    ensures TotalAllotted(m, r, symbols) == |symbols| as real * (r.budget * (1.0 / r.count as real))
  {
    if symbols != [] {
      var n := |symbols| - 1;
      AllottedEqually(m, r, symbols[..n]);
      OneMore(n, r.budget * (1.0 / r.count as real));
    }
  }

  lemma {:induction false} OneMore(n: nat, x: real)
    ensures (n + 1) as real * x == n as real * x + x
  {
  }

  /** The whole budget is allotted, no more. */
  lemma {:induction false} BudgetIsAllotted(m: Market, budget: real, kept: seq<string>)
    requires kept != []
    ensures TotalAllotted(m, RoundOf(m, budget, kept), kept) == budget
  {
    var r := RoundOf(m, budget, kept);
    if r.totalScore > 0.0 {
      AllottedByScore(m, r, kept);
      WholePart(budget, r.totalScore);
    } else {
      AllottedEqually(m, r, kept);
      SplitEvenly(budget, r.count);
    }
  }

  lemma {:induction false} SplitEvenly(budget: real, n: nat)
    requires n > 0
    ensures n as real * (budget * (1.0 / n as real)) == budget
  {
    assert n as real * (1.0 / n as real) == 1.0;
  }

  ghost predicate DistinctPlans(plans: seq<Plan>) {
    forall i, j :: 0 <= i < j < |plans| ==> plans[i].symbol != plans[j].symbol
  }

  /** The plans name exactly the symbols with an order, each once, with the order the planner made. */
  ghost predicate PlansAreOf(plans: seq<Plan>, plan: Planner, symbols: seq<string>) {
    && DistinctPlans(plans)
    && (forall i :: 0 <= i < |plans| ==> plans[i].symbol in symbols && plan(plans[i].symbol) == Ok(plans[i]))
    && (forall s :: s in symbols && plan(s).Ok? ==> exists i :: 0 <= i < |plans| && plans[i].symbol == s)
  }

  ghost predicate NamesItsSymbol(plan: Planner) {
    forall s :: plan(s).Ok? ==> plan(s).value.symbol == s
  }

  lemma {:induction false} PutPlan(plans: seq<Plan>, plan: Planner, symbols: seq<string>, symbol: string)
    requires PlansAreOf(plans, plan, symbols) && NamesItsSymbol(plan) && plan(symbol).Ok?
    ensures PlansAreOf(Put(plans, plan(symbol).value), plan, symbols + [symbol])
    ensures Put(plans, plan(symbol).value) == plans || Put(plans, plan(symbol).value) == plans + [plan(symbol).value]
  {
    var p := plan(symbol).value;
    if i :| 0 <= i < |plans| && plans[i].symbol == p.symbol {
      assert forall j :: 0 <= j < |plans| && plans[j].symbol == p.symbol ==> plans[j] == p;
      assert Put(plans, p) == plans;
    } else {
      var put := plans + [p];
      assert put[|plans|].symbol == symbol;
      forall s | s in symbols + [symbol] && plan(s).Ok? ensures exists i :: 0 <= i < |put| && put[i].symbol == s {
        if s != symbol {
          var i :| 0 <= i < |plans| && plans[i].symbol == s;
          assert put[i].symbol == s;
        }
      }
    }
  }

  lemma {:induction false} PlansOfRound(plan: Planner, symbols: seq<string>)
    requires NamesItsSymbol(plan)
    ensures PlansAreOf(PlansOf(plan, symbols), plan, symbols)
  {
    if symbols != [] {
      var n := |symbols| - 1;
      PlansOfRound(plan, symbols[..n]);
      assert symbols == symbols[..n] + [symbols[n]];
      if plan(symbols[n]).Ok? {
        PutPlan(PlansOf(plan, symbols[..n]), plan, symbols[..n], symbols[n]);
      }
    }
  }

  lemma {:induction false} PlannerNames(m: Market, r: Round)
    ensures NamesItsSymbol(PlannerOf(m, r))
  {
    forall s | PlannerOf(m, r)(s).Ok? ensures PlannerOf(m, r)(s).value.symbol == s {
      OrderWithinAllotment(m, s, Allot(m, r, s));
    }
  }

  lemma {:induction false} AllotmentNonNegative(m: Market, r: Round, symbol: string)
    requires r.count > 0 && r.budget >= 0.0
    ensures Allot(m, r, symbol) >= 0.0
  {
    if r.totalScore > 0.0 {
      DivideMonotone(0.0, Score(m, symbol), r.totalScore);
    } else {
      DivideMonotone(0.0, 1.0, r.count as real);
    }
    TimesMonotone(0.0, Weight(m, r, symbol), r.budget);
  }

  lemma {:induction false} PlansWithinAllotments(m: Market, r: Round, symbols: seq<string>)
    requires r.count > 0 && r.budget >= 0.0
    ensures PlannedTotal(PlansOf(PlannerOf(m, r), symbols)) <= TotalAllotted(m, r, symbols)
  {
    if symbols != [] {
      var n := |symbols| - 1;
      var plan := PlannerOf(m, r);
      PlansWithinAllotments(m, r, symbols[..n]);
      AllotmentNonNegative(m, r, symbols[n]);
      PlannerNames(m, r);
      PlansOfRound(plan, symbols[..n]);
      var before := PlansOf(plan, symbols[..n]);
      if plan(symbols[n]).Ok? {
        PutPlan(before, plan, symbols[..n], symbols[n]);
        OrderWithinAllotment(m, symbols[n], Allot(m, r, symbols[n]));
        assert (before + [plan(symbols[n]).value])[..|before|] == before;
      }
    }
  }

  // --- the whole computation

  datatype Settings = Settings(tryCashTarget: real, feeBufferRatio: real, allocationFeeBufferBps: real)

  /** `_resolve_fee_buffer_ratio`. */
  function FeeBufferRatio(s: Settings): (r: real)
    ensures r >= 0.0 && (s.feeBufferRatio > 0.0 ==> r == s.feeBufferRatio)
    ensures s.feeBufferRatio <= 0.0 ==> r * 10000.0 == Max(s.allocationFeeBufferBps, 0.0)
  {
    if s.feeBufferRatio > 0.0 then s.feeBufferRatio else Max(s.allocationFeeBufferBps, 0.0) / 10000.0
  }

  function DeployBudget(s: Settings, cash: real, multiplier: real): (budget: real)
    ensures budget >= 0.0
    ensures budget * (1.0 + FeeBufferRatio(s)) == Max(0.0, cash - s.tryCashTarget) * Max(0.0, multiplier)
  {
    Scaled(Max(0.0, cash - s.tryCashTarget), Max(0.0, multiplier), FeeBufferRatio(s))
  }

  function Scaled(investable: real, multiplier: real, ratio: real): (budget: real)
    requires investable >= 0.0 && multiplier >= 0.0 && ratio >= 0.0
    ensures budget >= 0.0 && budget * (1.0 + ratio) == investable * multiplier
  {
    var scaled := investable * multiplier;
    assert (scaled / (1.0 + ratio)) * (1.0 + ratio) == scaled;
    scaled / (1.0 + ratio)
  }

  /**
   The cash reserve: unless the multiplier is above one, a plan within the budget, with its fees, leaves
   cash that was at or above its target at or above it.
   */
  lemma {:induction false} PlanKeepsReserve(s: Settings, cash: real, multiplier: real, cost: real)
    requires cash >= s.tryCashTarget && multiplier <= 1.0 && cost <= DeployBudget(s, cash, multiplier)
    ensures cash - cost * (1.0 + FeeBufferRatio(s)) >= s.tryCashTarget
  {
    CostWithinFree(cash - s.tryCashTarget, Max(0.0, multiplier), 1.0 + FeeBufferRatio(s), DeployBudget(s, cash, multiplier), cost);
  }

  lemma {:induction false} CostWithinFree(free: real, part: real, ratio: real, budget: real, cost: real)
    requires free >= 0.0 && part <= 1.0 && ratio > 0.0 && budget * ratio == free * part && cost <= budget
    ensures cost * ratio <= free
  {
    TimesMonotone(cost, budget, ratio);
    TimesMonotone(part, 1.0, free);
    assert free * 1.0 == free;
  }

  /** The final plan: the survivors of round one, with the whole budget shared among them. */
  function FinalPlanner(m: Market, budget: real, universe: seq<string>): Planner {
    PlannerOf(m, RoundOf(m, budget, Survivors(m, budget, universe)))
  }

  /**
   The redistribution loop. It ends after at most two rounds; the plan names exactly the symbols that
   survive round one, each once; every other listing was dropped and counted once; every order fits its
   symbol's share of the budget; and all orders together cost no more than the budget.
   */
  method PlanAggressively(m: Market, settings: Settings, cash: real, multiplier: real, universe: seq<string>)
    returns (plans: seq<Plan>, drops: Drops, rounds: nat)
    ensures var budget := DeployBudget(settings, cash, multiplier);
            var survivors := Survivors(m, budget, universe);
            && rounds <= 2
            && PlansAreOf(plans, FinalPlanner(m, budget, universe), survivors)
            && (forall s :: s in survivors <==> exists i :: 0 <= i < |plans| && plans[i].symbol == s)
            && TotalDrops(drops) == |Eligible(m, universe)| - |survivors|
            && PlansFitShares(m, budget, survivors, plans)
            && CostOfOrders(plans) <= budget
  {
    var budget := DeployBudget(settings, cash, multiplier);
    var eligible := Eligible(m, universe);
    SecondRoundIsStable(m, budget, eligible);
    plans, drops, rounds := RunRounds(Planners(m, budget), eligible);
    FinalPlans(m, budget, universe);
  }

  /** How each round plans, given who is left. */
  function Planners(m: Market, budget: real): seq<string> -> Planner {
    kept => PlannerOf(m, RoundOf(m, budget, kept))
  }

  /** The while loop, for any way of planning whose second round drops nobody. */
  method RunRounds(planner: seq<string> -> Planner, eligible: seq<string>)
    returns (plans: seq<Plan>, drops: Drops, rounds: nat)
    requires var next := Passing(planner(eligible), eligible); Passing(planner(next), next) == next
    ensures var next := Passing(planner(eligible), eligible);
            && plans == PlansOf(planner(next), next) && rounds <= 2
            && TotalDrops(drops) == |eligible| - |next|
  {
    var kept := eligible;
    plans, drops, rounds := [], map[], 0;
    ghost var next := Passing(planner(eligible), eligible);
    while kept != []
      invariant rounds == 0 ==> kept == eligible && plans == []
      invariant rounds > 0 ==> rounds == 1 && kept == next
      invariant kept == [] ==> plans == []
      invariant TotalDrops(drops) == |eligible| - |kept|
      decreases |kept|
    {
      var droppedAny;
      ghost var before := kept;
      kept, plans, drops, droppedAny := RunRound(planner(kept), kept, drops);
      NonePassing(planner(before), before);
      KeptAll(planner(before), before);
      rounds := rounds + 1;
      if !droppedAny {
        break;
      }
    }
  }

  lemma {:induction false} NonePassing(plan: Planner, symbols: seq<string>)
    ensures Passing(plan, symbols) == [] ==> PlansOf(plan, symbols) == []
  {
    if symbols != [] {
      NonePassing(plan, symbols[..|symbols| - 1]);
    }
  }

  lemma {:induction false} KeptAll(plan: Planner, symbols: seq<string>)
    ensures |Passing(plan, symbols)| == |symbols| ==> Passing(plan, symbols) == symbols
  {
    if symbols != [] {
      KeptAll(plan, symbols[..|symbols| - 1]);
    }
  }

  ghost function FinalPlansOf(m: Market, budget: real, universe: seq<string>): seq<Plan> {
    PlansOf(FinalPlanner(m, budget, universe), Survivors(m, budget, universe))
  }

  lemma {:induction false} FinalPlans(m: Market, budget: real, universe: seq<string>)
    requires budget >= 0.0
    ensures var survivors := Survivors(m, budget, universe);
            var plans := FinalPlansOf(m, budget, universe);
            && PlansAreOf(plans, FinalPlanner(m, budget, universe), survivors)
            && (forall s :: s in survivors <==> exists i :: 0 <= i < |plans| && plans[i].symbol == s)
            && PlansFitShares(m, budget, survivors, plans)
            && CostOfOrders(plans) <= budget
  {
    var survivors := Survivors(m, budget, universe);
    var plans := FinalPlansOf(m, budget, universe);
    var r := RoundOf(m, budget, survivors);
    PlannerNames(m, r);
    PlansOfRound(PlannerOf(m, r), survivors);
    SecondRoundIsStable(m, budget, Eligible(m, universe));
    forall s ensures s in survivors ==> PlannerOf(m, r)(s).Ok? {
      PassingMembers(PlannerOf(m, r), survivors, s);
    }
    if survivors != [] {
      PlansWithinAllotments(m, r, survivors);
      BudgetIsAllotted(m, budget, survivors);
      forall i | 0 <= i < |plans| ensures PlanFits(m, Allot(m, r, plans[i].symbol), plans[i]) {
        PlansFit(m, plans[i].symbol, Allot(m, r, plans[i].symbol));
      }
    }
    PlannedIsCost(plans);
  }
}
