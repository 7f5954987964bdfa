/**
 What cash has to do with lots. The laws here never ask how an event is booked: a fill moves money between
 cash and the cost of lots, and whatever is gained on the way is the realized PnL; every other event moves
 its own amount.
 */
module CashLaws {
  import opened Money
  import opened Results
  import opened Ordering
  import opened Fifo
  import opened PnlAgreement
  import opened PortfolioPnl
  import A = AccountingLedger
  import D = DomainLedger

  // --- one trade

  /** What a trade pays for lots; a sell is paid. */
  ghost function Spent(t: Trade): real {
    match t
    case Buy(lot) => Value(lot.qty, lot.unitCost)
    case Sell(qty, price) => -Value(qty, price)
  }

  /** The cost of what is held, less what was gained so far. */
  ghost function BookValue(lots: seq<Lot>, realized: real): real {
    Cost(lots) - realized
  }

  lemma {:induction false} AddRounded(total: real, x: real, money: real -> real, q: real)
    requires MoneyRounding(money, q) && money(total) == total
    ensures var r := total + money(x); money(r) == r && money(total - money(x)) == total - money(x)
    ensures Abs(money(x) - x) <= q
  {
    assert Unsettled(money, x) == 0.0 && RoundError(money, x) <= q;
    assert Residue(money, 0.0, money(x)) == 0.0;
    assert Residue(money, total, money(x)) == 0.0;
    assert Residue(money, total, 0.0 - money(x)) == 0.0;
  }

  /** Rounding each gain is off by at most one quantum per gain. */
  lemma {:induction false} RoundedGainsError(total: real, gains: seq<real>, money: real -> real, q: real)
    requires MoneyRounding(money, q) && money(total) == total
    ensures var r := BookAll(total, gains, A.RoundedGains(money));
            money(r) == r && Abs(r - (total + Sum(gains))) <= Quanta(|gains|, q)
    decreases |gains|
  {
    if gains != [] {
      AddRounded(total, gains[0], money, q);
      RoundedGainsError(total + money(gains[0]), gains[1..], money, q);
    }
  }

  /** Selling turns cost into proceeds and gains, to the last unit. */
  lemma {:induction false} SoldAtCost(lots: seq<Lot>, qty: real, price: real, round: real -> real)
    requires Grid(round) && WellFormed(lots, round) && Quantity(qty, round) && SellLots(lots, qty, round).unfilled <= 0.0
    ensures var sale := SellLots(lots, qty, round);
            WellFormed(sale.rest, round) && Sum(Gains(price, sale.matches)) == Value(qty, price) + Cost(sale.rest) - Cost(lots)
  {
    SellIsExact(lots, qty, round);
    SellDrops(lots, qty);
    SellConserves(lots, qty);
    GainsOfMatches(price, SellLots(lots, qty, Exact).matches);
  }

  /** A trade leaves the lots well-formed, and its gains are its proceeds and the change of cost. */
  lemma {:induction false} TradedAtCost(lots: seq<Lot>, t: Trade, round: real -> real)
    requires Grid(round) && WellFormed(lots, round) && TradeOnce(lots, t, round).Some?
    requires Quantity(if t.Buy? then t.lot.qty else t.qty, round)
    ensures var b := TradeOnce(lots, t, round).value;
            && WellFormed(b.lots, round) && |b.gains| + |b.lots| <= |lots| + 1
            && Sum(b.gains) == Cost(b.lots) - Cost(lots) - Spent(t)
  {
    match t {
      case Buy(lot) =>
        UnitsConcat(lots, [lot]);
        assert Cost([lot]) == lot.qty * lot.unitCost;
      case Sell(qty, price) =>
        SoldAtCost(lots, qty, price, round);
    }
  }

  /** How far a trade is from moving exactly what it pays into the book value. */
  ghost function TradeGap(value: real, value': real, t: Trade): real {
    Abs(value' - value - Spent(t))
  }

  lemma {:induction false} GapsCounted(gap: real, gains: nat, lots: nat, lots': nat, q: real)
    requires q > 0.0 && gap <= Quanta(gains, q) && gains + lots' <= lots + 1
    ensures gap + Quanta(lots', q) <= Quanta(lots, q) + q
  {
    QuantaCombine(gains, lots', lots + 1, q);
  }

  // --- the accounting ledger

  /** A rounding of quantities: to a grid, never below zero from above. */
  ghost predicate QuantityRounding(round: real -> real) {
    && Grid(round)
    && (forall x :: Unsettled(round, x) == 0.0)
    && (forall x :: x >= 0.0 ==> round(x) >= 0.0)
  }

  function TradedQty(e: A.Event, rnd: A.Rounding): real {
    rnd.qty(Abs(e.qty))
  }

  /** Lots are kept at the rounded price, and bought at the price itself. */
  ghost function PriceSlack(e: A.Event, rnd: A.Rounding): real {
    if e.side == "BUY" then Value(TradedQty(e, rnd), Abs(rnd.money(e.price) - e.price)) else 0.0
  }

  /** What the roundings of one event may hide: a quantum of cash, one of gains, and the rounding of a lot's price. */
  ghost function EventSlack(e: A.Event, rnd: A.Rounding, q: real): real {
    if A.IsTrade(e) then Quanta(2, q) + PriceSlack(e, rnd) else 0.0
  }

  ghost function Slack(events: seq<A.Event>, rnd: A.Rounding, q: real): real {
    if events == [] then 0.0
    else
      var n := |events| - 1;
      Slack(events[..n], rnd, q) + EventSlack(events[n], rnd, q)
  }

  ghost function OwnAmounts(events: seq<A.Event>, money: real -> real): real {
    if events == [] then 0.0
    else
      var n := |events| - 1;
      OwnAmounts(events[..n], money) + A.OwnAmount(events[n], money)
  }

  /** What a run keeps: every amount is on the money grid and every lot on the quantity grid. */
  ghost predicate Tidy(state: A.State, rnd: A.Rounding) {
    && rnd.money(state.balance) == state.balance && rnd.money(state.treasury) == state.treasury
    && forall s :: TidySymbol(A.SymbolOf(state, s), rnd)
  }

  ghost predicate TidySymbol(s: A.SymbolState, rnd: A.Rounding) {
    WellFormed(s.lots, rnd.qty) && rnd.money(s.realizedPnl) == s.realizedPnl
  }

  ghost function ValueOf(s: A.SymbolState): real {
    BookValue(s.lots, s.realizedPnl)
  }

  /** What one fill does to its symbol. */
  lemma {:induction false} TradeLaw(s: A.SymbolState, e: A.Event, rnd: A.Rounding, q: real)
    requires MoneyRounding(rnd.money, q) && QuantityRounding(rnd.qty) && TidySymbol(s, rnd)
    requires A.TradeOf(e, rnd).Some? && A.SymbolEffect(s, e, rnd).Ok?
    ensures var s' := A.Settle(A.SymbolEffect(s, e, rnd).value, rnd);
            && TidySymbol(s', rnd)
            && TradeGap(ValueOf(s), ValueOf(s'), A.TradeOf(e, rnd).value) + Quanta(|s'.lots|, q) <= Quanta(|s.lots|, q) + q
  {
    var t := A.TradeOf(e, rnd).value;
    assert Unsettled(rnd.qty, Abs(e.qty)) == 0.0;
    TradedAtCost(s.lots, t, rnd.qty);
    var b := TradeOnce(s.lots, t, rnd.qty).value;
    RoundedGainsError(s.realizedPnl, b.gains, rnd.money, q);
    var realized := BookAll(s.realizedPnl, b.gains, A.RoundedGains(rnd.money));
    GapsCounted(TradeGap(ValueOf(s), BookValue(b.lots, realized), t), |b.gains|, |s.lots|, |b.lots|, q);
  }

  lemma {:induction false} PriceRounded(qty: real, price: real, rounded: real, paid: real, q: real)
    requires qty >= 0.0 && Abs(paid - qty * price) <= q
    ensures Abs(Value(qty, rounded) - paid) <= q + Value(qty, Abs(rounded - price))
    ensures Abs(Value(qty, price) - paid) <= q
  {
    var d := rounded - price;
    assert Value(qty, rounded) - qty * price == d * qty;
    assert Value(qty, Abs(d)) == Abs(d) * qty;
    TimesMonotone(0.0, Abs(d), qty);
    assert (-d) * qty == -(d * qty);
  }

  /** What a fill asks of the cash is what its trade pays, up to a quantum and the rounding of the lot's price. */
  lemma {:induction false} FlowPays(e: A.Event, rnd: A.Rounding, q: real)
    requires MoneyRounding(rnd.money, q) && QuantityRounding(rnd.qty) && A.TradeOf(e, rnd).Some?
    ensures Abs(A.CashFlow(e, rnd) + Spent(A.TradeOf(e, rnd).value)) <= q + PriceSlack(e, rnd)
  {
    assert RoundError(rnd.money, A.GrossValue(e, rnd)) <= q;
    PriceRounded(TradedQty(e, rnd), e.price, rnd.money(e.price), A.Notional(e, rnd), q);
  }

  /** A fill moves the balance by what its trade pays, up to as much. */
  lemma {:induction false} BalanceMoves(state: A.State, e: A.Event, rnd: A.Rounding, q: real)
    requires MoneyRounding(rnd.money, q) && QuantityRounding(rnd.qty)
    requires rnd.money(state.balance) == state.balance && rnd.money(state.treasury) == state.treasury
    requires A.TradeOf(e, rnd).Some? && A.ApplyOne(state, e, rnd).Ok?
    ensures var state' := A.ApplyOne(state, e, rnd).value;
            && rnd.money(state'.balance) == state'.balance && state'.treasury == state.treasury
            && Abs(state'.balance - state.balance + Spent(A.TradeOf(e, rnd).value)) <= q + PriceSlack(e, rnd)
  {
    A.CashStep(state, e, rnd, q);
    A.FlowIsExternal(e, rnd);
    FlowPays(e, rnd, q);
    var state' := A.ApplyOne(state, e, rnd).value;
    assert state'.treasury == state.treasury;
    Moved(state.balance, state'.balance, A.CashFlow(e, rnd), Spent(A.TradeOf(e, rnd).value), q + PriceSlack(e, rnd));
  }

  lemma {:induction false} Moved(before: real, after: real, flow: real, spent: real, slack: real)
    requires after == before + flow && Abs(flow + spent) <= slack
    ensures Abs(after - before + spent) <= slack
  {
  }

  // --- all symbols together

  ghost function ValueSum(state: A.State, order: seq<string>): real {
    if order == [] then 0.0
    else
      var n := |order| - 1;
      ValueSum(state, order[..n]) + ValueOf(A.SymbolOf(state, order[n]))
  }

  ghost function LotCount(state: A.State, order: seq<string>): nat {
    if order == [] then 0
    else
      var n := |order| - 1;
      LotCount(state, order[..n]) + |A.SymbolOf(state, order[n]).lots|
  }

  /** Nothing but this symbol changes. */
  ghost predicate OnlyChanges(state: A.State, state': A.State, symbol: string) {
    forall s :: s != symbol ==> A.SymbolOf(state', s) == A.SymbolOf(state, s)
  }

  lemma {:induction false} SumsChange(state: A.State, state': A.State, symbol: string, order: seq<string>)
    requires OnlyChanges(state, state', symbol) && Distinct(order)
    ensures var old_, new_ := A.SymbolOf(state, symbol), A.SymbolOf(state', symbol);
            && ValueSum(state', order) - ValueSum(state, order) == (if symbol in order then ValueOf(new_) - ValueOf(old_) else 0.0)
            && LotCount(state', order) - LotCount(state, order) == (if symbol in order then |new_.lots| - |old_.lots| else 0)
  {
    if order != [] {
      var n := |order| - 1;
      SumsChange(state, state', symbol, order[..n]);
      assert order == order[..n] + [order[n]] && order[n] !in order[..n];
    }
  }

  /** Cash, treasury, and what the lots cost less what was gained. */
  ghost function Account(state: A.State, order: seq<string>): real {
    state.balance + state.treasury + ValueSum(state, order)
  }

  /** One event changes the account by its own amount, up to its slack. */
  ghost predicate MovesOwnAmount(state: A.State, state': A.State, e: A.Event, order: seq<string>, rnd: A.Rounding, q: real) {
    Abs(Account(state', order) - Account(state, order) - A.OwnAmount(e, rnd.money)) + Quanta(LotCount(state', order), q)
    <= Quanta(LotCount(state, order), q) + EventSlack(e, rnd, q)
  }

  lemma {:induction false} QuantaDifference(m: nat, n: nat, m': nat, n': nat, q: real)
    requires q > 0.0 && m' - m == n' - n
    ensures Quanta(m', q) - Quanta(m, q) == Quanta(n', q) - Quanta(n, q)
  {
    QuantaAdd(0, m, q);
    QuantaAdd(0, m', q);
    QuantaAdd(0, n, q);
    QuantaAdd(0, n', q);
    MultipleOrder(m', m, q);
    MultipleOrder(n', n, q);
  }

  lemma {:induction false} FillLaw(state: A.State, e: A.Event, order: seq<string>, rnd: A.Rounding, q: real)
    requires MoneyRounding(rnd.money, q) && QuantityRounding(rnd.qty) && Tidy(state, rnd)
    requires Distinct(order) && e.symbol in order && A.IsTrade(e) && A.ApplyOne(state, e, rnd).Ok?
    ensures MovesOwnAmount(state, A.ApplyOne(state, e, rnd).value, e, order, rnd, q)
  {
    var state', t := A.ApplyOne(state, e, rnd).value, A.TradeOf(e, rnd).value;
    var s, s' := A.SymbolOf(state, e.symbol), A.SymbolOf(state', e.symbol);
    assert TidySymbol(s, rnd);
    TradeLaw(s, e, rnd, q);
    BalanceMoves(state, e, rnd, q);
    SumsChange(state, state', e.symbol, order);
    QuantaDifference(|s.lots|, LotCount(state, order), |s'.lots|, LotCount(state', order), q);
    TwoQuanta(q);
  }

  /** An event that is no fill of a known side leaves every lot and every realized PnL alone. */
  lemma {:induction false} OthersKeepLots(state: A.State, e: A.Event, s: string, rnd: A.Rounding)
    requires Tidy(state, rnd) && !A.IsTrade(e) && A.ApplyOne(state, e, rnd).Ok?
    ensures var old_, new_ := A.SymbolOf(state, s), A.SymbolOf(A.ApplyOne(state, e, rnd).value, s);
            new_.lots == old_.lots && new_.realizedPnl == old_.realizedPnl && TidySymbol(new_, rnd)
  {
    assert TidySymbol(A.SymbolOf(state, s), rnd);
  }

  lemma {:induction false} OtherAmounts(state: A.State, e: A.Event, rnd: A.Rounding, q: real)
    requires MoneyRounding(rnd.money, q) && !A.IsTrade(e) && A.ApplyOne(state, e, rnd).Ok?
    requires rnd.money(state.balance) == state.balance && rnd.money(state.treasury) == state.treasury
    ensures var state' := A.ApplyOne(state, e, rnd).value;
            && rnd.money(state'.balance) == state'.balance && rnd.money(state'.treasury) == state'.treasury
            && state'.balance + state'.treasury == state.balance + state.treasury + A.OwnAmount(e, rnd.money)
  {
    A.CashStep(state, e, rnd, q);
  }

  lemma {:induction false} OtherLaw(state: A.State, e: A.Event, order: seq<string>, rnd: A.Rounding, q: real)
    requires MoneyRounding(rnd.money, q) && Tidy(state, rnd) && !A.IsTrade(e) && A.ApplyOne(state, e, rnd).Ok? && Distinct(order)
    ensures var state' := A.ApplyOne(state, e, rnd).value;
            MovesOwnAmount(state, state', e, order, rnd, q) && Tidy(state', rnd)
  {
    var state' := A.ApplyOne(state, e, rnd).value;
    OtherAmounts(state, e, rnd, q);
    forall s ensures TidySymbol(A.SymbolOf(state', s), rnd) {
      OthersKeepLots(state, e, s, rnd);
    }
    OthersKeepLots(state, e, e.symbol, rnd);
    SumsChange(state, state', e.symbol, order);
  }

  lemma {:induction false} StaysTidy(state: A.State, e: A.Event, rnd: A.Rounding, q: real)
    requires MoneyRounding(rnd.money, q) && QuantityRounding(rnd.qty) && Tidy(state, rnd)
    requires A.IsTrade(e) && A.ApplyOne(state, e, rnd).Ok?
    ensures Tidy(A.ApplyOne(state, e, rnd).value, rnd)
  {
    var state' := A.ApplyOne(state, e, rnd).value;
    A.CashStep(state, e, rnd, q);
    forall s ensures TidySymbol(A.SymbolOf(state', s), rnd) {
      assert TidySymbol(A.SymbolOf(state, s), rnd);
      if s == e.symbol {
        TradeLaw(A.SymbolOf(state, s), e, rnd, q);
      }
    }
  }

  lemma {:induction false} EventLaw(state: A.State, e: A.Event, order: seq<string>, rnd: A.Rounding, q: real)
    requires MoneyRounding(rnd.money, q) && QuantityRounding(rnd.qty) && Tidy(state, rnd) && A.ApplyOne(state, e, rnd).Ok?
    requires Distinct(order) && (A.IsTrade(e) ==> e.symbol in order)
    ensures var state' := A.ApplyOne(state, e, rnd).value;
            MovesOwnAmount(state, state', e, order, rnd, q) && Tidy(state', rnd)
  {
    if A.IsTrade(e) {
      FillLaw(state, e, order, rnd, q);
      StaysTidy(state, e, rnd, q);
    } else {
      OtherLaw(state, e, order, rnd, q);
    }
  }

  /** Every traded symbol is among these. */
  ghost predicate Covers(order: seq<string>, events: seq<A.Event>) {
    forall i :: 0 <= i < |events| && A.IsTrade(events[i]) ==> events[i].symbol in order
  }

  /** The account is what it should be, up to the slack, of which the open lots leave some unused. */
  ghost predicate Follows(state: A.State, order: seq<string>, expected: real, slack: real, q: real) {
    Abs(Account(state, order) - expected) + Quanta(LotCount(state, order), q) <= slack
  }

  lemma {:induction false} FollowsNext(state: A.State, state': A.State, e: A.Event, order: seq<string>, expected: real, slack: real,
                                       rnd: A.Rounding, q: real)
    requires Follows(state, order, expected, slack, q) && MovesOwnAmount(state, state', e, order, rnd, q)
    ensures Follows(state', order, expected + A.OwnAmount(e, rnd.money), slack + EventSlack(e, rnd, q), q)
  {
  }

  lemma {:induction false} FollowsAtStart(tradingCapital: real, treasury: real, order: seq<string>, rnd: A.Rounding, q: real)
    requires MoneyRounding(rnd.money, q)
    ensures var state := A.Start(tradingCapital, treasury, rnd);
            Tidy(state, rnd) && Follows(state, order, rnd.money(tradingCapital) + rnd.money(treasury), 0.0, q)
  {
    assert Unsettled(rnd.money, tradingCapital) == 0.0 && Unsettled(rnd.money, treasury) == 0.0;
    NothingHeld(A.Start(tradingCapital, treasury, rnd), order);
  }

  /**
   Cash follows lots. After any run, cash and treasury together with the cost of all open lots, less all
   realized PnL, are what the account started with plus the events' own amounts: minus the amount of every
   fee, funding cost and withdrawal, plus that of every transfer, and nothing for fills, slippage and
   rebalances. Roundings hide at most two quanta per fill, less one per lot still open, and what rounding
   a lot's price does to its cost.
   */
  lemma {:induction false} CashFollowsLots(tradingCapital: real, treasury: real, events: seq<A.Event>, order: seq<string>,
                                           rnd: A.Rounding, q: real)
    requires MoneyRounding(rnd.money, q) && QuantityRounding(rnd.qty) && Distinct(order) && Covers(order, events)
    requires Replay(A.Start(tradingCapital, treasury, rnd), events, A.EventStep(rnd)).Ok?
    ensures var state := Replay(A.Start(tradingCapital, treasury, rnd), events, A.EventStep(rnd)).value;
            && Tidy(state, rnd)
            && Follows(state, order, rnd.money(tradingCapital) + rnd.money(treasury) + OwnAmounts(events, rnd.money),
                       Slack(events, rnd, q), q)
  {
    if events == [] {
      FollowsAtStart(tradingCapital, treasury, order, rnd, q);
    } else {
      var n := |events| - 1;
      CashFollowsLots(tradingCapital, treasury, events[..n], order, rnd, q);
      var state := Replay(A.Start(tradingCapital, treasury, rnd), events[..n], A.EventStep(rnd)).value;
      EventLaw(state, events[n], order, rnd, q);
      FollowsNext(state, A.ApplyOne(state, events[n], rnd).value, events[n], order,
                  rnd.money(tradingCapital) + rnd.money(treasury) + OwnAmounts(events[..n], rnd.money),
                  Slack(events[..n], rnd, q), rnd, q);
    }
  }

  lemma {:induction false} NothingHeld(state: A.State, order: seq<string>)
    requires state.symbols == map[]
    ensures ValueSum(state, order) == 0.0 && LotCount(state, order) == 0
  {
    if order != [] {
      NothingHeld(state, order[..|order| - 1]);
    }
  }

  /** The treasury is what it started with plus the rebalances into it. */
  ghost function Rebalanced(events: seq<A.Event>, money: real -> real): real {
    if events == [] then 0.0
    else
      var n := |events| - 1;
      Rebalanced(events[..n], money) + if events[n].kind.Rebalance? then money(events[n].amount) else 0.0
  }

  lemma {:induction false} TreasuryStep(state: A.State, e: A.Event, rnd: A.Rounding, q: real)
    requires MoneyRounding(rnd.money, q) && rnd.money(state.treasury) == state.treasury && A.ApplyOne(state, e, rnd).Ok?
    ensures var treasury := A.ApplyOne(state, e, rnd).value.treasury;
            && rnd.money(treasury) == treasury
            && treasury == state.treasury + if e.kind.Rebalance? then rnd.money(e.amount) else 0.0
  {
    AddRounded(state.treasury, e.amount, rnd.money, q);
  }

  lemma {:induction false} TreasuryIsRebalances(tradingCapital: real, treasury: real, events: seq<A.Event>, rnd: A.Rounding, q: real)
    requires MoneyRounding(rnd.money, q)
    requires Replay(A.Start(tradingCapital, treasury, rnd), events, A.EventStep(rnd)).Ok?
    ensures var state := Replay(A.Start(tradingCapital, treasury, rnd), events, A.EventStep(rnd)).value;
            rnd.money(state.treasury) == state.treasury && state.treasury == rnd.money(treasury) + Rebalanced(events, rnd.money)
  {
    if events == [] {
      assert Unsettled(rnd.money, treasury) == 0.0;
    } else {
      var n := |events| - 1;
      TreasuryIsRebalances(tradingCapital, treasury, events[..n], rnd, q);
      var state := Replay(A.Start(tradingCapital, treasury, rnd), events[..n], A.EventStep(rnd)).value;
      TreasuryStep(state, events[n], rnd, q);
    }
  }

  /** The costs of one kind recorded for a symbol. */
  ghost function Costs(events: seq<A.Event>, kind: A.EventKind, symbol: string, money: real -> real): real {
    if events == [] then 0.0
    else
      var n := |events| - 1;
      Costs(events[..n], kind, symbol, money)
      + if events[n].kind == kind && events[n].symbol == symbol then money(Abs(events[n].amount)) else 0.0
  }

  /** The three cost totals of a symbol. */
  ghost predicate CostTotals(s: A.SymbolState, fees: real, funding: real, slippage: real) {
    s.fees == fees && s.fundingCost == funding && s.slippage == slippage
  }

  ghost predicate CostsSettled(s: A.SymbolState, money: real -> real) {
    money(s.fees) == s.fees && money(s.fundingCost) == s.fundingCost && money(s.slippage) == s.slippage
  }

  lemma {:induction false} CostsNext(s: A.SymbolState, e: A.Event, rnd: A.Rounding, q: real)
    requires MoneyRounding(rnd.money, q) && CostsSettled(s, rnd.money) && A.SymbolEffect(s, e, rnd).Ok?
    ensures var s', cost := A.Settle(A.SymbolEffect(s, e, rnd).value, rnd), rnd.money(Abs(e.amount));
            && CostsSettled(s', rnd.money)
            && CostTotals(s', s.fees + (if e.kind.FeeRecorded? then cost else 0.0),
                          s.fundingCost + (if e.kind.FundingCostRecorded? then cost else 0.0),
                          s.slippage + (if e.kind.SlippageRecorded? then cost else 0.0))
  {
    AddRounded(s.fees, Abs(e.amount), rnd.money, q);
    AddRounded(s.fundingCost, Abs(e.amount), rnd.money, q);
    AddRounded(s.slippage, Abs(e.amount), rnd.money, q);
  }

  /** Fees, funding costs and slippage of a symbol are the sums of its recorded amounts, whatever their signs. */
  lemma {:induction false} CostsAreSums(tradingCapital: real, treasury: real, events: seq<A.Event>, symbol: string,
                                        rnd: A.Rounding, q: real)
    requires MoneyRounding(rnd.money, q) && symbol != ""
    requires Replay(A.Start(tradingCapital, treasury, rnd), events, A.EventStep(rnd)).Ok?
    ensures var s := A.SymbolOf(Replay(A.Start(tradingCapital, treasury, rnd), events, A.EventStep(rnd)).value, symbol);
            && CostsSettled(s, rnd.money)
            && CostTotals(s, Costs(events, A.FeeRecorded, symbol, rnd.money),
                          Costs(events, A.FundingCostRecorded, symbol, rnd.money),
                          Costs(events, A.SlippageRecorded, symbol, rnd.money))
  {
    if events != [] {
      var n := |events| - 1;
      CostsAreSums(tradingCapital, treasury, events[..n], symbol, rnd, q);
      var state := Replay(A.Start(tradingCapital, treasury, rnd), events[..n], A.EventStep(rnd)).value;
      if events[n].symbol == symbol {
        CostsNext(A.SymbolOf(state, symbol), events[n], rnd, q);
      }
    }
  }

  // --- under a policy, and without rounding

  lemma {:induction false} PolicyRounds(p: Policy)
    ensures MoneyRounding(A.RoundingOf(p).money, QuoteQuantum(p)) && QuantityRounding(A.RoundingOf(p).qty)
  {
    RoundQuoteIsMoney(p);
    RoundQtyGrid(p);
    forall x ensures Unsettled(QtyRounding(p), x) == 0.0 {
      ToStepIdempotent(x, p.qtyStep);
    }
  }

  ghost function TradeCount(events: seq<A.Event>): nat {
    if events == [] then 0
    else
      var n := |events| - 1;
      TradeCount(events[..n]) + if A.IsTrade(events[n]) then 1 else 0
  }

  /** With prices on the quote quantum the slack is two quanta per fill. */
  lemma {:induction false} SlackIsCount(events: seq<A.Event>, rnd: A.Rounding, q: real)
    requires q > 0.0
    requires forall i :: 0 <= i < |events| ==> rnd.money(events[i].price) == events[i].price
    ensures Slack(events, rnd, q) == Quanta(2 * TradeCount(events), q)
  {
    if events != [] {
      var n := |events| - 1;
      SlackIsCount(events[..n], rnd, q);
      QuantaAdd(2 * TradeCount(events[..n]), 2, q);
      assert rnd.money(events[n].price) == events[n].price;
      assert Value(TradedQty(events[n], rnd), 0.0) == 0.0;
    }
  }

  lemma {:induction false} WithoutQuantum(gap: real, n: nat)
    requires forall q :: q > 0.0 ==> gap <= Quanta(n, q)
    ensures gap <= 0.0
  {
    if gap > 0.0 {
      var q := gap / (n + 1) as real;
      assert q * (n + 1) as real == gap;
      DivideMonotone(0.0, gap, (n + 1) as real);
      QuantaAdd(0, n, q);
      MultipleOrder(n, 0, q);
      assert false;
    }
  }

  /** Without any rounding of money the account is exactly what the events bring into it. */
  lemma {:induction false} CashFollowsLotsExactly(tradingCapital: real, treasury: real, events: seq<A.Event>, order: seq<string>,
                                                  round: real -> real)
    requires QuantityRounding(round) && Distinct(order) && Covers(order, events)
    requires var rnd := A.Rounding(Exact, round);
             Replay(A.Start(tradingCapital, treasury, rnd), events, A.EventStep(rnd)).Ok?
    ensures var rnd := A.Rounding(Exact, round);
            Account(Replay(A.Start(tradingCapital, treasury, rnd), events, A.EventStep(rnd)).value, order)
            == tradingCapital + treasury + OwnAmounts(events, Exact)
  {
    var rnd := A.Rounding(Exact, round);
    var state := Replay(A.Start(tradingCapital, treasury, rnd), events, A.EventStep(rnd)).value;
    var gap := Abs(Account(state, order) - (tradingCapital + treasury + OwnAmounts(events, Exact)));
    forall q | q > 0.0 ensures gap <= Quanta(2 * TradeCount(events), q) {
      CashFollowsLots(tradingCapital, treasury, events, order, rnd, q);
      SlackIsCount(events, rnd, q);
      QuantaAdd(0, LotCount(state, order), q);
      MultipleOrder(0, LotCount(state, order), q);
    }
    WithoutQuantum(gap, 2 * TradeCount(events));
  }

  // --- the event-sourced ledger

  /** What an event adds to a symbol's realized PnL less the cost of its lots. */
  function Proceeds(e: D.LedgerEvent, p: Policy): real {
    if e.kind.FillEvent? && e.price.Some? && e.side.Some? then
      var gross := Value(RoundQty(e.qty, p), RoundPrice(e.price.value, p));
      if Upper(e.side.value) == "BUY" then -gross else if Upper(e.side.value) == "SELL" then gross else 0.0
    else if e.kind.Adjustment? && e.fee.Some? then e.fee.value
    else 0.0
  }

  ghost function ProceedsOf(events: seq<D.LedgerEvent>, symbol: string, p: Policy): real {
    if events == [] then 0.0
    else
      var n := |events| - 1;
      ProceedsOf(events[..n], symbol, p) + if events[n].symbol == symbol then Proceeds(events[n], p) else 0.0
  }

  ghost function FillsOf(events: seq<D.LedgerEvent>, symbol: string): nat {
    if events == [] then 0
    else
      var n := |events| - 1;
      FillsOf(events[..n], symbol) + if events[n].symbol == symbol && events[n].kind.FillEvent? then 1 else 0
  }

  /** The book value has fallen by the proceeds, up to a quantum per match. */
  ghost predicate Earned(s: D.SymbolLedger, s': D.SymbolLedger, proceeds: real, fills: nat, q: real) {
    Abs(BookValue(s'.lots, s'.realizedPnl) - BookValue(s.lots, s.realizedPnl) + proceeds) + Quanta(|s'.lots|, q)
    <= Quanta(|s.lots| + fills, q)
  }

  lemma {:induction false} EarnedByTrade(lots: seq<Lot>, realized: real, t: Trade, round: real -> real, money: real -> real, q: real)
    requires MoneyRounding(money, q) && Grid(round) && WellFormed(lots, round) && TradeOnce(lots, t, round).Some?
    requires Quantity(if t.Buy? then t.lot.qty else t.qty, round)
    ensures var b := TradeOnce(lots, t, round).value;
            var gap := TradeGap(BookValue(lots, realized), BookValue(b.lots, BookAll(realized, b.gains, D.RunningTotal(money))), t);
            gap + Quanta(|b.lots|, q) <= Quanta(|lots| + 1, q)
  {
    TradedAtCost(lots, t, round);
    var b := TradeOnce(lots, t, round).value;
    RunningTotalError(realized, b.gains, money, q);
    QuantaCombine(|b.gains|, |b.lots|, |lots| + 1, q);
  }

  lemma {:induction false} ProceedsOfTrade(e: D.LedgerEvent, p: Policy)
    requires D.TradeOf(e, p).Some? && e.qty >= 0.0
    ensures var t := D.TradeOf(e, p).value;
            Proceeds(e, p) == -Spent(t) && Quantity(if t.Buy? then t.lot.qty else t.qty, QtyRounding(p))
  {
    ToStepIdempotent(e.qty, p.qtyStep);
  }

  lemma {:induction false} EarnedOnce(s: D.SymbolLedger, e: D.LedgerEvent, p: Policy)
    requires WellFormed(s.lots, QtyRounding(p)) && (e.kind.FillEvent? ==> e.qty >= 0.0) && D.ApplyToSymbol(s, e, p).Ok?
    ensures Earned(s, D.ApplyToSymbol(s, e, p).value, Proceeds(e, p), if e.kind.FillEvent? then 1 else 0, QuoteQuantum(p))
  {
    var t := D.TradeOf(e, p);
    if t.Some? {
      RoundQuoteIsMoney(p);
      RoundQtyGrid(p);
      ProceedsOfTrade(e, p);
      EarnedByTrade(s.lots, s.realizedPnl, t.value, QtyRounding(p), QuoteRounding(p), QuoteQuantum(p));
    } else {
      NothingTraded(s, e, p);
    }
  }

  lemma {:induction false} NothingTraded(s: D.SymbolLedger, e: D.LedgerEvent, p: Policy)
    requires D.TradeOf(e, p).None?
    ensures Earned(s, D.ApplyToSymbol(s, e, p).value, Proceeds(e, p), if e.kind.FillEvent? then 1 else 0, QuoteQuantum(p))
  {
    QuantaCombine(0, |s.lots|, |s.lots| + 1, QuoteQuantum(p));
  }

  lemma {:induction false} EarnedTwice(s: D.SymbolLedger, s': D.SymbolLedger, s'': D.SymbolLedger, x: real, y: real, m: nat, n: nat, q: real)
    requires q > 0.0 && Earned(s, s', x, m, q) && Earned(s', s'', y, n, q)
    ensures Earned(s, s'', x + y, m + n, q)
  {
    QuantaAdd(|s.lots|, m, q);
    QuantaAdd(|s'.lots|, n, q);
    QuantaAdd(|s.lots| + m, n, q);
  }

  /** The last event of a run, as one symbol sees it. */
  lemma {:induction false} LastEvent(state: D.LedgerState, events: seq<D.LedgerEvent>, symbol: string, policies: D.Policies)
    returns (before: D.SymbolLedger)
    requires events != [] && D.OnGrid(state, policies) && D.NonNegativeFills(events)
    requires Replay(state, events, D.EventStep(policies)).Ok?
    ensures var n, p := |events| - 1, policies(symbol);
            && Replay(state, events[..n], D.EventStep(policies)).Ok?
            && before == D.SymbolOf(Replay(state, events[..n], D.EventStep(policies)).value, symbol)
            && WellFormed(before.lots, QtyRounding(p))
            && var after := D.SymbolOf(Replay(state, events, D.EventStep(policies)).value, symbol);
               if events[n].symbol == symbol then D.ApplyToSymbol(before, events[n], p) == Ok(after) else after == before
  {
    var n := |events| - 1;
    before := D.SymbolOf(Replay(state, events[..n], D.EventStep(policies)).value, symbol);
    D.SymbolIsQueue(state, events[..n], symbol, policies);
  }

  /** What the last event of a run earned. */
  lemma {:induction false} EarnedLast(state: D.LedgerState, events: seq<D.LedgerEvent>, symbol: string, policies: D.Policies)
    returns (before: D.SymbolLedger, proceeds: real, fills: nat)
    requires events != [] && D.OnGrid(state, policies) && D.NonNegativeFills(events)
    requires Replay(state, events, D.EventStep(policies)).Ok?
    ensures var n, p := |events| - 1, policies(symbol);
            && Replay(state, events[..n], D.EventStep(policies)).Ok?
            && before == D.SymbolOf(Replay(state, events[..n], D.EventStep(policies)).value, symbol)
            && Earned(before, D.SymbolOf(Replay(state, events, D.EventStep(policies)).value, symbol), proceeds, fills, QuoteQuantum(p))
            && ProceedsOf(events, symbol, p) == ProceedsOf(events[..n], symbol, p) + proceeds
            && FillsOf(events, symbol) == FillsOf(events[..n], symbol) + fills
  {
    var e, p := events[|events| - 1], policies(symbol);
    before := LastEvent(state, events, symbol, policies);
    proceeds, fills := 0.0, 0;
    if e.symbol == symbol {
      proceeds, fills := Proceeds(e, p), if e.kind.FillEvent? then 1 else 0;
      EarnedOnce(before, e, p);
    }
  }

  /** What a symbol's ledger has earned over a run. */
  ghost predicate EarnedOver(state: D.LedgerState, events: seq<D.LedgerEvent>, after: D.SymbolLedger, symbol: string, policies: D.Policies) {
    Earned(D.SymbolOf(state, symbol), after, ProceedsOf(events, symbol, policies(symbol)), FillsOf(events, symbol),
           QuoteQuantum(policies(symbol)))
  }

  lemma {:induction false} EarnedMore(state: D.LedgerState, events: seq<D.LedgerEvent>, before: D.SymbolLedger, after: D.SymbolLedger,
                                      proceeds: real, fills: nat, symbol: string, policies: D.Policies)
    requires events != [] && EarnedOver(state, events[..|events| - 1], before, symbol, policies)
    requires Earned(before, after, proceeds, fills, QuoteQuantum(policies(symbol)))
    requires var n, p := |events| - 1, policies(symbol);
             && ProceedsOf(events, symbol, p) == ProceedsOf(events[..n], symbol, p) + proceeds
             && FillsOf(events, symbol) == FillsOf(events[..n], symbol) + fills
    ensures EarnedOver(state, events, after, symbol, policies)
  {
    var earlier, p := events[..|events| - 1], policies(symbol);
    EarnedTwice(D.SymbolOf(state, symbol), before, after, ProceedsOf(earlier, symbol, p), proceeds, FillsOf(earlier, symbol), fills,
                QuoteQuantum(p));
  }

  /**
   Realized PnL is money earned: on an on-grid state and non-negative fills, what a symbol's realized PnL
   gained is the proceeds of its sells less what its buys paid, plus its adjustments and the change of the
   cost of its lots, up to one quote quantum per match.
   */
  lemma {:induction false} RealizedIsEarned(state: D.LedgerState, events: seq<D.LedgerEvent>, symbol: string, policies: D.Policies)
    requires D.OnGrid(state, policies) && D.NonNegativeFills(events)
    requires Replay(state, events, D.EventStep(policies)).Ok?
    ensures EarnedOver(state, events, D.SymbolOf(Replay(state, events, D.EventStep(policies)).value, symbol), symbol, policies)
  {
    if events != [] {
      var before, proceeds, fills := EarnedLast(state, events, symbol, policies);
      RealizedIsEarned(state, events[..|events| - 1], symbol, policies);
      EarnedMore(state, events, before, D.SymbolOf(Replay(state, events, D.EventStep(policies)).value, symbol), proceeds, fills,
                 symbol, policies);
    }
  }
}
