/**
 Portfolio PnL: the rounded figures the ledger reports over all symbols, set against the average-cost
 book fed with the same fills.
 */
module PortfolioPnl {
  import opened Money
  import opened Results
  import opened Ordering
  import opened Fifo
  import opened AverageCost
  import opened PnlAgreement
  import D = DomainLedger

  // --- what the ledger reports

  /** The symbols of a ledger, each once, in the order its dictionary lists them. */
  ghost predicate Lists(order: seq<string>, state: D.LedgerState) {
    Distinct(order) && forall s :: s in order <==> s in state.symbols
  }

  /** The policy both totals are rounded with at the end: the first symbol's. */
  function ClosingPolicy(order: seq<string>, policies: D.Policies): Policy {
    if order == [] then DEFAULT_POLICY else policies(order[0])
  }

  ghost function RealizedSum(state: D.LedgerState, order: seq<string>): real {
    if order == [] then 0.0
    else
      var n := |order| - 1;
      RealizedSum(state, order[..n]) + D.SymbolOf(state, order[n]).realizedPnl
  }

  /** One symbol's open lots marked into a running total. */
  ghost function MarkSymbol(total: real, lots: seq<Lot>, mark: real, p: Policy): real {
    BookAll(total, LotGains(RoundPrice(mark, p), lots), D.RunningTotal(QuoteRounding(p)))
  }

  ghost function UnrealizedRun(state: D.LedgerState, order: seq<string>, marks: Marks, policies: D.Policies): real {
    if order == [] then 0.0
    else
      var n := |order| - 1;
      var before := UnrealizedRun(state, order[..n], marks, policies);
      if order[n] !in marks then before
      else MarkSymbol(before, D.SymbolOf(state, order[n]).lots, marks[order[n]], policies(order[n]))
  }

  method ComputeRealizedPnl(state: D.LedgerState, order: seq<string>, policies: D.Policies) returns (r: real)
    requires Lists(order, state)
    ensures r == Realized(state, order, policies)
  {
    var total := 0.0;
    for i := 0 to |order|
      invariant total == RealizedSum(state, order[..i])
    {
      assert order[..i + 1][..i] == order[..i];
      total := total + state.symbols[order[i]].realizedPnl;
    }
    assert order[..|order|] == order;
    r := RoundQuote(total, ClosingPolicy(order, policies));
  }

  method ComputeUnrealizedPnl(state: D.LedgerState, order: seq<string>, marks: Marks, policies: D.Policies)
    returns (r: real)
    requires Lists(order, state)
    ensures r == Unrealized(state, order, marks, policies)
  {
    var total := 0.0;
    for i := 0 to |order|
      invariant total == UnrealizedRun(state, order[..i], marks, policies)
    {
      assert order[..i + 1][..i] == order[..i];
      if order[i] in marks {
        total := MarkLots(total, state.symbols[order[i]].lots, marks[order[i]], policies(order[i]));
      }
    }
    assert order[..|order|] == order;
    r := RoundQuote(total, ClosingPolicy(order, policies));
  }

  /** The inner loop over one symbol's lots. */
  method MarkLots(total0: real, lots: seq<Lot>, mark0: real, policy: Policy) returns (total: real)
    ensures total == MarkSymbol(total0, lots, mark0, policy)
  {
    var mark := RoundPrice(mark0, policy);
    var book := D.RunningTotal(QuoteRounding(policy));
    ghost var gains := LotGains(mark, lots);
    total := total0;
    for i := 0 to |lots|
      invariant total == BookAll(total0, gains[..i], book)
    {
      LotGainAt(mark, lots, i);
      assert gains[..i + 1] == gains[..i] + [gains[i]];
      BookAllConcat(total0, gains[..i], [gains[i]], book);
      total := book(total, (mark - lots[i].unitCost) * lots[i].qty);
    }
    assert gains[..|lots|] == gains;
  }

  lemma {:induction false} LotGainAt(mark: real, lots: seq<Lot>, i: nat)
    requires i < |lots|
    ensures LotGains(mark, lots)[i] == (mark - lots[i].unitCost) * lots[i].qty
  {
    if i > 0 {
      LotGainAt(mark, lots[1..], i - 1);
    }
  }

  // --- rounding errors

  /** A running total rounded at every step is off by at most one quantum per step. */
  lemma {:induction false} RunningTotalError(total: real, gains: seq<real>, money: real -> real, q: real)
    requires MoneyRounding(money, q)
    ensures Abs(BookAll(total, gains, D.RunningTotal(money)) - (total + Sum(gains))) <= Quanta(|gains|, q)
    decreases |gains|
  {
    if gains != [] {
      assert RoundError(money, total + gains[0]) <= q;
      RunningTotalError(money(total + gains[0]), gains[1..], money, q);
    }
  }

  /** Two rounded running totals against the exact sum of everything added to them. */
  lemma {:induction false} TwoTotalsError(start: real, gains: seq<real>, before: real, open: seq<real>, n: nat, money: real -> real, q: real)
    requires MoneyRounding(money, q) && |gains| + |open| <= n
    ensures var book := D.RunningTotal(money);
            Abs(BookAll(start, gains, book) - start + (BookAll(before, open, book) - before) - (Sum(gains) + Sum(open)))
            <= Quanta(n, q)
  {
    RunningTotalError(start, gains, money, q);
    RunningTotalError(before, open, money, q);
    QuantaCombine(|gains|, |open|, n, q);
  }

  /** How far one symbol's rounded PnL in the ledger is from its average-cost PnL before fees. */
  ghost function Deviation(ledger: D.SymbolLedger, h: Holding, fees: real, before: real, mark: real, p: Policy): real {
    Abs(ledger.realizedPnl + (MarkSymbol(before, ledger.lots, mark, p) - before)
        - (AverageTotal(h, RoundPrice(mark, p)) + fees))
  }

  lemma {:induction false} SymbolNear(ledger: D.SymbolLedger, ds: seq<Deal>, before: real, mark: real, p: Policy)
    requires Positive(ds) && AverageAll(ds).Some? && TradeAll([], Trades(ledger.symbol, ds), Exact).Some?
    requires var book := TradeAll([], Trades(ledger.symbol, ds), Exact).value;
             ledger.lots == book.lots && ledger.realizedPnl == BookAll(0.0, book.gains, D.RunningTotal(QuoteRounding(p)))
    ensures Deviation(ledger, AverageAll(ds).value, Fees(ds), before, mark, p) <= Quanta(|ds|, QuoteQuantum(p))
  {
    var book := TradeAll([], Trades(ledger.symbol, ds), Exact).value;
    MatchesAndLots(ledger.symbol, ds);
    RoundQuoteIsMoney(p);
    TotalsAgree(ledger.symbol, ds, RoundPrice(mark, p));
    TwoTotalsError(0.0, book.gains, before, LotGains(RoundPrice(mark, p), book.lots), |ds|, QuoteRounding(p), QuoteQuantum(p));
  }

  lemma {:induction false} QuantaCombine(i: nat, j: nat, n: nat, q: real)
    requires q > 0.0 && i + j <= n
    ensures Quanta(i, q) + Quanta(j, q) <= Quanta(n, q)
    decreases n
  {
    if j > 0 {
      QuantaCombine(i, j - 1, n - 1, q);
    } else if n > 0 {
      QuantaCombine(if i < n then i else i - 1, 0, n - 1, q);
    }
  }

  lemma {:induction false} TradesNonNegative(symbol: string, ds: seq<Deal>)
    requires Positive(ds)
    ensures NonNegativeTrades(Trades(symbol, ds))
  {
    if ds != [] {
      TradesNonNegative(symbol, ds[..|ds| - 1]);
    }
  }

  lemma {:induction false} MatchesAndLots(symbol: string, ds: seq<Deal>)
    requires Positive(ds) && TradeAll([], Trades(symbol, ds), Exact).Some?
    ensures var book := TradeAll([], Trades(symbol, ds), Exact).value;
            |book.gains| + |book.lots| <= |ds|
  {
    TradesNonNegative(symbol, ds);
    RunIsQueueSuffix([], Trades(symbol, ds));
  }

  // --- both books over the same history

  /** The fill as a ledger event of its canonical symbol. */
  function ToEvent(m: Marked): D.LedgerEvent {
    D.LedgerEvent(m.fill.fillId, Aware(m.fill.ts, 0), Normalize(m.fill.symbol), D.FillEvent, Some(m.fill.side),
                  m.fill.qty, Some(m.fill.price), None, None)
  }

  function Events(ms: seq<Marked>): seq<D.LedgerEvent> {
    Map(ToEvent, ms)
  }

  function ToDeal(m: Marked): Deal {
    Deal(Upper(m.fill.side) == "BUY", m.fill.qty, m.fill.price, FeeInTry(m.fill.feeAsset, m.fill.fee, m.marks),
         Aware(m.fill.ts, 0))
  }

  /** The fills of one symbol. */
  function DealsOf(ms: seq<Marked>, symbol: string): seq<Deal> {
    if ms == [] then []
    else
      var n := |ms| - 1;
      DealsOf(ms[..n], symbol) + if Normalize(ms[n].fill.symbol) == symbol then [ToDeal(ms[n])] else []
  }

  /** A positive fill with a known side, on the grids of its symbol. */
  ghost predicate OnGridFill(m: Marked, policies: D.Policies) {
    var p := policies(Normalize(m.fill.symbol));
    && m.fill.qty > 0.0 && RoundQty(m.fill.qty, p) == m.fill.qty && RoundPrice(m.fill.price, p) == m.fill.price
    && (Upper(m.fill.side) == "BUY" || Upper(m.fill.side) == "SELL")
  }

  ghost predicate OnGridFills(ms: seq<Marked>, policies: D.Policies) {
    forall i :: 0 <= i < |ms| ==> OnGridFill(ms[i], policies)
  }

  lemma {:induction false} SameTrade(m: Marked, policies: D.Policies)
    requires OnGridFill(m, policies)
    ensures var symbol := Normalize(m.fill.symbol);
            D.TradeOf(ToEvent(m), policies(symbol)) == Some(ToTrade(symbol, ToDeal(m)))
  {
  }

  lemma {:induction false} SameTrades(ms: seq<Marked>, symbol: string, policies: D.Policies)
    requires OnGridFills(ms, policies)
    ensures D.TradesOf(Events(ms), symbol, policies(symbol)) == Trades(symbol, DealsOf(ms, symbol))
    ensures Positive(DealsOf(ms, symbol))
  {
    if ms != [] {
      var n := |ms| - 1;
      var ds, m := DealsOf(ms[..n], symbol), ms[n];
      SameTrades(ms[..n], symbol, policies);
      assert OnGridFill(m, policies);
      assert Events(ms)[..n] == Events(ms[..n]) && Events(ms)[n] == ToEvent(m);
      if Normalize(m.fill.symbol) == symbol {
        SameTrade(m, policies);
        TradesAppend(symbol, ds, ToDeal(m));
      } else {
        assert ds + [] == ds;
      }
    }
  }

  lemma {:induction false} TradesAppend(symbol: string, ds: seq<Deal>, d: Deal)
    ensures Trades(symbol, ds + [d]) == Trades(symbol, ds) + [ToTrade(symbol, d)]
    ensures AverageAll(ds + [d]) == NextHolding(AverageAll(ds), d)
  {
    assert (ds + [d])[..|ds|] == ds;
  }

  /** The ledger's book of a symbol is the exact FIFO book of its fills. */
  lemma {:induction false} BookIsExact(ms: seq<Marked>, symbol: string, policies: D.Policies)
    requires OnGridFills(ms, policies)
    ensures D.BookOf(D.EMPTY, Events(ms), symbol, policies) == TradeAll([], Trades(symbol, DealsOf(ms, symbol)), Exact)
  {
    var p := policies(symbol);
    SameTrades(ms, symbol, policies);
    assert D.NonNegativeFills(Events(ms)) by {
      forall i | 0 <= i < |ms| ensures Events(ms)[i].qty >= 0.0 { assert OnGridFill(ms[i], policies); }
    }
    D.TradesAreValid(Events(ms), symbol, p);
    RoundQtyGrid(p);
    RoundingVanishes([], Trades(symbol, DealsOf(ms, symbol)), QtyRounding(p));
  }

  ghost predicate AllHeld(ms: seq<Marked>) {
    forall symbol :: AverageAll(DealsOf(ms, symbol)).Some?
  }

  ghost predicate HoldsEach(positions: Positions, ms: seq<Marked>) {
    forall symbol :: AverageAll(DealsOf(ms, symbol)) == Some(Held(positions, symbol))
  }

  lemma {:induction false} HoldingStep(ms: seq<Marked>, symbol: string)
    requires ms != []
    ensures var n := |ms| - 1;
            AverageAll(DealsOf(ms, symbol))
            == if Normalize(ms[n].fill.symbol) == symbol
               then NextHolding(AverageAll(DealsOf(ms[..n], symbol)), ToDeal(ms[n]))
               else AverageAll(DealsOf(ms[..n], symbol))
  {
    var ds := DealsOf(ms[..|ms| - 1], symbol);
    TradesAppend(symbol, ds, ToDeal(ms[|ms| - 1]));
    assert ds + [] == ds;
  }

  lemma {:induction false} HoldsNext(positions: Positions, ms: seq<Marked>)
    requires ms != [] && HoldsEach(positions, ms[..|ms| - 1])
    ensures var r := Apply(positions, ms[|ms| - 1]);
            if r.Ok? then HoldsEach(r.value, ms) else !AllHeld(ms)
  {
    var m := ms[|ms| - 1];
    HoldingStep(ms, Normalize(m.fill.symbol));
    if Apply(positions, m).Ok? {
      forall symbol ensures AverageAll(DealsOf(ms, symbol)) == Some(Held(Apply(positions, m).value, symbol)) {
        HoldingStep(ms, symbol);
      }
    }
  }

  /** The average-cost run succeeds exactly when every symbol's does, and symbols do not interfere. */
  lemma {:induction false} HoldingsIndependent(ms: seq<Marked>)
    ensures var r := Replay(map[], ms, Apply);
            if r.Ok? then HoldsEach(r.value, ms) else !AllHeld(ms)
  {
    if ms != [] {
      var n := |ms| - 1;
      HoldingsIndependent(ms[..n]);
      if Replay(map[], ms[..n], Apply).Ok? {
        HoldsNext(Replay(map[], ms[..n], Apply).value, ms);
      } else {
        var symbol :| AverageAll(DealsOf(ms[..n], symbol)).None?;
        HoldingStep(ms, symbol);
      }
    } else {
      assert forall symbol :: DealsOf(ms, symbol) == [];
    }
  }

  /** A position under its canonical symbol. */
  function Held(positions: Positions, symbol: string): Holding {
    if symbol in positions then positions[symbol].holding else FLAT
  }

  /** The two books oversell together. */
  lemma {:induction false} BooksFailTogether(ms: seq<Marked>, policies: D.Policies)
    requires OnGridFills(ms, policies)
    ensures Replay(D.EMPTY, Events(ms), D.EventStep(policies)).Ok? <==> Replay(map[], ms, Apply).Ok?
  {
    HoldingsIndependent(ms);
    assert Replay(map[], ms, Apply).Ok? <==> AllHeld(ms);
    D.SucceedsSymbolBySymbol(D.EMPTY, Events(ms), policies);
    forall symbol
      ensures D.BookOf(D.EMPTY, Events(ms), symbol, policies).Some? <==> AverageAll(DealsOf(ms, symbol)).Some?
    {
      SameTrades(ms, symbol, policies);
      BookIsExact(ms, symbol, policies);
      TotalsAgree(symbol, DealsOf(ms, symbol), 0.0);
    }
  }

  // --- portfolio totals

  /** Average-cost realized plus unrealized PnL before fees, over the listed symbols. */
  ghost function AverageSum(positions: Positions, ms: seq<Marked>, order: seq<string>, marks: Marks, policies: D.Policies): real
    requires forall s :: s in order ==> s in marks
  {
    if order == [] then 0.0
    else
      var n := |order| - 1;
      var s := order[n];
      AverageSum(positions, ms, order[..n], marks, policies)
      + AverageTotal(Held(positions, s), RoundPrice(marks[s], policies(s))) + Fees(DealsOf(ms, s))
  }

  /** One quote quantum per fill, each of its own symbol. */
  ghost function Allowance(ms: seq<Marked>, order: seq<string>, policies: D.Policies): real {
    if order == [] then 0.0
    else
      var n := |order| - 1;
      Allowance(ms, order[..n], policies) + Quanta(|DealsOf(ms, order[n])|, QuoteQuantum(policies(order[n])))
  }

  /** The final states of the two books. */
  ghost predicate Finals(ms: seq<Marked>, policies: D.Policies, state: D.LedgerState, positions: Positions) {
    Replay(D.EMPTY, Events(ms), D.EventStep(policies)) == Ok(state) && Replay(map[], ms, Apply) == Ok(positions)
  }

  lemma {:induction false} SymbolNamed(events: seq<D.LedgerEvent>, symbol: string, policies: D.Policies)
    requires Replay(D.EMPTY, events, D.EventStep(policies)).Ok?
    ensures D.SymbolOf(Replay(D.EMPTY, events, D.EventStep(policies)).value, symbol).symbol == symbol
  {
    if events != [] {
      SymbolNamed(events[..|events| - 1], symbol, policies);
    }
  }

  /** One symbol's contribution, before the closing rounding. */
  lemma {:induction false} SymbolContribution(ms: seq<Marked>, state: D.LedgerState, positions: Positions, symbol: string, before: real,
                           mark: real, policies: D.Policies)
    requires OnGridFills(ms, policies) && Finals(ms, policies, state, positions)
    ensures var ds := DealsOf(ms, symbol);
            Deviation(D.SymbolOf(state, symbol), Held(positions, symbol), Fees(ds), before, mark, policies(symbol))
            <= Quanta(|ds|, QuoteQuantum(policies(symbol)))
  {
    D.SymbolsIndependent(D.EMPTY, Events(ms), symbol, policies);
    SymbolNamed(Events(ms), symbol, policies);
    BookIsExact(ms, symbol, policies);
    SameTrades(ms, symbol, policies);
    HoldingsIndependent(ms);
    SymbolNear(D.SymbolOf(state, symbol), DealsOf(ms, symbol), before, mark, policies(symbol));
  }

  /** How far the ledger's sums are from the average-cost sum, before the closing rounding. */
  ghost function SumDeviation(realized: real, unrealized: real, average: real): real {
    Abs(realized + unrealized - average)
  }

  lemma {:induction false} AddContribution(realized: real, unrealized: real, average: real, allowed: real,
                        ledger: D.SymbolLedger, h: Holding, fees: real, mark: real, p: Policy, more: real)
    requires SumDeviation(realized, unrealized, average) <= allowed
    requires Deviation(ledger, h, fees, unrealized, mark, p) <= more
    ensures SumDeviation(realized + ledger.realizedPnl, MarkSymbol(unrealized, ledger.lots, mark, p),
                         average + AverageTotal(h, RoundPrice(mark, p)) + fees) <= allowed + more
  {
  }

  lemma {:induction false} SumsAgree(ms: seq<Marked>, state: D.LedgerState, positions: Positions, order: seq<string>,
                                     marks: Marks, policies: D.Policies)
    requires OnGridFills(ms, policies) && Finals(ms, policies, state, positions)
    requires forall s :: s in order ==> s in marks
    ensures SumDeviation(RealizedSum(state, order), UnrealizedRun(state, order, marks, policies),
                         AverageSum(positions, ms, order, marks, policies)) <= Allowance(ms, order, policies)
  {
    if order != [] {
      var n := |order| - 1;
      var before, s := order[..n], order[n];
      SumsAgree(ms, state, positions, before, marks, policies);
      var unrealized := UnrealizedRun(state, before, marks, policies);
      SymbolContribution(ms, state, positions, s, unrealized, marks[s], policies);
      AddContribution(RealizedSum(state, before), unrealized, AverageSum(positions, ms, before, marks, policies),
                      Allowance(ms, before, policies), D.SymbolOf(state, s), Held(positions, s), Fees(DealsOf(ms, s)),
                      marks[s], policies(s), Quanta(|DealsOf(ms, s)|, QuoteQuantum(policies(s))));
    }
  }

  // --- the closing rounding

  /** `compute_realized_pnl`, as a function. */
  ghost function Realized(state: D.LedgerState, order: seq<string>, policies: D.Policies): real {
    RoundQuote(RealizedSum(state, order), ClosingPolicy(order, policies))
  }

  /** `compute_unrealized_pnl`, as a function. */
  ghost function Unrealized(state: D.LedgerState, order: seq<string>, marks: Marks, policies: D.Policies): real {
    RoundQuote(UnrealizedRun(state, order, marks, policies), ClosingPolicy(order, policies))
  }

  lemma {:induction false} CloseWithin(realized: real, unrealized: real, average: real, allowed: real, p: Policy)
    requires SumDeviation(realized, unrealized, average) <= allowed
    ensures SumDeviation(RoundQuote(realized, p), RoundQuote(unrealized, p), average) <= allowed + Quanta(2, QuoteQuantum(p))
  {
    RoundQuoteErrors(p, 0.0, realized);
    RoundQuoteErrors(p, 0.0, unrealized);
    TwoQuanta(QuoteQuantum(p));
    assert RoundError(QuoteRounding(p), realized) <= QuoteQuantum(p);
    assert RoundError(QuoteRounding(p), unrealized) <= QuoteQuantum(p);
  }

  lemma {:induction false} TwoQuanta(q: real)
    ensures Quanta(2, q) == q + q
  {
    assert Quanta(1, q) == Quanta(0, q) + q;
  }

  /** All listed symbols round quotes to the same precision as the closing policy. */
  ghost predicate SamePrecision(order: seq<string>, policies: D.Policies, p: Policy) {
    forall s :: s in order ==> NonNegative(policies(s).quotePrecision) == NonNegative(p.quotePrecision)
  }

  lemma {:induction false} TotalSettled(total: real, gains: seq<real>, money: real -> real, q: real)
    requires MoneyRounding(money, q) && money(total) == total
    ensures var r := BookAll(total, gains, D.RunningTotal(money)); money(r) == r
    decreases |gains|
  {
    if gains != [] {
      assert Unsettled(money, total + gains[0]) == 0.0;
      TotalSettled(money(total + gains[0]), gains[1..], money, q);
    }
  }

  lemma {:induction false} RealizedSettled(ms: seq<Marked>, state: D.LedgerState, symbol: string, policies: D.Policies)
    requires Replay(D.EMPTY, Events(ms), D.EventStep(policies)) == Ok(state)
    ensures var r := D.SymbolOf(state, symbol).realizedPnl; RoundQuote(r, policies(symbol)) == r
  {
    var p := policies(symbol);
    D.SymbolsIndependent(D.EMPTY, Events(ms), symbol, policies);
    RoundQuoteIsMoney(p);
    TotalSettled(0.0, D.BookOf(D.EMPTY, Events(ms), symbol, policies).value.gains, QuoteRounding(p), QuoteQuantum(p));
  }

  lemma {:induction false} SettledToo(x: real, own: Policy, p: Policy)
    requires RoundQuote(x, own) == x && NonNegative(own.quotePrecision) == NonNegative(p.quotePrecision)
    ensures RoundQuote(x, p) == x
  {
  }

  lemma {:induction false} AddSettled(x: real, y: real, sum: real, p: Policy)
    requires RoundQuote(x, p) == x && RoundQuote(y, p) == y && sum == x + y
    ensures RoundQuote(sum, p) == sum
  {
    SumOnStep(x, y, QuoteQuantum(p));
  }

  lemma {:induction false} MarkSettled(total: real, lots: seq<Lot>, mark: real, p: Policy)
    requires RoundQuote(total, p) == total
    ensures var r := MarkSymbol(total, lots, mark, p); RoundQuote(r, p) == r
  {
    RoundQuoteIsMoney(p);
    TotalSettled(total, LotGains(RoundPrice(mark, p), lots), QuoteRounding(p), QuoteQuantum(p));
  }

  /** With one precision for all symbols both sums are on its quantum, and closing changes nothing. */
  lemma {:induction false} RealizedSumSettled(ms: seq<Marked>, state: D.LedgerState, order: seq<string>,
                                              policies: D.Policies, p: Policy)
    requires Replay(D.EMPTY, Events(ms), D.EventStep(policies)) == Ok(state) && SamePrecision(order, policies, p)
    ensures var r := RealizedSum(state, order); RoundQuote(r, p) == r
  {
    if order == [] {
      RoundingKeepsZero(p);
    } else {
      var n := |order| - 1;
      RealizedSumSettled(ms, state, order[..n], policies, p);
      RealizedSettled(ms, state, order[n], policies);
      SettledToo(D.SymbolOf(state, order[n]).realizedPnl, policies(order[n]), p);
      AddSettled(RealizedSum(state, order[..n]), D.SymbolOf(state, order[n]).realizedPnl, RealizedSum(state, order), p);
    }
  }

  lemma {:induction false} UnrealizedRunSettled(state: D.LedgerState, order: seq<string>, marks: Marks,
                                                policies: D.Policies, p: Policy)
    requires SamePrecision(order, policies, p)
    ensures var u := UnrealizedRun(state, order, marks, policies); RoundQuote(u, p) == u
  {
    if order == [] {
      RoundingKeepsZero(p);
    } else {
      var n := |order| - 1;
      var s := order[n];
      UnrealizedRunSettled(state, order[..n], marks, policies, p);
      if s in marks {
        MarkSettledToo(UnrealizedRun(state, order[..n], marks, policies), D.SymbolOf(state, s).lots, marks[s], policies(s), p);
      }
    }
  }

  /** The same under another policy of the same precision. */
  lemma {:induction false} MarkSettledToo(total: real, lots: seq<Lot>, mark: real, own: Policy, p: Policy)
    requires RoundQuote(total, p) == total && NonNegative(own.quotePrecision) == NonNegative(p.quotePrecision)
    ensures var r := MarkSymbol(total, lots, mark, own); RoundQuote(r, p) == r
  {
    MarkSettled(total, lots, mark, own);
  }

  // --- counting fills

  ghost function FillCount(ms: seq<Marked>, order: seq<string>): nat {
    if order == [] then 0 else FillCount(ms, order[..|order| - 1]) + |DealsOf(ms, order[|order| - 1])|
  }

  ghost predicate Distinct(order: seq<string>) {
    forall i, j :: 0 <= i < j < |order| ==> order[i] != order[j]
  }

  lemma {:induction false} FillCountStep(ms: seq<Marked>, order: seq<string>)
    requires ms != [] && Distinct(order)
    ensures FillCount(ms, order)
         == FillCount(ms[..|ms| - 1], order) + if Normalize(ms[|ms| - 1].fill.symbol) in order then 1 else 0
  {
    if order != [] {
      var n := |order| - 1;
      FillCountStep(ms, order[..n]);
      assert order == order[..n] + [order[n]];
      assert order[n] !in order[..n];
    }
  }

  lemma {:induction false} FillsCounted(ms: seq<Marked>, order: seq<string>)
    requires Distinct(order)
    ensures FillCount(ms, order) <= |ms|
  {
    if ms != [] {
      FillsCounted(ms[..|ms| - 1], order);
      FillCountStep(ms, order);
    } else {
      NoFills(order);
    }
  }

  lemma {:induction false} NoFills(order: seq<string>)
    ensures FillCount([], order) == 0
  {
    if order != [] {
      NoFills(order[..|order| - 1]);
    }
  }

  lemma {:induction false} AllowanceIsCount(ms: seq<Marked>, order: seq<string>, policies: D.Policies, p: Policy)
    requires SamePrecision(order, policies, p)
    ensures Allowance(ms, order, policies) == Quanta(FillCount(ms, order), QuoteQuantum(p))
  {
    if order != [] {
      var n := |order| - 1;
      AllowanceIsCount(ms, order[..n], policies, p);
      QuantaAdd(FillCount(ms, order[..n]), |DealsOf(ms, order[n])|, QuoteQuantum(p));
    }
  }

  // --- the main result

  /** In the order the ledger replays them. */
  ghost predicate InReplayOrder(ms: seq<Marked>) {
    Sort(D.EventLeq, Events(ms)) == Events(ms)
  }

  /**
   The ledger and the average-cost book tell the same story about the whole portfolio. On the same
   positive on-grid fills they oversell together. Otherwise the realized plus unrealized PnL the ledger
   reports, rounded at every step, is the average-cost total before fees up to one quote quantum per
   fill, and up to the two closing roundings when symbols round to different precisions.
   */
  lemma {:induction false} PortfolioTotalsAgree(ms: seq<Marked>, order: seq<string>, marks: Marks, policies: D.Policies)
    requires OnGridFills(ms, policies) && InReplayOrder(ms)
    ensures var ledger, book := D.Apply(D.EMPTY, Events(ms), policies), Replay(map[], ms, Apply);
            && (ledger.Ok? <==> book.Ok?)
            && (ledger.Ok? && Lists(order, ledger.value) && (forall s :: s in order ==> s in marks) ==>
                  var p := ClosingPolicy(order, policies);
                  var gap := SumDeviation(Realized(ledger.value, order, policies),
                                          Unrealized(ledger.value, order, marks, policies),
                                          AverageSum(book.value, ms, order, marks, policies));
                  && gap <= Allowance(ms, order, policies) + Quanta(2, QuoteQuantum(p))
                  && (SamePrecision(order, policies, p) ==> gap <= Quanta(|ms|, QuoteQuantum(p))))
  {
    BooksFailTogether(ms, policies);
    var ledger, book := D.Apply(D.EMPTY, Events(ms), policies), Replay(map[], ms, Apply);
    if ledger.Ok? && Lists(order, ledger.value) && (forall s :: s in order ==> s in marks) {
      var state, p := ledger.value, ClosingPolicy(order, policies);
      SumsAgree(ms, state, book.value, order, marks, policies);
      CloseWithin(RealizedSum(state, order), UnrealizedRun(state, order, marks, policies),
                  AverageSum(book.value, ms, order, marks, policies), Allowance(ms, order, policies), p);
      if SamePrecision(order, policies, p) {
        RealizedSumSettled(ms, state, order, policies, p);
        UnrealizedRunSettled(state, order, marks, policies, p);
        AllowanceIsCount(ms, order, policies, p);
        FillsCounted(ms, order);
        QuantaCombine(FillCount(ms, order), 0, |ms|, QuoteQuantum(p));
      }
    }
  }
}
