/**
 The event-sourced FIFO ledger: `apply_events` folds sorted events into per-symbol lots, realized
 PnL and fee totals, rounding at every step.
 */
module DomainLedger {
  import opened Money
  import opened Results
  import opened Ordering
  import opened Fifo

  datatype EventKind = OrderPlaced | OrderCanceled | FillEvent | FeeEvent | Adjustment

  datatype LedgerEvent = LedgerEvent(
    eventId: string, ts: Timestamp, symbol: string, kind: EventKind, side: Option<string>,
    qty: real, price: Option<real>, fee: Option<real>, feeCurrency: Option<string>)

  datatype SymbolLedger = SymbolLedger(symbol: string, lots: seq<Lot>, realizedPnl: real)

  datatype LedgerState = LedgerState(symbols: map<string, SymbolLedger>, fees: map<string, real>)

  datatype LedgerError =
    | Oversell(symbol: string, remaining: real, eventId: string)
    | FeeEventInvariant(eventId: string)

  /** The money policy of each symbol. */
  type Policies = string -> Policy

  const EMPTY := LedgerState(map[], map[])

  function EventKey(e: LedgerEvent): Key {
    Key(e.ts.Instant(), e.eventId)
  }

  predicate EventLeq(a: LedgerEvent, b: LedgerEvent) {
    KeyLeq(EventKey(a), EventKey(b))
  }

  lemma {:induction false} EventPreorder()
    ensures Preorder(EventLeq)
  {
    KeyOrder();
  }

  // --- one event

  function SymbolOf(state: LedgerState, symbol: string): SymbolLedger {
    if symbol in state.symbols then state.symbols[symbol] else SymbolLedger(symbol, [], 0.0)
  }

  /** The buy or sell an event stands for, with its quantity and price rounded. */
  function TradeOf(e: LedgerEvent, p: Policy): Option<Trade> {
    if e.kind.FillEvent? && e.price.Some? && e.side.Some? then
      var qty, price := RoundQty(e.qty, p), RoundPrice(e.price.value, p);
      if Upper(e.side.value) == "BUY" then Some(Buy(Lot(e.symbol, qty, price, e.ts)))
      else if Upper(e.side.value) == "SELL" then Some(Sell(qty, price))
      else None
    else None
  }

  /** Realized PnL is a running total, rounded after every match. */
  function RunningTotal(money: real -> real): Booking {
    (realized, gain) => money(realized + gain)
  }

  function ApplyToSymbol(current: SymbolLedger, e: LedgerEvent, p: Policy): Result<SymbolLedger, LedgerError> {
    match TradeOf(e, p)
    case None =>
      if e.kind.Adjustment? && e.fee.Some? then
        Ok(SymbolLedger(e.symbol, current.lots, current.realizedPnl + e.fee.value))
      else Ok(SymbolLedger(e.symbol, current.lots, current.realizedPnl))
    case Some(t) =>
      match TradeOnce(current.lots, t, QtyRounding(p))
      case None => Err(Oversell(e.symbol, SellLots(current.lots, t.qty, QtyRounding(p)).unfilled, e.eventId))
      case Some(book) => Ok(SymbolLedger(e.symbol, book.lots, BookAll(current.realizedPnl, book.gains, RunningTotal(QuoteRounding(p)))))
  }

  predicate CarriesFee(e: LedgerEvent) {
    e.kind.FeeEvent? && e.fee.Some? && e.feeCurrency.Some? && e.feeCurrency.value != ""
  }

  /** Fees are not fills: a fee event has no side, quantity or price. */
  predicate FeeShape(e: LedgerEvent) {
    e.side.None? && e.qty == 0.0 && e.price.None?
  }

  function ApplyFee(fees: map<string, real>, e: LedgerEvent, p: Policy): Result<map<string, real>, LedgerError> {
    if !CarriesFee(e) then Ok(fees)
    else if !FeeShape(e) then Err(FeeEventInvariant(e.eventId))
    else
      var currency := Upper(e.feeCurrency.value);
      var total := (if currency in fees then fees[currency] else 0.0) + e.fee.value;
      Ok(fees[currency := if currency == "TRY" then RoundFee(total, p) else total])
  }

  function ApplyOne(state: LedgerState, e: LedgerEvent, policies: Policies): Result<LedgerState, LedgerError> {
    var p := policies(e.symbol);
    match ApplyToSymbol(SymbolOf(state, e.symbol), e, p)
    case Err(error) => Err(error)
    case Ok(ledger) =>
      match ApplyFee(state.fees, e, p)
      case Err(error) => Err(error)
      case Ok(fees) => Ok(LedgerState(state.symbols[e.symbol := ledger], fees))
  }

  // --- whole event lists

  function EventStep(policies: Policies): (LedgerState, LedgerEvent) -> Result<LedgerState, LedgerError> {
    (state, e) => ApplyOne(state, e, policies)
  }

  function Apply(state: LedgerState, events: seq<LedgerEvent>, policies: Policies): Result<LedgerState, LedgerError> {
    Replay(state, Sort(EventLeq, events), EventStep(policies))
  }

  /** The fill branch of the event loop, on one symbol's lots and realized PnL. */
  method ApplyFill(current: SymbolLedger, event: LedgerEvent, policy: Policy) returns (r: Result<SymbolLedger, LedgerError>)
    requires !event.kind.Adjustment?
    ensures r == ApplyToSymbol(current, event, policy)
  {
    var lots, realized := current.lots, current.realizedPnl;
    if event.kind.FillEvent? && event.price.Some? && event.side.Some? {
      var qty, price := RoundQty(event.qty, policy), RoundPrice(event.price.value, policy);
      if Upper(event.side.value) == "BUY" {
        lots := lots + [Lot(event.symbol, qty, price, event.ts)];
      } else if Upper(event.side.value) == "SELL" {
        var remaining;
        RoundingKeepsZero(policy);
        lots, realized, remaining :=
          MatchSell(lots, qty, price, realized, QtyRounding(policy), RunningTotal(QuoteRounding(policy)));
        if remaining > 0.0 {
          return Err(Oversell(event.symbol, remaining, event.eventId));
        }
      }
    }
    r := Ok(SymbolLedger(event.symbol, lots, realized));
  }

  /** The body of the event loop. */
  method ApplyEvent(state: LedgerState, event: LedgerEvent, policies: Policies) returns (r: Result<LedgerState, LedgerError>)
    ensures r == ApplyOne(state, event, policies)
  {
    var policy := policies(event.symbol);
    var current, fees := SymbolOf(state, event.symbol), state.fees;
    if !event.kind.Adjustment? {
      var filled := ApplyFill(current, event, policy);
      if filled.Err? {
        return Err(filled.error);
      }
      current := filled.value;
    }
    if CarriesFee(event) {
      if event.side.Some? || event.qty != 0.0 || event.price.Some? {
        return Err(FeeEventInvariant(event.eventId));
      }
      var currency := Upper(event.feeCurrency.value);
      var total := (if currency in fees then fees[currency] else 0.0) + event.fee.value;
      fees := fees[currency := if currency == "TRY" then RoundFee(total, policy) else total];
    }
    if event.kind.Adjustment? && event.fee.Some? {
      current := current.(realizedPnl := current.realizedPnl + event.fee.value);
    }
    var ledger := SymbolLedger(event.symbol, current.lots, current.realizedPnl);
    r := Ok(LedgerState(state.symbols[event.symbol := ledger], fees));
  }

  method ApplyEvents(state: LedgerState, events: seq<LedgerEvent>, policies: Policies) returns (r: Result<LedgerState, LedgerError>)
    ensures r == Apply(state, events, policies)
  {
    var ordered := Sort(EventLeq, events);
    r := Ok(state);
    for i := 0 to |ordered|
      invariant r.Ok? && r == Replay(state, ordered[..i], EventStep(policies))
    {
      ReplayStep(state, ordered, i, EventStep(policies));
      r := ApplyEvent(r.value, ordered[i], policies);
      if r.Err? {
        ReplayFailed(state, ordered, i + 1, EventStep(policies));
        return;
      }
    }
    assert ordered[..|ordered|] == ordered;
  }

  // --- replay

  /**
   Checkpointed replay: when no event of `b` sorts before an event of `a`, applying `a` and then `b` is
   applying all of them at once, and fails with the same error when that fails.
   */
  lemma {:induction false} CheckpointedReplay(state: LedgerState, a: seq<LedgerEvent>, b: seq<LedgerEvent>, policies: Policies)
    requires AllLeq(EventLeq, a, b)
    ensures Apply(state, a + b, policies)
         == match Apply(state, a, policies)
            case Err(error) => Err(error)
            case Ok(checkpoint) => Apply(checkpoint, b, policies)
  {
    EventPreorder();
    SortConcat(EventLeq, a, b);
    ReplayConcat(state, Sort(EventLeq, a), Sort(EventLeq, b), EventStep(policies));
  }

  /** Earlier events first, and events of one instant by id. */
  ghost predicate InTimeOrder(events: seq<LedgerEvent>) {
    forall i, j :: 0 <= i < j < |events| ==>
      EarlierOrFirst(events[i].ts.Instant(), events[i].eventId, events[j].ts.Instant(), events[j].eventId)
  }

  function SameKey(instant: int, eventId: string): LedgerEvent -> bool {
    (e: LedgerEvent) => e.ts.Instant() == instant && e.eventId == eventId
  }

  /** What is replayed: the given events, in time order, those with one instant and id in the order given. */
  lemma {:induction false} AppliedInTimeOrder(state: LedgerState, events: seq<LedgerEvent>, policies: Policies)
    returns (replayed: seq<LedgerEvent>)
    ensures Apply(state, events, policies) == Replay(state, replayed, EventStep(policies))
    ensures multiset(replayed) == multiset(events) && InTimeOrder(replayed)
    ensures forall instant, eventId :: Filter(SameKey(instant, eventId), replayed) == Filter(SameKey(instant, eventId), events)
  {
    replayed := Sort(EventLeq, events);
    EventPreorder();
    SortSorts(EventLeq, events);
    forall i, j | 0 <= i < j < |replayed|
      ensures EarlierOrFirst(replayed[i].ts.Instant(), replayed[i].eventId, replayed[j].ts.Instant(), replayed[j].eventId)
    {
      assert EventLeq(replayed[i], replayed[j]);
      KeyLeqExactly(EventKey(replayed[i]), EventKey(replayed[j]));
    }
    forall instant, eventId ensures Filter(SameKey(instant, eventId), replayed) == Filter(SameKey(instant, eventId), events) {
      assert Tied(EventLeq, SameKey(instant, eventId));
      SortStable(EventLeq, SameKey(instant, eventId), events);
    }
  }

  /** A later event never changes what an earlier one did: batches split in time replay one after the other. */
  lemma {:induction false} CheckpointedInTime(state: LedgerState, a: seq<LedgerEvent>, b: seq<LedgerEvent>, policies: Policies)
    requires forall x, y :: x in a && y in b ==> x.ts.Instant() < y.ts.Instant()
    ensures Apply(state, a + b, policies)
         == match Apply(state, a, policies)
            case Err(error) => Err(error)
            case Ok(checkpoint) => Apply(checkpoint, b, policies)
  {
    CheckpointedReplay(state, a, b, policies);
  }

  // --- fees

  function Total(fees: map<string, real>, currency: string): real {
    if currency in fees then fees[currency] else 0.0
  }

  /** A fee event in this currency. */
  predicate FeeIn(e: LedgerEvent, currency: string) {
    e.kind.FeeEvent? && e.fee.Some? && e.feeCurrency.Some? && e.feeCurrency.value != "" && Upper(e.feeCurrency.value) == currency
  }

  ghost function FeeSum(events: seq<LedgerEvent>, currency: string): real {
    if events == [] then 0.0
    else
      var n := |events| - 1;
      FeeSum(events[..n], currency) + if FeeIn(events[n], currency) then events[n].fee.value else 0.0
  }

  /** One fee quantum of its symbol for every fee event in this currency. */
  ghost function FeeSlack(events: seq<LedgerEvent>, currency: string, policies: Policies): real {
    if events == [] then 0.0
    else
      var n := |events| - 1;
      FeeSlack(events[..n], currency, policies)
      + if FeeIn(events[n], currency) then Quantum(NonNegative(policies(events[n].symbol).feePrecision)) else 0.0
  }

  lemma {:induction false} RoundFeeError(x: real, p: Policy)
    ensures Abs(RoundFee(x, p) - x) <= Quantum(NonNegative(p.feePrecision))
  {
  }

  lemma {:induction false} FeeStep(fees: map<string, real>, e: LedgerEvent, p: Policy, currency: string)
    requires ApplyFee(fees, e, p).Ok?
    ensures var sum := Total(fees, currency) + if FeeIn(e, currency) then e.fee.value else 0.0;
            var after := Total(ApplyFee(fees, e, p).value, currency);
            && (currency != "TRY" ==> after == sum)
            && Abs(after - sum) <= (if FeeIn(e, currency) then Quantum(NonNegative(p.feePrecision)) else 0.0)
  {
    if FeeIn(e, currency) {
      RoundFeeError(Total(fees, currency) + e.fee.value, p);
    }
  }

  /** A fee total against the sum it should be. */
  ghost predicate FeesClose(total: real, sum: real, slack: real, currency: string) {
    (currency != "TRY" ==> total == sum) && Abs(total - sum) <= slack
  }

  lemma {:induction false} FeesCloser(total: real, sum: real, slack: real, fee: real, quantum: real, after: real, currency: string)
    requires FeesClose(total, sum, slack, currency) && FeesClose(after, total + fee, quantum, currency)
    ensures FeesClose(after, sum + fee, slack + quantum, currency)
  {
  }

  /** What the last event does to a fee total. */
  lemma {:induction false} LastFee(state: LedgerState, events: seq<LedgerEvent>, currency: string, policies: Policies)
    returns (fee: real, quantum: real)
    requires events != [] && Replay(state, events, EventStep(policies)).Ok?
    ensures var n := |events| - 1;
            && Replay(state, events[..n], EventStep(policies)).Ok?
            && FeeSum(events, currency) == FeeSum(events[..n], currency) + fee
            && FeeSlack(events, currency, policies) == FeeSlack(events[..n], currency, policies) + quantum
            && FeesClose(Total(Replay(state, events, EventStep(policies)).value.fees, currency),
                         Total(Replay(state, events[..n], EventStep(policies)).value.fees, currency) + fee, quantum, currency)
  {
    var n := |events| - 1;
    var e, p := events[n], policies(events[n].symbol);
    fee, quantum := 0.0, 0.0;
    if FeeIn(e, currency) {
      fee, quantum := e.fee.value, Quantum(NonNegative(p.feePrecision));
    }
    FeeStep(Replay(state, events[..n], EventStep(policies)).value.fees, e, p, currency);
  }

  /** Fee totals are sums: exactly in any currency but TRY, and in TRY up to one fee quantum per fee event. */
  lemma {:induction false} FeesAreSums(state: LedgerState, events: seq<LedgerEvent>, currency: string, policies: Policies)
    requires Replay(state, events, EventStep(policies)).Ok?
    ensures FeesClose(Total(Replay(state, events, EventStep(policies)).value.fees, currency),
                      Total(state.fees, currency) + FeeSum(events, currency), FeeSlack(events, currency, policies), currency)
  {
    if events != [] {
      var before := events[..|events| - 1];
      var fee, quantum := LastFee(state, events, currency, policies);
      FeesAreSums(state, before, currency, policies);
      FeesCloser(Total(Replay(state, before, EventStep(policies)).value.fees, currency),
                 Total(state.fees, currency) + FeeSum(before, currency), FeeSlack(before, currency, policies), fee, quantum,
                 Total(Replay(state, events, EventStep(policies)).value.fees, currency), currency);
    }
  }

  // --- one symbol at a time

  /** The trades of one symbol, in event order. */
  function TradesOf(events: seq<LedgerEvent>, symbol: string, p: Policy): seq<Trade> {
    if events == [] then []
    else
      var n := |events| - 1;
      var e := events[n];
      TradesOf(events[..n], symbol, p)
      + if e.symbol == symbol && TradeOf(e, p).Some? then [TradeOf(e, p).value] else []
  }

  ghost predicate NoAdjustments(events: seq<LedgerEvent>) {
    forall i :: 0 <= i < |events| ==> !events[i].kind.Adjustment?
  }

  /** The run of one symbol's trades, from what the ledger held for it at the start. */
  ghost function BookOf(state: LedgerState, events: seq<LedgerEvent>, symbol: string, policies: Policies): Option<Book> {
    var p := policies(symbol);
    TradeAll(SymbolOf(state, symbol).lots, TradesOf(events, symbol, p), QtyRounding(p))
  }

  lemma {:induction false} BookOfStep(state: LedgerState, events: seq<LedgerEvent>, symbol: string, policies: Policies)
    requires events != []
    ensures var n := |events| - 1;
            var t := TradeOf(events[n], policies(symbol));
            var before := BookOf(state, events[..n], symbol, policies);
            BookOf(state, events, symbol, policies)
            == if before.None? || events[n].symbol != symbol || t.None? then before
               else match TradeOnce(before.value.lots, t.value, QtyRounding(policies(symbol)))
                    case None => None
                    case Some(b) => Some(Book(b.lots, before.value.gains + b.gains))
  {
    var n := |events| - 1;
    var before := TradesOf(events[..n], symbol, policies(symbol));
    assert before + [] == before;
    assert forall t :: (before + [t])[..|before|] == before;
  }

  /** Symbols do not interfere: each one's lots and realized PnL are what its own trades leave behind. */
  lemma {:induction false} SymbolsIndependent(
    state: LedgerState, events: seq<LedgerEvent>, symbol: string, policies: Policies)
    requires Replay(state, events, EventStep(policies)).Ok?
    ensures var final := SymbolOf(Replay(state, events, EventStep(policies)).value, symbol);
            var book := BookOf(state, events, symbol, policies);
            && book.Some? && final.lots == book.value.lots
            && (NoAdjustments(events) ==>
                  final.realizedPnl
                  == BookAll(SymbolOf(state, symbol).realizedPnl, book.value.gains, RunningTotal(QuoteRounding(policies(symbol)))))
  {
    if events != [] {
      var n := |events| - 1;
      SymbolsIndependent(state, events[..n], symbol, policies);
      BookOfStep(state, events, symbol, policies);
      var before := BookOf(state, events[..n], symbol, policies).value;
      var once := TradeOf(events[n], policies(symbol));
      if events[n].symbol == symbol && once.Some? {
        var b := TradeOnce(before.lots, once.value, QtyRounding(policies(symbol)));
        assert b.Some?;
        BookAllConcat(SymbolOf(state, symbol).realizedPnl, before.gains, b.value.gains, RunningTotal(QuoteRounding(policies(symbol))));
      }
    }
  }

  /** A fee event with an amount and a currency has no side, no quantity and no price. */
  ghost predicate ShapedLikeFee(e: LedgerEvent) {
    e.kind == FeeEvent && e.fee != None && e.feeCurrency != None && e.feeCurrency != Some("") ==>
      e.side == None && e.qty == 0.0 && e.price == None
  }

  ghost predicate FeesShaped(events: seq<LedgerEvent>) {
    forall i :: 0 <= i < |events| ==> ShapedLikeFee(events[i])
  }

  /** Whether the last event of a list can be applied is a matter of its own symbol and its own fee. */
  lemma {:induction false} LastEventSucceeds(state: LedgerState, events: seq<LedgerEvent>, policies: Policies)
    requires events != []
    requires Replay(state, events[..|events| - 1], EventStep(policies)).Ok?
    ensures var e := events[|events| - 1];
            Replay(state, events, EventStep(policies)).Ok?
            <==> (CarriesFee(e) ==> FeeShape(e)) && BookOf(state, events, e.symbol, policies).Some?
  {
    var n := |events| - 1;
    SymbolsIndependent(state, events[..n], events[n].symbol, policies);
    BookOfStep(state, events, events[n].symbol, policies);
  }

  ghost predicate AllBooks(state: LedgerState, events: seq<LedgerEvent>, policies: Policies) {
    forall symbol :: BookOf(state, events, symbol, policies).Some?
  }

  lemma {:induction false} AllBooksStep(state: LedgerState, events: seq<LedgerEvent>, policies: Policies)
    requires events != []
    ensures var n := |events| - 1;
            AllBooks(state, events, policies)
            <==> AllBooks(state, events[..n], policies) && BookOf(state, events, events[n].symbol, policies).Some?
  {
    forall symbol {
      BookOfStep(state, events, symbol, policies);
    }
  }

  /** A replay succeeds exactly when every symbol's own trades do and every fee event is shaped like one. */
  lemma {:induction false} SucceedsSymbolBySymbol(state: LedgerState, events: seq<LedgerEvent>, policies: Policies)
    ensures Replay(state, events, EventStep(policies)).Ok? <==> FeesShaped(events) && AllBooks(state, events, policies)
  {
    if events != [] {
      var n := |events| - 1;
      SucceedsSymbolBySymbol(state, events[..n], policies);
      AllBooksStep(state, events, policies);
      if Replay(state, events[..n], EventStep(policies)).Ok? {
        LastEventSucceeds(state, events, policies);
      }
    }
  }

  ghost predicate OnGrid(state: LedgerState, policies: Policies) {
    forall symbol :: WellFormed(SymbolOf(state, symbol).lots, QtyRounding(policies(symbol)))
  }

  ghost predicate NonNegativeFills(events: seq<LedgerEvent>) {
    forall i :: 0 <= i < |events| && events[i].kind.FillEvent? ==> events[i].qty >= 0.0
  }

  lemma {:induction false} TradesAreValid(events: seq<LedgerEvent>, symbol: string, p: Policy)
    requires NonNegativeFills(events)
    ensures ValidTrades(TradesOf(events, symbol, p), QtyRounding(p))
  {
    if events != [] {
      var n := |events| - 1;
      TradesAreValid(events[..n], symbol, p);
      ToStepIdempotent(events[n].qty, p.qtyStep);
    }
  }

  /**
   The ledger as a queue: from an on-grid state, a replay of non-negative fills fails exactly when a
   fee event is malformed or some sell, in order, exceeds what its symbol holds. Otherwise each symbol's
   lots are its buy queue with the units sold dropped from the front, and every lot is on the grid.
   */
  lemma {:induction false} LedgerIsQueue(state: LedgerState, events: seq<LedgerEvent>, policies: Policies)
    requires OnGrid(state, policies) && NonNegativeFills(events)
    ensures var r := Replay(state, events, EventStep(policies));
            && (r.Ok? <==>
                && FeesShaped(events)
                && forall symbol ::
                     Covered(SymbolOf(state, symbol).lots, TradesOf(events, symbol, policies(symbol))))
            && (r.Ok? ==>
                && OnGrid(r.value, policies)
                && forall symbol ::
                     var ts := TradesOf(events, symbol, policies(symbol));
                     SymbolOf(r.value, symbol).lots == DropUnits(SymbolOf(state, symbol).lots + Bought(ts), Sold(ts)))
  {
    SucceedsSymbolBySymbol(state, events, policies);
    forall symbol
      ensures BookOf(state, events, symbol, policies).Some?
         <==> Covered(SymbolOf(state, symbol).lots, TradesOf(events, symbol, policies(symbol)))
      ensures Replay(state, events, EventStep(policies)).Ok? ==>
                var lots := SymbolOf(Replay(state, events, EventStep(policies)).value, symbol).lots;
                var ts := TradesOf(events, symbol, policies(symbol));
                && WellFormed(lots, QtyRounding(policies(symbol)))
                && lots == DropUnits(SymbolOf(state, symbol).lots + Bought(ts), Sold(ts))
    {
      SymbolIsQueue(state, events, symbol, policies);
    }
  }

  lemma {:induction false} SymbolIsQueue(state: LedgerState, events: seq<LedgerEvent>, symbol: string, policies: Policies)
    requires NonNegativeFills(events)
    requires WellFormed(SymbolOf(state, symbol).lots, QtyRounding(policies(symbol)))
    ensures var ts := TradesOf(events, symbol, policies(symbol));
            var lots := SymbolOf(state, symbol).lots;
            && (BookOf(state, events, symbol, policies).Some? <==> Covered(lots, ts))
            && (Replay(state, events, EventStep(policies)).Ok? ==>
                  var lots' := SymbolOf(Replay(state, events, EventStep(policies)).value, symbol).lots;
                  WellFormed(lots', QtyRounding(policies(symbol))) && lots' == DropUnits(lots + Bought(ts), Sold(ts)))
  {
    var p := policies(symbol);
    var ts := TradesOf(events, symbol, p);
    TradesAreValid(events, symbol, p);
    RoundQtyGrid(p);
    RoundingVanishes(SymbolOf(state, symbol).lots, ts, QtyRounding(p));
    RunIsQueueSuffix(SymbolOf(state, symbol).lots, ts);
    if Replay(state, events, EventStep(policies)).Ok? {
      SymbolsIndependent(state, events, symbol, policies);
    }
  }
}
