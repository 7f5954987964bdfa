/**
 The self-financing accounting ledger: `recompute` removes duplicate events, sorts what is left by
 time and id, and replays it into cash, treasury and per-symbol FIFO state.
 */
module AccountingLedger {
  import opened Money
  import opened Results
  import opened Ordering
  import opened Fifo
  import opened Dedup

  datatype EventKind =
    | FillRecorded | FeeRecorded | FundingCostRecorded | SlippageRecorded | Transfer | Rebalance | Withdrawal

  /** An event as it arrives. Decimals are kept as text, because duplicates are compared as text. */
  datatype RawEvent = RawEvent(
    eventId: string, ts: Timestamp, kind: EventKind, symbol: Option<string>, side: Option<string>,
    qty: string, priceTry: Option<string>, amountTry: Option<string>, feeCurrency: Option<string>,
    referenceId: Option<string>, metadata: seq<(string, string)>)

  /** The number a decimal text denotes. */
  type Parse = string -> real

  // --- deduplication

  function KindText(kind: EventKind): string {
    match kind
    case FillRecorded => "FILL_RECORDED"
    case FeeRecorded => "FEE_RECORDED"
    case FundingCostRecorded => "FUNDING_COST_RECORDED"
    case SlippageRecorded => "SLIPPAGE_RECORDED"
    case Transfer => "TRANSFER"
    case Rebalance => "REBALANCE"
    case Withdrawal => "WITHDRAWAL"
  }

  function OrEmpty(o: Option<string>): string {
    if o.Some? then o.value else ""
  }

  /** `str(value or Decimal("0"))`. */
  function OrZero(o: Option<string>, parse: Parse): string {
    if o.Some? && parse(o.value) != 0.0 then o.value else "0"
  }

  function Flatten(items: seq<(string, string)>): seq<string> {
    if items == [] then [] else [items[0].0, items[0].1] + Flatten(items[1..])
  }

  datatype SortKey = SortKey(instant: int, texts: seq<string>)

  /** The tuple duplicates are ranked by. Its last component, a tuple of pairs, is written out flat. */
  function KeyOf(e: RawEvent, parse: Parse): SortKey {
    SortKey(e.ts.Instant(),
            [KindText(e.kind), OrEmpty(e.symbol), OrEmpty(e.side), e.qty, OrZero(e.priceTry, parse),
             OrZero(e.amountTry, parse), OrEmpty(e.feeCurrency), OrEmpty(e.referenceId)] + Flatten(e.metadata))
  }

  predicate SortKeyLeq(a: SortKey, b: SortKey) {
    a.instant < b.instant || (a.instant == b.instant && StringsLeq(a.texts, b.texts))
  }

  lemma {:induction false} SortKeyOrder()
    ensures TotalOrder(SortKeyLeq)
  {
    StringOrder();
  }

  function RawId(): RawEvent -> string {
    (e: RawEvent) => e.eventId
  }

  function RawLeq(parse: Parse): (RawEvent, RawEvent) -> bool {
    (a, b) => SortKeyLeq(KeyOf(a, parse), KeyOf(b, parse))
  }

  lemma {:induction false} RawPreorder(parse: Parse)
    ensures Preorder(RawLeq(parse))
  {
    SortKeyOrder();
  }

  /** The texts that rank events of one time, in turn. */
  function Component(e: RawEvent, k: nat, parse: Parse): string
    requires k < 8
  {
    if k == 0 then KindText(e.kind)
    else if k == 1 then OrEmpty(e.symbol)
    else if k == 2 then OrEmpty(e.side)
    else if k == 3 then e.qty
    else if k == 4 then OrZero(e.priceTry, parse)
    else if k == 5 then OrZero(e.amountTry, parse)
    else if k == 6 then OrEmpty(e.feeCurrency)
    else OrEmpty(e.referenceId)
  }

  lemma {:induction false} ComponentsRank(e: RawEvent, k: nat, parse: Parse)
    requires k < 8
    ensures k < |KeyOf(e, parse).texts| && KeyOf(e, parse).texts[k] == Component(e, k, parse)
  {
  }

  /** Of two events the earlier one ranks first; at one time, the first text in which they differ decides. */
  lemma {:induction false} RanksExactly(a: RawEvent, b: RawEvent, k: nat, parse: Parse)
    requires k < 8 && Component(a, k, parse) != Component(b, k, parse)
    requires forall i: nat :: i < k ==> Component(a, i, parse) == Component(b, i, parse)
    ensures RawLeq(parse)(a, b) <==>
              a.ts.Instant() < b.ts.Instant()
              || (a.ts.Instant() == b.ts.Instant() && TextFirst(Component(a, k, parse), Component(b, k, parse)))
  {
    var s, t := KeyOf(a, parse).texts, KeyOf(b, parse).texts;
    ComponentsRank(a, k, parse);
    ComponentsRank(b, k, parse);
    forall i: nat | i < k ensures s[i] == t[i] {
      ComponentsRank(a, i, parse);
      ComponentsRank(b, i, parse);
      assert Component(a, i, parse) == Component(b, i, parse);
    }
    FirstDifference(StringLeq, s, t, k);
    StringLeqExactly(s[k], t[k]);
  }

  // --- the events that are replayed

  /** What `recompute` reads of an event: missing fields defaulted, text upper-cased, time in UTC. */
  datatype Event = Event(
    eventId: string, instant: int, kind: EventKind, symbol: string, side: string, qty: real, price: real, amount: real)

  function View(e: RawEvent, parse: Parse): Event {
    Event(e.eventId, e.ts.Instant(), e.kind, Upper(OrEmpty(e.symbol)), Upper(OrEmpty(e.side)),
          parse(e.qty), parse(OrZero(e.priceTry, parse)), parse(OrZero(e.amountTry, parse)))
  }

  /** Missing decimals read as zero, given that the text "0" does. */
  lemma {:induction false} ViewReads(e: RawEvent, parse: Parse)
    requires parse("0") == 0.0
    ensures var v := View(e, parse);
            && v.eventId == e.eventId && v.kind == e.kind && v.instant == e.ts.Instant() && v.qty == parse(e.qty)
            && v.price == (if e.priceTry.Some? then parse(e.priceTry.value) else 0.0)
            && v.amount == (if e.amountTry.Some? then parse(e.amountTry.value) else 0.0)
            && v.symbol == (if e.symbol.Some? then Upper(e.symbol.value) else "")
            && v.side == (if e.side.Some? then Upper(e.side.value) else "")
  {
  }

  /** The ranking tuple and the id determine everything `recompute` reads. */
  lemma {:induction false} KeyDeterminesView(a: RawEvent, b: RawEvent, parse: Parse)
    requires a.eventId == b.eventId && KeyOf(a, parse) == KeyOf(b, parse)
    ensures View(a, parse) == View(b, parse)
  {
    var s, t := KeyOf(a, parse).texts, KeyOf(b, parse).texts;
    assert s[0] == t[0] && s[1] == t[1] && s[2] == t[2] && s[3] == t[3] && s[4] == t[4] && s[5] == t[5];
    KindTextInjective(a.kind, b.kind);
  }

  lemma {:induction false} KindTextInjective(a: EventKind, b: EventKind)
    requires KindText(a) == KindText(b)
    ensures a == b
  {
    assert |KindText(a)| == |KindText(b)|;
  }

  function EventKey(e: Event): Key {
    Key(e.instant, e.eventId)
  }

  predicate EventLeq(a: Event, b: Event) {
    KeyLeq(EventKey(a), EventKey(b))
  }

  function Select(kept: seq<RawEvent>, asOf: int, parse: Parse): seq<Event> {
    if kept == [] then []
    else (if kept[0].ts.Instant() <= asOf then [View(kept[0], parse)] else []) + Select(kept[1..], asOf, parse)
  }

  /** The deduplicated events up to `asOf`, in `(time, id)` order. */
  function Chronology(events: seq<RawEvent>, asOf: int, parse: Parse): seq<Event> {
    Sort(EventLeq, Select(Dedupe(RawId(), RawLeq(parse), events), asOf, parse))
  }

  lemma {:induction false} SelectContains(kept: seq<RawEvent>, asOf: int, parse: Parse, v: Event)
    ensures v in Select(kept, asOf, parse) <==>
            exists i :: 0 <= i < |kept| && kept[i].ts.Instant() <= asOf && View(kept[i], parse) == v
  {
    if kept != [] {
      SelectContains(kept[1..], asOf, parse, v);
      assert kept == [kept[0]] + kept[1..];
      assert forall i :: 0 <= i < |kept[1..]| ==> kept[1..][i] == kept[i + 1];
    }
  }

  function EventId(): Event -> string {
    (e: Event) => e.eventId
  }

  lemma {:induction false} SelectDistinct(kept: seq<RawEvent>, asOf: int, parse: Parse)
    requires DistinctIds(RawId(), kept)
    ensures DistinctIds(EventId(), Select(kept, asOf, parse))
  {
    if kept != [] {
      SelectDistinct(kept[1..], asOf, parse);
      var rest := Select(kept[1..], asOf, parse);
      forall j | 0 <= j < |rest| ensures rest[j].eventId != kept[0].eventId {
        SelectContains(kept[1..], asOf, parse, rest[j]);
        var i :| 0 <= i < |kept[1..]| && View(kept[1..][i], parse) == rest[j];
        assert RawId()(kept[0]) != RawId()(kept[i + 1]);
      }
    }
  }

  /** No event of the list has this id. */
  ghost predicate FreshId(id: string, s: seq<Event>) {
    forall i :: 0 <= i < |s| ==> s[i].eventId != id
  }

  lemma {:induction false} InsertDistinct(x: Event, s: seq<Event>)
    requires DistinctIds(EventId(), s) && FreshId(x.eventId, s)
    ensures DistinctIds(EventId(), Insert(EventLeq, x, s))
    ensures forall id :: FreshId(id, s) && id != x.eventId ==> FreshId(id, Insert(EventLeq, x, s))
  {
    if s == [] || EventLeq(x, s[0]) {
    } else {
      InsertDistinct(x, s[1..]);
      assert FreshId(s[0].eventId, s[1..]);
      forall id | FreshId(id, s) && id != x.eventId ensures FreshId(id, Insert(EventLeq, x, s)) {
        assert FreshId(id, s[1..]);
      }
    }
  }

  lemma {:induction false} SortDistinct(s: seq<Event>)
    requires DistinctIds(EventId(), s)
    ensures DistinctIds(EventId(), Sort(EventLeq, s))
    ensures forall id :: FreshId(id, s) ==> FreshId(id, Sort(EventLeq, s))
  {
    if s != [] {
      SortDistinct(s[1..]);
      assert FreshId(s[0].eventId, s[1..]);
      InsertDistinct(s[0], Sort(EventLeq, s[1..]));
      forall id | FreshId(id, s) ensures FreshId(id, Sort(EventLeq, s)) {
        assert FreshId(id, s[1..]) && id != s[0].eventId;
      }
    }
  }

  lemma {:induction false} EventOrder()
    ensures Preorder(EventLeq)
    ensures forall a, b :: EventLeq(a, b) && EventLeq(b, a) ==> a.eventId == b.eventId
  {
    KeyOrder();
    forall a: Event, b: Event | EventLeq(a, b) && EventLeq(b, a) ensures a.eventId == b.eventId {
      assert EventKey(a) == EventKey(b);
    }
  }

  lemma {:induction false} ChronologyStrict(events: seq<RawEvent>, asOf: int, parse: Parse)
    ensures StrictlySorted(EventLeq, Chronology(events, asOf, parse))
    ensures forall v :: v in Chronology(events, asOf, parse) <==>
                        v in Select(Dedupe(RawId(), RawLeq(parse), events), asOf, parse)
  {
    RawPreorder(parse);
    DedupeKeepsLeast(RawId(), RawLeq(parse), events);
    var kept := Dedupe(RawId(), RawLeq(parse), events);
    SelectDistinct(kept, asOf, parse);
    SortDistinct(Select(kept, asOf, parse));
    EventOrder();
    SortSorts(EventLeq, Select(kept, asOf, parse));
    var s := Chronology(events, asOf, parse);
    forall i, j | 0 <= i < j < |s| ensures !EventLeq(s[j], s[i]) {
      assert EventId()(s[i]) != EventId()(s[j]);
    }
  }

  lemma {:induction false} ChronologyContained(a: seq<RawEvent>, b: seq<RawEvent>, asOf: int, parse: Parse, v: Event)
    requires forall e :: e in a <==> e in b
    requires v in Select(Dedupe(RawId(), RawLeq(parse), a), asOf, parse)
    ensures v in Select(Dedupe(RawId(), RawLeq(parse), b), asOf, parse)
  {
    var ka, kb := Dedupe(RawId(), RawLeq(parse), a), Dedupe(RawId(), RawLeq(parse), b);
    SelectContains(ka, asOf, parse, v);
    var i :| 0 <= i < |ka| && ka[i].ts.Instant() <= asOf && View(ka[i], parse) == v;
    RawPreorder(parse);
    DedupeKeepsLeast(RawId(), RawLeq(parse), a);
    DedupeKeepsLeast(RawId(), RawLeq(parse), b);
    var y := KeptAgree(RawId(), RawLeq(parse), a, b, ka, kb, ka[i]);
    SortKeyOrder();
    assert KeyOf(y, parse) == KeyOf(ka[i], parse);
    KeyDeterminesView(y, ka[i], parse);
    SelectContains(kb, asOf, parse, v);
  }

  /**
   What is replayed depends only on which events arrived, not on their order or number of copies: for an
   id that arrived with conflicting contents, the same contents win every time.
   */
  lemma {:induction false} ChronologyIgnoresOrder(a: seq<RawEvent>, b: seq<RawEvent>, asOf: int, parse: Parse)
    requires forall e :: e in a <==> e in b
    ensures Chronology(a, asOf, parse) == Chronology(b, asOf, parse)
  {
    ChronologyStrict(a, asOf, parse);
    ChronologyStrict(b, asOf, parse);
    forall v ensures v in Chronology(a, asOf, parse) <==> v in Chronology(b, asOf, parse) {
      if v in Chronology(a, asOf, parse) {
        ChronologyContained(a, b, asOf, parse, v);
      }
      if v in Chronology(b, asOf, parse) {
        ChronologyContained(b, a, asOf, parse, v);
      }
    }
    EventOrder();
    StrictlySortedUnique(EventLeq, Chronology(a, asOf, parse), Chronology(b, asOf, parse));
  }

  /** Earlier events first, and events of one instant by id. */
  ghost predicate InTimeOrder(events: seq<Event>) {
    forall i, j :: 0 <= i < j < |events| ==>
      EarlierOrFirst(events[i].instant, events[i].eventId, events[j].instant, events[j].eventId)
  }

  /** Some event with this id that is not after `asOf` arrived first, and this is what is read of it. */
  ghost predicate EarliestOfItsId(events: seq<RawEvent>, e: RawEvent) {
    e in events && forall x :: x in events && x.eventId == e.eventId ==> e.ts.Instant() <= x.ts.Instant()
  }

  lemma {:induction false} ChronologyInOrder(events: seq<RawEvent>, asOf: int, parse: Parse)
    ensures InTimeOrder(Chronology(events, asOf, parse))
    ensures forall v :: v in Chronology(events, asOf, parse) <==> v in Select(Dedupe(RawId(), RawLeq(parse), events), asOf, parse)
  {
    var s := Chronology(events, asOf, parse);
    EventOrder();
    SortSorts(EventLeq, Select(Dedupe(RawId(), RawLeq(parse), events), asOf, parse));
    forall i, j | 0 <= i < j < |s| ensures EarlierOrFirst(s[i].instant, s[i].eventId, s[j].instant, s[j].eventId) {
      assert EventLeq(s[i], s[j]);
      KeyLeqExactly(EventKey(s[i]), EventKey(s[j]));
    }
  }

  /** An entry that is replayed. */
  lemma {:induction false} SelectedIsEarliest(events: seq<RawEvent>, asOf: int, parse: Parse, v: Event) returns (e: RawEvent)
    requires v in Select(Dedupe(RawId(), RawLeq(parse), events), asOf, parse)
    ensures v.instant <= asOf && EarliestOfItsId(events, e) && v == View(e, parse)
  {
    var kept := Dedupe(RawId(), RawLeq(parse), events);
    SelectContains(kept, asOf, parse, v);
    var k :| 0 <= k < |kept| && kept[k].ts.Instant() <= asOf && v == View(kept[k], parse);
    KeptIsEarliest(events, parse, k);
    e := kept[k];
  }

  /** An event that is early enough. */
  lemma {:induction false} EarliestIsSelected(events: seq<RawEvent>, asOf: int, parse: Parse, e: RawEvent) returns (v: Event)
    requires EarliestOfItsId(events, e) && e.ts.Instant() <= asOf
    ensures v in Select(Dedupe(RawId(), RawLeq(parse), events), asOf, parse) && v.eventId == e.eventId
  {
    var kept := Dedupe(RawId(), RawLeq(parse), events);
    RawPreorder(parse);
    DedupeKeepsLeast(RawId(), RawLeq(parse), events);
    var k := Representative(RawId(), RawLeq(parse), kept, e);
    KeptIsEarliest(events, parse, k);
    v := View(kept[k], parse);
    SelectContains(kept, asOf, parse, v);
  }

  /**
   What is replayed, in terms of times: the list is in time order and nothing in it is after `asOf`; each
   entry is read from an earliest event with its id; and an id is missing only if its earliest event is
   after `asOf`.
   */
  lemma {:induction false} ReplayedInTimeOrder(events: seq<RawEvent>, asOf: int, parse: Parse)
    ensures InTimeOrder(Chronology(events, asOf, parse))
    ensures forall v :: v in Chronology(events, asOf, parse) ==>
              v.instant <= asOf && exists e :: EarliestOfItsId(events, e) && v == View(e, parse)
    ensures forall e :: EarliestOfItsId(events, e) && e.ts.Instant() <= asOf ==>
              exists v :: v in Chronology(events, asOf, parse) && v.eventId == e.eventId
  {
    ChronologyInOrder(events, asOf, parse);
    forall v | v in Chronology(events, asOf, parse)
      ensures v.instant <= asOf && exists e :: EarliestOfItsId(events, e) && v == View(e, parse)
    {
      var e := SelectedIsEarliest(events, asOf, parse, v);
    }
    forall e | EarliestOfItsId(events, e) && e.ts.Instant() <= asOf
      ensures exists v :: v in Chronology(events, asOf, parse) && v.eventId == e.eventId
    {
      var v := EarliestIsSelected(events, asOf, parse, e);
      assert v in Chronology(events, asOf, parse);
    }
  }

  /** Of the events with one id an earliest one is kept. */
  lemma {:induction false} KeptIsEarliest(events: seq<RawEvent>, parse: Parse, k: nat)
    requires k < |Dedupe(RawId(), RawLeq(parse), events)|
    ensures EarliestOfItsId(events, Dedupe(RawId(), RawLeq(parse), events)[k])
  {
    var kept := Dedupe(RawId(), RawLeq(parse), events);
    RawPreorder(parse);
    DedupeKeepsLeast(RawId(), RawLeq(parse), events);
    forall x | x in events && x.eventId == kept[k].eventId ensures kept[k].ts.Instant() <= x.ts.Instant() {
      var j := Representative(RawId(), RawLeq(parse), kept, x);
      SameIdSameEvent(RawId(), kept, kept[k], j);
      RanksByTime(kept[k], x, parse);
    }
  }

  lemma {:induction false} RanksByTime(a: RawEvent, b: RawEvent, parse: Parse)
    requires RawLeq(parse)(a, b)
    ensures a.ts.Instant() <= b.ts.Instant()
  {
  }

  // --- the replay

  datatype SymbolState = SymbolState(
    lots: seq<Lot>, realizedPnl: real, fees: real, fundingCost: real, slippage: real)

  datatype State = State(symbols: map<string, SymbolState>, balance: real, treasury: real)

  datatype Oversell = Oversell(symbol: string, qty: real, eventId: string)

  /** `quantize_money` and `quantize_qty`. */
  datatype Rounding = Rounding(money: real -> real, qty: real -> real)

  function RoundingOf(p: Policy): Rounding {
    Rounding(QuoteRounding(p), QtyRounding(p))
  }

  /** The gain of every match is rounded on its own and then added. */
  function RoundedGains(money: real -> real): Booking {
    (realized, gain) => realized + money(gain)
  }

  function SymbolOf(state: State, symbol: string): SymbolState {
    if symbol in state.symbols then state.symbols[symbol] else SymbolState([], 0.0, 0.0, 0.0, 0.0)
  }

  function TradeOf(e: Event, rnd: Rounding): Option<Trade> {
    if !e.kind.FillRecorded? || e.symbol == "" then None
    else if e.side == "BUY" then
      Some(Buy(Lot(e.symbol, rnd.qty(Abs(e.qty)), rnd.money(e.price), Aware(e.instant, 0))))
    else if e.side == "SELL" then Some(Sell(rnd.qty(Abs(e.qty)), e.price))
    else None
  }

  function GrossValue(e: Event, rnd: Rounding): real {
    rnd.qty(Abs(e.qty)) * e.price
  }

  function Notional(e: Event, rnd: Rounding): real {
    rnd.money(GrossValue(e, rnd))
  }

  /** An amount that is always a cost, whatever its sign in the event. */
  function CostAmount(e: Event, rnd: Rounding): real {
    rnd.money(Abs(e.amount))
  }

  /** What the event does to its symbol. */
  function SymbolEffect(s: SymbolState, e: Event, rnd: Rounding): Result<SymbolState, Oversell> {
    match TradeOf(e, rnd)
    case Some(t) =>
      (match TradeOnce(s.lots, t, rnd.qty)
       case None => Err(Oversell(e.symbol, SellLots(s.lots, t.qty, rnd.qty).unfilled, e.eventId))
       case Some(b) => Ok(s.(lots := b.lots, realizedPnl := BookAll(s.realizedPnl, b.gains, RoundedGains(rnd.money)))))
    case None =>
      match e.kind
      case FeeRecorded => Ok(s.(fees := s.fees + CostAmount(e, rnd)))
      case FundingCostRecorded => Ok(s.(fundingCost := s.fundingCost + CostAmount(e, rnd)))
      case SlippageRecorded => Ok(s.(slippage := s.slippage + CostAmount(e, rnd)))
      case _ => Ok(s)
  }

  function Settle(s: SymbolState, rnd: Rounding): SymbolState {
    SymbolState(s.lots, rnd.money(s.realizedPnl), rnd.money(s.fees), rnd.money(s.fundingCost),
                rnd.money(s.slippage))
  }

  /** The change of the trading cash an event asks for, before the balance is rounded. */
  function CashFlow(e: Event, rnd: Rounding): real {
    match e.kind
    case FillRecorded =>
      if TradeOf(e, rnd).None? then 0.0 else if TradeOf(e, rnd).value.Buy? then -Notional(e, rnd) else Notional(e, rnd)
    case FeeRecorded => -CostAmount(e, rnd)
    case FundingCostRecorded => -CostAmount(e, rnd)
    case Withdrawal => -CostAmount(e, rnd)
    case Transfer => rnd.money(e.amount)
    case Rebalance => -rnd.money(e.amount)
    case SlippageRecorded => 0.0
  }

  predicate MovesCash(e: Event, rnd: Rounding) {
    !e.kind.SlippageRecorded? && (e.kind.FillRecorded? ==> TradeOf(e, rnd).Some?)
  }

  function ApplyOne(state: State, e: Event, rnd: Rounding): Result<State, Oversell> {
    match SymbolEffect(SymbolOf(state, e.symbol), e, rnd)
    case Err(error) => Err(error)
    case Ok(s) =>
      Ok(State(
           if e.symbol == "" then state.symbols else state.symbols[e.symbol := Settle(s, rnd)],
           if MovesCash(e, rnd) then rnd.money(state.balance + CashFlow(e, rnd)) else state.balance,
           if e.kind.Rebalance? then rnd.money(state.treasury + rnd.money(e.amount)) else state.treasury))
  }

  function EventStep(rnd: Rounding): (State, Event) -> Result<State, Oversell> {
    (state, e) => ApplyOne(state, e, rnd)
  }

  function Start(tradingCapital: real, treasury: real, rnd: Rounding): State {
    State(map[], rnd.money(tradingCapital), rnd.money(treasury))
  }

  function Recompute(events: seq<RawEvent>, asOf: int, tradingCapital: real, treasury: real, parse: Parse, rnd: Rounding)
    : Result<State, Oversell>
  {
    Replay(Start(tradingCapital, treasury, rnd), Chronology(events, asOf, parse), EventStep(rnd))
  }

  /** The fill branch of the replay loop: lots, realized PnL and balance. */
  method ApplyFill(s: SymbolState, balance0: real, event: Event, rnd: Rounding)
    returns (r: Result<SymbolState, Oversell>, balance: real)
    requires rnd.qty(0.0) == 0.0 && event.kind.FillRecorded? && event.symbol != ""
    ensures r == SymbolEffect(s, event, rnd)
    ensures r.Ok? ==> balance == if event.side == "BUY" || event.side == "SELL" then rnd.money(balance0 + CashFlow(event, rnd)) else balance0
  {
    balance := balance0;
    var lots, realized := s.lots, s.realizedPnl;
    var qty := rnd.qty(Abs(event.qty));
    var notional := Notional(event, rnd);
    if event.side == "BUY" {
      lots := lots + [Lot(event.symbol, qty, rnd.money(event.price), Aware(event.instant, 0))];
      balance := rnd.money(balance - notional);
    } else if event.side == "SELL" {
      var remaining;
      lots, realized, remaining := MatchSell(lots, qty, event.price, realized, rnd.qty, RoundedGains(rnd.money));
      if remaining > 0.0 {
        return Err(Oversell(event.symbol, remaining, event.eventId)), balance;
      }
      balance := rnd.money(balance + notional);
    }
    r := Ok(s.(lots := lots, realizedPnl := realized));
  }

  /** The body of the replay loop, field by field. */
  method ApplyEvent(state: State, event: Event, rnd: Rounding) returns (r: Result<State, Oversell>)
    requires rnd.qty(0.0) == 0.0
    ensures r == ApplyOne(state, event, rnd)
  {
    var s := SymbolOf(state, event.symbol);
    var balance, treasury := state.balance, state.treasury;
    if event.kind.FillRecorded? && event.symbol != "" {
      var filled;
      filled, balance := ApplyFill(s, balance, event, rnd);
      if filled.Err? {
        return Err(filled.error);
      }
      s := filled.value;
    }
    if event.kind.FeeRecorded? {
      s := s.(fees := s.fees + CostAmount(event, rnd));
      balance := rnd.money(balance - CostAmount(event, rnd));
    }
    if event.kind.FundingCostRecorded? {
      s := s.(fundingCost := s.fundingCost + CostAmount(event, rnd));
      balance := rnd.money(balance - CostAmount(event, rnd));
    }
    if event.kind.SlippageRecorded? {
      s := s.(slippage := s.slippage + CostAmount(event, rnd));
    }
    if event.kind.Transfer? {
      balance := rnd.money(balance + rnd.money(event.amount));
    }
    if event.kind.Rebalance? {
      treasury := rnd.money(treasury + rnd.money(event.amount));
      balance := rnd.money(balance - rnd.money(event.amount));
    }
    if event.kind.Withdrawal? {
      balance := rnd.money(balance - CostAmount(event, rnd));
    }
    var symbols := state.symbols;
    if event.symbol != "" {
      symbols := symbols[event.symbol := Settle(s, rnd)];
    }
    r := Ok(State(symbols, balance, treasury));
  }

  method RecomputeLedger(events: seq<RawEvent>, asOf: int, tradingCapital: real, treasury: real, parse: Parse, rnd: Rounding)
    returns (r: Result<State, Oversell>)
    requires rnd.qty(0.0) == 0.0
    ensures r == Recompute(events, asOf, tradingCapital, treasury, parse, rnd)
  {
    var deduped := DedupeAll(RawId(), RawLeq(parse), events);
    var ordered := Sort(EventLeq, Select(deduped, asOf, parse));
    var start := Start(tradingCapital, treasury, rnd);
    r := Ok(start);
    for i := 0 to |ordered|
      invariant r.Ok? && r == Replay(start, ordered[..i], EventStep(rnd))
    {
      ReplayStep(start, ordered, i, EventStep(rnd));
      r := ApplyEvent(r.value, ordered[i], rnd);
      if r.Err? {
        ReplayFailed(start, ordered, i + 1, EventStep(rnd));
        return;
      }
    }
    assert ordered[..|ordered|] == ordered;
  }

  /** Any permutation of the events, with any extra copies, gives the same state or the same oversell. */
  lemma {:induction false} RecomputeIgnoresOrder(
    a: seq<RawEvent>, b: seq<RawEvent>, asOf: int, tradingCapital: real, treasury: real, parse: Parse, rnd: Rounding)
    requires forall e :: e in a <==> e in b
    ensures Recompute(a, asOf, tradingCapital, treasury, parse, rnd) == Recompute(b, asOf, tradingCapital, treasury, parse, rnd)
  {
    ChronologyIgnoresOrder(a, b, asOf, parse);
  }

  // --- conservation of cash

  /** A fill of a known side of a named symbol. */
  predicate IsTrade(e: Event) {
    e.kind.FillRecorded? && e.symbol != "" && (e.side == "BUY" || e.side == "SELL")
  }

  /** The money an event itself brings into the account or takes out of it. */
  function OwnAmount(e: Event, money: real -> real): real {
    match e.kind
    case FeeRecorded => -money(Abs(e.amount))
    case FundingCostRecorded => -money(Abs(e.amount))
    case Withdrawal => -money(Abs(e.amount))
    case Transfer => money(e.amount)
    case FillRecorded => 0.0
    case SlippageRecorded => 0.0
    case Rebalance => 0.0
  }

  /**
   Money that enters or leaves the account: a buy pays for its rounded quantity, a sell is paid, and every
   other event moves its own amount. A rebalance only moves money between cash and treasury.
   */
  function ExternalFlow(e: Event, rnd: Rounding): real {
    var paid := rnd.money(rnd.qty(Abs(e.qty)) * e.price);
    if IsTrade(e) then if e.side == "BUY" then -paid else paid
    else OwnAmount(e, rnd.money)
  }

  ghost function TotalFlow(events: seq<Event>, rnd: Rounding): real {
    if events == [] then 0.0
    else
      var n := |events| - 1;
      TotalFlow(events[..n], rnd) + ExternalFlow(events[n], rnd)
  }

  lemma {:induction false} SumRounds(x: real, y: real, round: real -> real, q: real)
    requires MoneyRounding(round, q) && round(x) == x && round(y) == y
    ensures round(x + y) == x + y && round(-y) == -y
  {
    assert Residue(round, 0.0, y) == 0.0;
    assert Residue(round, x, 0.0 - y) == 0.0;
  }

  lemma {:induction false} FlowRounds(e: Event, rnd: Rounding, q: real)
    requires MoneyRounding(rnd.money, q)
    ensures rnd.money(CashFlow(e, rnd)) == CashFlow(e, rnd)
  {
    var round := rnd.money;
    assert Unsettled(round, e.amount) == 0.0 && Unsettled(round, Abs(e.amount)) == 0.0;
    assert Unsettled(round, GrossValue(e, rnd)) == 0.0;
    SumRounds(0.0, round(e.amount), round, q);
    SumRounds(0.0, CostAmount(e, rnd), round, q);
    SumRounds(0.0, Notional(e, rnd), round, q);
  }

  /** The external flow is the cash flow, except for a rebalance. */
  lemma {:induction false} FlowIsExternal(e: Event, rnd: Rounding)
    ensures ExternalFlow(e, rnd) == if e.kind.Rebalance? then 0.0 else CashFlow(e, rnd)
  {
    var gross := rnd.qty(Abs(e.qty)) * e.price;
    assert GrossValue(e, rnd) == gross;
    assert Notional(e, rnd) == rnd.money(gross);
  }

  lemma {:induction false} CashStep(state: State, e: Event, rnd: Rounding, q: real)
    requires MoneyRounding(rnd.money, q) && ApplyOne(state, e, rnd).Ok?
    requires rnd.money(state.balance) == state.balance && rnd.money(state.treasury) == state.treasury
    ensures var s := ApplyOne(state, e, rnd).value;
            && rnd.money(s.balance) == s.balance && rnd.money(s.treasury) == s.treasury
            && s.balance + s.treasury == state.balance + state.treasury + ExternalFlow(e, rnd)
  {
    FlowRounds(e, rnd, q);
    FlowIsExternal(e, rnd);
    assert Unsettled(rnd.money, e.amount) == 0.0;
    SumRounds(state.balance, CashFlow(e, rnd), rnd.money, q);
    SumRounds(state.treasury, rnd.money(e.amount), rnd.money, q);
  }

  /** Self-financing: cash and treasury together change by exactly the rounded external flows. */
  lemma {:induction false} CashIsConserved(tradingCapital: real, treasury: real, events: seq<Event>, rnd: Rounding, q: real)
    requires MoneyRounding(rnd.money, q)
    requires Replay(Start(tradingCapital, treasury, rnd), events, EventStep(rnd)).Ok?
    ensures var s := Replay(Start(tradingCapital, treasury, rnd), events, EventStep(rnd)).value;
            && rnd.money(s.balance) == s.balance && rnd.money(s.treasury) == s.treasury
            && s.balance + s.treasury
               == rnd.money(tradingCapital) + rnd.money(treasury) + TotalFlow(events, rnd)
  {
    if events == [] {
      assert Unsettled(rnd.money, tradingCapital) == 0.0 && Unsettled(rnd.money, treasury) == 0.0;
    } else {
      var n := |events| - 1;
      CashIsConserved(tradingCapital, treasury, events[..n], rnd, q);
      CashStep(Replay(Start(tradingCapital, treasury, rnd), events[..n], EventStep(rnd)).value, events[n], rnd, q);
    }
  }
}
