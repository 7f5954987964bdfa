/**
 Ledger checkpoints: the JSON payload a state is saved as, and replay resumed from it. A JSON object
 dumped with sorted keys is determined by its entries, so an object is a map; decimal text is lossless.
 */
module LedgerCheckpoint {
  import opened Money
  import opened Results
  import opened Ordering
  import opened Fifo
  import opened DomainLedger

  datatype LotPayload = LotPayload(qty: real, unitCost: real, openedAt: Timestamp)

  datatype SymbolPayload = SymbolPayload(lots: seq<LotPayload>, realizedPnl: real)

  datatype Payload = Payload(symbols: map<string, SymbolPayload>, feesByCurrency: map<string, real>)

  function SerializeLots(lots: seq<Lot>): seq<LotPayload> {
    seq(|lots|, i requires 0 <= i < |lots| => LotPayload(lots[i].qty, lots[i].unitCost, lots[i].openedAt.EnsureUtc()))
  }

  function Serialize(state: LedgerState): Payload {
    Payload(
      map symbol | symbol in state.symbols ::
        SymbolPayload(SerializeLots(state.symbols[symbol].lots), state.symbols[symbol].realizedPnl),
      state.fees)
  }

  function DeserializeLots(symbol: string, lots: seq<LotPayload>): seq<Lot> {
    seq(|lots|, i requires 0 <= i < |lots| =>
      Lot(symbol, lots[i].qty, lots[i].unitCost, lots[i].openedAt.EnsureUtc()))
  }

  /** A lot's symbol is not stored with it: it is read back from the key it was stored under. */
  function Deserialize(payload: Payload): LedgerState {
    LedgerState(
      map symbol | symbol in payload.symbols ::
        SymbolLedger(symbol, DeserializeLots(symbol, payload.symbols[symbol].lots), payload.symbols[symbol].realizedPnl),
      payload.feesByCurrency)
  }

  // --- what a save and load can change: timestamps become UTC, symbols become the key

  function CanonicalLots(symbol: string, lots: seq<Lot>): (r: seq<Lot>)
    ensures |r| == |lots|
  {
    if lots == [] then []
    else [lots[0].(symbol := symbol, openedAt := lots[0].openedAt.EnsureUtc())] + CanonicalLots(symbol, lots[1..])
  }

  function Canonical(state: LedgerState): LedgerState {
    LedgerState(
      map symbol | symbol in state.symbols ::
        SymbolLedger(symbol, CanonicalLots(symbol, state.symbols[symbol].lots), state.symbols[symbol].realizedPnl),
      state.fees)
  }

  ghost predicate UtcLot(lot: Lot, symbol: string) {
    lot.symbol == symbol && lot.openedAt.Aware? && lot.openedAt.offset == 0
  }

  lemma {:induction false} CanonicalLotsAt(symbol: string, lots: seq<Lot>, i: nat)
    requires i < |lots|
    ensures CanonicalLots(symbol, lots)[i] == lots[i].(symbol := symbol, openedAt := lots[i].openedAt.EnsureUtc())
  {
    if i > 0 {
      CanonicalLotsAt(symbol, lots[1..], i - 1);
    }
  }

  lemma {:induction false} LotsRoundTrip(symbol: string, lots: seq<Lot>)
    ensures DeserializeLots(symbol, SerializeLots(lots)) == CanonicalLots(symbol, lots)
    ensures CanonicalLots(symbol, lots) == lots <==> forall i :: 0 <= i < |lots| ==> UtcLot(lots[i], symbol)
  {
    forall i: nat | i < |lots| {
      CanonicalLotsAt(symbol, lots, i);
    }
    forall i: nat | i < |lots|
      ensures CanonicalLots(symbol, lots)[i] == lots[i] <==> UtcLot(lots[i], symbol)
    {
      CanonicalLotsAt(symbol, lots, i);
    }
  }

  /** One symbol of a state that a save and load leaves as it is. */
  ghost predicate Stable(symbol: string, ledger: SymbolLedger) {
    ledger.symbol == symbol && forall i :: 0 <= i < |ledger.lots| ==> UtcLot(ledger.lots[i], symbol)
  }

  /** Every entry is stored under its own symbol and every lot was opened at a UTC time. */
  ghost predicate KeyedAndUtc(state: LedgerState) {
    forall symbol :: symbol in state.symbols ==> Stable(symbol, state.symbols[symbol])
  }

  lemma {:induction false} LoadedIsCanonical(state: LedgerState)
    ensures Deserialize(Serialize(state)) == Canonical(state)
  {
    forall symbol | symbol in state.symbols
      ensures Deserialize(Serialize(state)).symbols[symbol] == Canonical(state).symbols[symbol]
    {
      LotsRoundTrip(symbol, state.symbols[symbol].lots);
    }
    assert Deserialize(Serialize(state)).symbols == Canonical(state).symbols;
  }

  lemma {:induction false} CanonicalExactly(state: LedgerState)
    ensures Canonical(state) == state <==> KeyedAndUtc(state)
  {
    var c := Canonical(state);
    forall symbol | symbol in state.symbols
      ensures c.symbols[symbol] == state.symbols[symbol] <==> Stable(symbol, state.symbols[symbol])
    {
      LotsRoundTrip(symbol, state.symbols[symbol].lots);
    }
    assert c.symbols == state.symbols <==>
           forall symbol :: symbol in state.symbols ==> c.symbols[symbol] == state.symbols[symbol];
  }

  /** Loading a saved state gives its canonical form, which is the state itself exactly when it was keyed and in UTC. */
  lemma {:induction false} RoundTrip(state: LedgerState)
    ensures Deserialize(Serialize(state)) == Canonical(state)
    ensures Deserialize(Serialize(state)) == state <==> KeyedAndUtc(state)
  {
    LoadedIsCanonical(state);
    CanonicalExactly(state);
  }

  // --- replay does not see the difference

  lemma {:induction false} CanonicalConcat(symbol: string, a: seq<Lot>, b: seq<Lot>)
    ensures CanonicalLots(symbol, a + b) == CanonicalLots(symbol, a) + CanonicalLots(symbol, b)
  {
    if a == [] {
      assert a + b == b;
    } else {
      assert (a + b)[1..] == a[1..] + b;
      CanonicalConcat(symbol, a[1..], b);
    }
  }

  lemma {:induction false} SellCommutes(symbol: string, lots: seq<Lot>, qty: real, round: real -> real)
    ensures var sale := SellLots(lots, qty, round);
            SellLots(CanonicalLots(symbol, lots), qty, round) == sale.(rest := CanonicalLots(symbol, sale.rest))
    decreases |lots|
  {
    if qty > 0.0 && lots != [] {
      var lot := lots[0];
      var matched := Min(qty, lot.qty);
      var leftover := round(lot.qty - matched);
      assert CanonicalLots(symbol, lots)[1..] == CanonicalLots(symbol, lots[1..]);
      if leftover <= 0.0 {
        SellCommutes(symbol, lots[1..], round(qty - matched), round);
      } else {
        assert ([lot.(qty := leftover)] + lots[1..])[1..] == lots[1..];
      }
    }
  }

  /** Equal up to what a save and load can change. */
  ghost predicate SameSymbol(symbol: string, a: SymbolLedger, b: SymbolLedger) {
    CanonicalLots(symbol, a.lots) == CanonicalLots(symbol, b.lots) && a.realizedPnl == b.realizedPnl
  }

  lemma {:induction false} TradeCommutes(symbol: string, a: seq<Lot>, b: seq<Lot>, t: Trade, round: real -> real)
    requires CanonicalLots(symbol, a) == CanonicalLots(symbol, b)
    ensures var x, y := TradeOnce(a, t, round), TradeOnce(b, t, round);
            && x.Some? == y.Some?
            && (x.Some? ==> CanonicalLots(symbol, x.value.lots) == CanonicalLots(symbol, y.value.lots) && x.value.gains == y.value.gains)
            && (x.None? ==> SellLots(a, t.qty, round).unfilled == SellLots(b, t.qty, round).unfilled)
  {
    match t {
      case Buy(lot) =>
        CanonicalConcat(symbol, a, [lot]);
        CanonicalConcat(symbol, b, [lot]);
      case Sell(qty, price) =>
        SellCommutes(symbol, a, qty, round);
        SellCommutes(symbol, b, qty, round);
    }
  }

  lemma {:induction false} SymbolCommutes(a: SymbolLedger, b: SymbolLedger, e: LedgerEvent, p: Policy)
    requires SameSymbol(e.symbol, a, b)
    ensures var x, y := ApplyToSymbol(a, e, p), ApplyToSymbol(b, e, p);
            if x.Ok? then y.Ok? && SameSymbol(e.symbol, x.value, y.value) else x == y
  {
    if TradeOf(e, p).Some? {
      TradeCommutes(e.symbol, a.lots, b.lots, TradeOf(e, p).value, QtyRounding(p));
    }
  }

  ghost predicate Same(a: LedgerState, b: LedgerState) {
    && a.fees == b.fees && a.symbols.Keys == b.symbols.Keys
    && forall symbol :: symbol in a.symbols ==> SameSymbol(symbol, a.symbols[symbol], b.symbols[symbol])
  }

  ghost predicate SameResult(a: Result<LedgerState, LedgerError>, b: Result<LedgerState, LedgerError>) {
    if a.Ok? then b.Ok? && Same(a.value, b.value) else a == b
  }

  lemma {:induction false} StepCommutes(a: LedgerState, b: LedgerState, e: LedgerEvent, policies: Policies)
    requires Same(a, b)
    ensures SameResult(ApplyOne(a, e, policies), ApplyOne(b, e, policies))
  {
    SymbolCommutes(SymbolOf(a, e.symbol), SymbolOf(b, e.symbol), e, policies(e.symbol));
  }

  lemma {:induction false} ReplayCommutes(a: LedgerState, b: LedgerState, events: seq<LedgerEvent>, policies: Policies)
    requires Same(a, b)
    ensures SameResult(Replay(a, events, EventStep(policies)), Replay(b, events, EventStep(policies)))
  {
    if events != [] {
      var n := |events| - 1;
      ReplayCommutes(a, b, events[..n], policies);
      var x, y := Replay(a, events[..n], EventStep(policies)), Replay(b, events[..n], EventStep(policies));
      if x.Ok? {
        StepCommutes(x.value, y.value, events[n], policies);
      }
    }
  }

  lemma {:induction false} CanonicalTwice(symbol: string, lots: seq<Lot>)
    ensures CanonicalLots(symbol, CanonicalLots(symbol, lots)) == CanonicalLots(symbol, lots)
  {
    if lots != [] {
      assert CanonicalLots(symbol, lots)[1..] == CanonicalLots(symbol, lots[1..]);
      CanonicalTwice(symbol, lots[1..]);
    }
  }

  lemma {:induction false} CanonicalIsSame(state: LedgerState)
    ensures Same(Canonical(state), state)
  {
    forall symbol | symbol in state.symbols {
      CanonicalTwice(symbol, state.symbols[symbol].lots);
    }
  }

  /**
   Saving the checkpoint and resuming from the loaded copy gives the full replay up to the form of the
   lots' opening times, for every split of the events in key order, and fails with the same error.
   */
  lemma {:induction false} ReplayThroughSerialization(state: LedgerState, a: seq<LedgerEvent>, b: seq<LedgerEvent>, policies: Policies)
    requires AllLeq(EventLeq, a, b)
    ensures match Apply(state, a, policies)
            case Err(error) => Apply(state, a + b, policies) == Err(error)
            case Ok(checkpoint) =>
              SameResult(Apply(Deserialize(Serialize(checkpoint)), b, policies), Apply(state, a + b, policies))
  {
    CheckpointedReplay(state, a, b, policies);
    match Apply(state, a, policies) {
      case Err(_) =>
      case Ok(checkpoint) =>
        LoadedIsCanonical(checkpoint);
        CanonicalIsSame(checkpoint);
        ReplayCommutes(Canonical(checkpoint), checkpoint, Sort(EventLeq, b), policies);
    }
  }

  /** With keyed UTC states and UTC event times the loaded checkpoint is the checkpoint, so the replays are equal. */
  lemma {:induction false} ReplayThroughSerializationUtc(state: LedgerState, a: seq<LedgerEvent>, b: seq<LedgerEvent>, policies: Policies)
    requires AllLeq(EventLeq, a, b) && KeyedAndUtc(state) && UtcEvents(a)
    ensures Apply(state, a + b, policies)
         == match Apply(state, a, policies)
            case Err(error) => Err(error)
            case Ok(checkpoint) => Apply(Deserialize(Serialize(checkpoint)), b, policies)
  {
    CheckpointedReplay(state, a, b, policies);
    EventPreorder();
    SortSorts(EventLeq, a);
    UtcKept(state, Sort(EventLeq, a), policies);
    if Apply(state, a, policies).Ok? {
      RoundTrip(Apply(state, a, policies).value);
    }
  }

  ghost predicate UtcEvents(events: seq<LedgerEvent>) {
    forall e :: e in events ==> e.ts.Aware? && e.ts.offset == 0
  }

  lemma {:induction false} UtcKept(state: LedgerState, events: seq<LedgerEvent>, policies: Policies)
    requires KeyedAndUtc(state) && UtcEvents(events)
    ensures Replay(state, events, EventStep(policies)).Ok? ==>
              KeyedAndUtc(Replay(state, events, EventStep(policies)).value)
  {
    if events != [] {
      var n := |events| - 1;
      UtcKept(state, events[..n], policies);
      var r := Replay(state, events[..n], EventStep(policies));
      if r.Ok? {
        assert events[n] in events;
        UtcKeptByStep(r.value, events[n], policies);
      }
    }
  }

  /** A canonical symbol ledger stays canonical: selling commutes with canonicalisation. */
  lemma {:induction false} StableAfter(current: SymbolLedger, e: LedgerEvent, p: Policy)
    requires CanonicalLots(e.symbol, current.lots) == current.lots && e.ts.Aware? && e.ts.offset == 0
    ensures var r := ApplyToSymbol(current, e, p);
            r.Ok? ==> r.value.symbol == e.symbol && CanonicalLots(e.symbol, r.value.lots) == r.value.lots
  {
    match TradeOf(e, p) {
      case None =>
      case Some(Buy(lot)) => CanonicalConcat(e.symbol, current.lots, [lot]);
      case Some(Sell(qty, price)) => SellCommutes(e.symbol, current.lots, qty, QtyRounding(p));
    }
  }

  lemma {:induction false} UtcKeptByStep(state: LedgerState, e: LedgerEvent, policies: Policies)
    requires KeyedAndUtc(state) && e.ts.Aware? && e.ts.offset == 0
    ensures ApplyOne(state, e, policies).Ok? ==> KeyedAndUtc(ApplyOne(state, e, policies).value)
  {
    var current := SymbolOf(state, e.symbol);
    LotsRoundTrip(e.symbol, current.lots);
    StableAfter(current, e, policies(e.symbol));
    var r := ApplyToSymbol(current, e, policies(e.symbol));
    if r.Ok? {
      LotsRoundTrip(e.symbol, r.value.lots);
      assert Stable(e.symbol, r.value);
    }
  }
}
