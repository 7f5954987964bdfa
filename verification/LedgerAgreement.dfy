/**
 The two FIFO ledgers on the same fills. They hold the same lots and oversell at the same fills; they
 round realized PnL at different points, and drift apart by at most one quote quantum per lot match.
 */
module LedgerAgreement {
  import opened Money
  import opened Results
  import opened Ordering
  import opened Fifo
  import opened Dedup
  import D = DomainLedger
  import A = AccountingLedger
  import opened LedgerCheckpoint

  /** A fill as both ledgers receive it; decimals are text. */
  datatype Fill = Fill(id: string, ts: Timestamp, symbol: string, side: string, qty: string, price: string)

  function ToDomain(f: Fill, parse: A.Parse): D.LedgerEvent {
    D.LedgerEvent(f.id, f.ts, f.symbol, D.FillEvent, Some(f.side), parse(f.qty), Some(parse(f.price)), None, None)
  }

  function ToRaw(f: Fill): A.RawEvent {
    A.RawEvent(f.id, f.ts, A.FillRecorded, Some(f.symbol), Some(f.side), f.qty, Some(f.price), None, None, None, [])
  }

  /** A fill of a canonical symbol whose quantity and price rounding leaves alone. */
  ghost predicate OnGrid(f: Fill, parse: A.Parse, p: Policy) {
    && f.symbol != "" && Upper(f.symbol) == f.symbol
    && Quantity(parse(f.qty), QtyRounding(p))
    && RoundPrice(parse(f.price), p) == parse(f.price) && RoundQuote(parse(f.price), p) == parse(f.price)
  }

  // --- the two realized PnLs

  /** The realized PnL of one symbol in the two ledgers, after a number of lot matches. */
  datatype Gap = Gap(domain: real, accounting: real, matches: nat)

  /** Within one quantum per match of each other, both on the quantum. */
  ghost function Drift(money: real -> real, q: real): Gap -> bool {
    (g: Gap) => money(g.domain) == g.domain && money(g.accounting) == g.accounting
                && Abs(g.domain - g.accounting) <= Quanta(g.matches, q)
  }

  /** Rounding the running total and rounding the gain differ by at most one more quantum. */
  lemma {:induction false} DriftOnce(r1: real, r2: real, n: nat, gain: real, money: real -> real, q: real)
    requires MoneyRounding(money, q) && Drift(money, q)(Gap(r1, r2, n))
    ensures Drift(money, q)(Gap(money(r1 + gain), r2 + money(gain), n + 1))
  {
    assert Unsettled(money, r1 + gain) == 0.0 && Unsettled(money, gain) == 0.0;
    assert Residue(money, 0.0, money(gain)) == 0.0;
    assert Residue(money, r2, 0.0 - money(gain)) == 0.0;
    assert ShiftError(money, r1, gain) <= q;
  }

  lemma {:induction false} DriftKept(r1: real, r2: real, n: nat, gains: seq<real>, money: real -> real, q: real)
    requires MoneyRounding(money, q) && Drift(money, q)(Gap(r1, r2, n))
    ensures Drift(money, q)(Gap(BookAll(r1, gains, D.RunningTotal(money)),
                                BookAll(r2, gains, A.RoundedGains(money)), n + |gains|))
    decreases |gains|
  {
    if gains != [] {
      DriftOnce(r1, r2, n, gains[0], money, q);
      DriftKept(money(r1 + gains[0]), r2 + money(gains[0]), n + 1, gains[1..], money, q);
    }
  }

  /** A relation between the two realized PnLs that booking the same gains on both sides keeps. */
  ghost predicate Keeps(near: Gap -> bool, money: real -> real) {
    forall r1, r2, n: nat, gains :: near(Gap(r1, r2, n)) ==>
      near(Gap(BookAll(r1, gains, D.RunningTotal(money)), money(BookAll(r2, gains, A.RoundedGains(money))), n + |gains|))
  }

  lemma {:induction false} DriftKeeps(money: real -> real, q: real)
    requires MoneyRounding(money, q)
    ensures Keeps(Drift(money, q), money)
  {
    forall r1, r2, n: nat, gains | Drift(money, q)(Gap(r1, r2, n))
      ensures Drift(money, q)(Gap(BookAll(r1, gains, D.RunningTotal(money)),
                                  money(BookAll(r2, gains, A.RoundedGains(money))), n + |gains|))
    {
      DriftKept(r1, r2, n, gains, money, q);
    }
  }

  // --- one symbol, one fill

  function ToEvent(f: Fill, parse: A.Parse): A.Event {
    A.View(ToRaw(f), parse)
  }

  /** The same trade on both sides, up to the form of a lot's opening time. */
  ghost predicate SameTrade(symbol: string, d: Option<Trade>, a: Option<Trade>) {
    && d.Some? == a.Some?
    && (d.Some? && d.value.Sell? ==> a.value == d.value)
    && (d.Some? && d.value.Buy? ==>
          a.value.Buy? && d.value.lot.symbol == symbol
          && a.value.lot == d.value.lot.(openedAt := d.value.lot.openedAt.EnsureUtc()))
  }

  /** What the simulation needs of a fill: both ledgers read it as the same trade of the same symbol. */
  ghost predicate ReadAlike(f: Fill, parse: A.Parse, p: Policy, rnd: A.Rounding) {
    && ToEvent(f, parse).symbol == f.symbol != ""
    && SameTrade(f.symbol, D.TradeOf(ToDomain(f, parse), p), A.TradeOf(ToEvent(f, parse), rnd))
  }

  lemma {:induction false} OnGridReadAlike(f: Fill, parse: A.Parse, p: Policy)
    requires OnGrid(f, parse, p) && parse("0") == 0.0
    ensures ReadAlike(f, parse, p, A.RoundingOf(p))
  {
    assert A.OrZero(Some(f.price), parse) == if parse(f.price) != 0.0 then f.price else "0";
    assert Abs(parse(f.qty)) == parse(f.qty);
  }

  /** Same lots up to the form of their opening time, and realized PnLs that are near. */
  ghost predicate Near(symbol: string, d: D.SymbolLedger, a: A.SymbolState, n: nat, near: Gap -> bool) {
    CanonicalLots(symbol, d.lots) == a.lots && near(GapOf(d, a, n))
  }

  ghost function GapOf(d: D.SymbolLedger, a: A.SymbolState, n: nat): Gap {
    Gap(d.realizedPnl, a.realizedPnl, n)
  }

  lemma {:induction false} TradeNear(symbol: string, d: seq<Lot>, td: Trade, ta: Trade, round: real -> real)
    requires SameTrade(symbol, Some(td), Some(ta))
    ensures var x, y := TradeOnce(d, td, round), TradeOnce(CanonicalLots(symbol, d), ta, round);
            && x.Some? == y.Some?
            && (x.Some? ==> CanonicalLots(symbol, x.value.lots) == y.value.lots && x.value.gains == y.value.gains)
            && (x.None? ==> td.Sell? && ta == td
                            && SellLots(d, td.qty, round).unfilled == SellLots(CanonicalLots(symbol, d), td.qty, round).unfilled)
  {
    match td {
      case Buy(lot) => CanonicalConcat(symbol, d, [lot]);
      case Sell(qty, price) => SellCommutes(symbol, d, qty, round);
    }
  }

  /** The number of lot matches a fill makes on the lots its symbol holds. */
  ghost function MatchesOf(lots: seq<Lot>, f: Fill, parse: A.Parse, p: Policy): nat {
    var t := D.TradeOf(ToDomain(f, parse), p);
    if t.None? then 0
    else
      var once := TradeOnce(lots, t.value, QtyRounding(p));
      if once.None? then 0 else |once.value.gains|
  }

  /** A fill's effect on its own symbol in each ledger. */
  function OwnDomain(d: D.SymbolLedger, f: Fill, parse: A.Parse, p: Policy): Result<D.SymbolLedger, D.LedgerError> {
    D.ApplyToSymbol(d, ToDomain(f, parse), p)
  }

  function OwnAccounting(a: A.SymbolState, f: Fill, parse: A.Parse, rnd: A.Rounding): Result<A.SymbolState, A.Oversell> {
    match A.SymbolEffect(a, ToEvent(f, parse), rnd)
    case Err(error) => Err(error)
    case Ok(s) => Ok(A.Settle(s, rnd))
  }

  /** Both errors are the oversell of the same event, with the same quantity left over. */
  ghost predicate SameOversell(d: D.LedgerError, a: A.Oversell) {
    d.Oversell? && a == A.Oversell(d.symbol, d.remaining, d.eventId)
  }

  /** A fill that oversells one ledger oversells the other, by the same quantity. */
  lemma {:induction false} FillOversells(d: D.SymbolLedger, a: A.SymbolState, f: Fill, parse: A.Parse, p: Policy, rnd: A.Rounding)
    requires ReadAlike(f, parse, p, rnd) && rnd == A.RoundingOf(p) && CanonicalLots(f.symbol, d.lots) == a.lots
    ensures var rd, ra := OwnDomain(d, f, parse, p), OwnAccounting(a, f, parse, rnd);
            rd.Ok? == ra.Ok? && (rd.Err? ==> SameOversell(rd.error, ra.error))
  {
    var td, ta := D.TradeOf(ToDomain(f, parse), p), A.TradeOf(ToEvent(f, parse), rnd);
    if td.Some? {
      TradeNear(f.symbol, d.lots, td.value, ta.value, QtyRounding(p));
    }
  }

  lemma {:induction false} FillNear(d: D.SymbolLedger, a: A.SymbolState, f: Fill, n: nat, parse: A.Parse, p: Policy, rnd: A.Rounding,
                 near: Gap -> bool)
    requires ReadAlike(f, parse, p, rnd) && rnd == A.RoundingOf(p) && Keeps(near, rnd.money)
    requires Near(f.symbol, d, a, n, near)
    ensures var rd, ra := OwnDomain(d, f, parse, p), OwnAccounting(a, f, parse, rnd);
            && rd.Ok? == ra.Ok?
            && (rd.Ok? ==> Near(f.symbol, rd.value, ra.value, n + MatchesOf(d.lots, f, parse, p), near))
  {
    var td, ta := D.TradeOf(ToDomain(f, parse), p), A.TradeOf(ToEvent(f, parse), rnd);
    if td.Some? {
      TradeNear(f.symbol, d.lots, td.value, ta.value, QtyRounding(p));
    } else {
      assert BookAll(d.realizedPnl, [], D.RunningTotal(rnd.money)) == d.realizedPnl;
      assert BookAll(a.realizedPnl, [], A.RoundedGains(rnd.money)) == a.realizedPnl;
    }
  }

  /** A fill changes its own symbol and no other, and fails exactly when its own symbol does. */
  lemma {:induction false} FillIsLocal(d: D.LedgerState, a: A.State, f: Fill, symbol: string, parse: A.Parse, p: Policy, rnd: A.Rounding)
    requires ToEvent(f, parse).symbol == f.symbol != ""
    ensures var rd, own := NextDomain(Ok(d), f, parse, p), OwnDomain(D.SymbolOf(d, f.symbol), f, parse, p);
            && rd.Ok? == own.Ok? && (rd.Err? ==> rd.error == own.error)
            && (rd.Ok? ==> D.SymbolOf(rd.value, symbol) == if symbol == f.symbol then own.value else D.SymbolOf(d, symbol))
    ensures var ra, own := NextAccounting(Ok(a), f, parse, rnd), OwnAccounting(A.SymbolOf(a, f.symbol), f, parse, rnd);
            && ra.Ok? == own.Ok? && (ra.Err? ==> ra.error == own.error)
            && (ra.Ok? ==> A.SymbolOf(ra.value, symbol) == if symbol == f.symbol then own.value else A.SymbolOf(a, symbol))
  {
  }

  // --- whole runs, in replay order

  function Same(p: Policy): D.Policies {
    _ => p
  }

  function DomainEvents(fs: seq<Fill>, parse: A.Parse): seq<D.LedgerEvent> {
    Map((f: Fill) => ToDomain(f, parse), fs)
  }

  function AccountingEvents(fs: seq<Fill>, parse: A.Parse): seq<A.Event> {
    Map((f: Fill) => ToEvent(f, parse), fs)
  }

  function DomainRun(fs: seq<Fill>, parse: A.Parse, p: Policy): Result<D.LedgerState, D.LedgerError> {
    Replay(D.EMPTY, DomainEvents(fs, parse), D.EventStep(Same(p)))
  }

  function AccountingRun(start: A.State, fs: seq<Fill>, parse: A.Parse, rnd: A.Rounding): Result<A.State, A.Oversell> {
    Replay(start, AccountingEvents(fs, parse), A.EventStep(rnd))
  }

  /** One more fill in each ledger, and in the count of lot matches of a symbol. */
  function NextDomain(d: Result<D.LedgerState, D.LedgerError>, f: Fill, parse: A.Parse, p: Policy): Result<D.LedgerState, D.LedgerError> {
    if d.Ok? then D.ApplyOne(d.value, ToDomain(f, parse), Same(p)) else d
  }

  function NextAccounting(a: Result<A.State, A.Oversell>, f: Fill, parse: A.Parse, rnd: A.Rounding): Result<A.State, A.Oversell> {
    if a.Ok? then A.ApplyOne(a.value, ToEvent(f, parse), rnd) else a
  }

  ghost function NextCount(n: nat, d: Result<D.LedgerState, D.LedgerError>, f: Fill, symbol: string, parse: A.Parse, p: Policy): nat {
    n + if f.symbol == symbol && d.Ok? then MatchesOf(D.SymbolOf(d.value, symbol).lots, f, parse, p) else 0
  }

  lemma {:induction false} RunsStep(start: A.State, fs: seq<Fill>, parse: A.Parse, p: Policy, rnd: A.Rounding)
    requires fs != []
    ensures var n := |fs| - 1;
            && DomainRun(fs, parse, p) == NextDomain(DomainRun(fs[..n], parse, p), fs[n], parse, p)
            && AccountingRun(start, fs, parse, rnd) == NextAccounting(AccountingRun(start, fs[..n], parse, rnd), fs[n], parse, rnd)
  {
    var n := |fs| - 1;
    assert DomainEvents(fs, parse)[..n] == DomainEvents(fs[..n], parse);
    assert AccountingEvents(fs, parse)[..n] == AccountingEvents(fs[..n], parse);
  }

  /** The number of lot matches the fills of one symbol make. */
  ghost function MatchCount(fs: seq<Fill>, symbol: string, parse: A.Parse, p: Policy): nat {
    if fs == [] then 0
    else
      var n := |fs| - 1;
      NextCount(MatchCount(fs[..n], symbol, parse, p), DomainRun(fs[..n], parse, p), fs[n], symbol, parse, p)
  }

  /** Both runs succeed, or both fail on the same oversell. */
  ghost predicate SameOutcome(d: Result<D.LedgerState, D.LedgerError>, a: Result<A.State, A.Oversell>) {
    d.Ok? == a.Ok? && (d.Err? ==> SameOversell(d.error, a.error))
  }

  /** Both runs fail on the same oversell, or neither fails and the two states are near on this symbol. */
  ghost predicate Agree(d: Result<D.LedgerState, D.LedgerError>, a: Result<A.State, A.Oversell>, symbol: string, n: nat,
                        near: Gap -> bool) {
    && SameOutcome(d, a)
    && (d.Ok? ==> Near(symbol, D.SymbolOf(d.value, symbol), A.SymbolOf(a.value, symbol), n, near))
  }

  /** The whole ledgers agree on a symbol when its own two outcomes do. */
  lemma {:induction false} AgreeFrom(rd: Result<D.SymbolLedger, D.LedgerError>, ra: Result<A.SymbolState, A.Oversell>,
                  d: Result<D.LedgerState, D.LedgerError>, a: Result<A.State, A.Oversell>, symbol: string, n: nat, near: Gap -> bool)
    requires d.Ok? == rd.Ok? && a.Ok? == ra.Ok? == rd.Ok?
    requires d.Err? ==> d.error == rd.error && a.error == ra.error && SameOversell(rd.error, ra.error)
    requires d.Ok? ==> D.SymbolOf(d.value, symbol) == rd.value && A.SymbolOf(a.value, symbol) == ra.value
    requires d.Ok? ==> Near(symbol, rd.value, ra.value, n, near)
    ensures Agree(d, a, symbol, n, near)
  {
  }

  /** One fill keeps the ledgers in agreement on its own symbol ... */
  lemma {:induction false} AgreeOwn(d: D.LedgerState, a: A.State, f: Fill, n: nat, parse: A.Parse, p: Policy, rnd: A.Rounding,
                 near: Gap -> bool)
    requires ReadAlike(f, parse, p, rnd) && rnd == A.RoundingOf(p) && Keeps(near, rnd.money)
    requires Near(f.symbol, D.SymbolOf(d, f.symbol), A.SymbolOf(a, f.symbol), n, near)
    ensures Agree(NextDomain(Ok(d), f, parse, p), NextAccounting(Ok(a), f, parse, rnd), f.symbol,
                  NextCount(n, Ok(d), f, f.symbol, parse, p), near)
  {
    var own, other := D.SymbolOf(d, f.symbol), A.SymbolOf(a, f.symbol);
    FillIsLocal(d, a, f, f.symbol, parse, p, rnd);
    FillOversells(own, other, f, parse, p, rnd);
    FillNear(own, other, f, n, parse, p, rnd, near);
    AgreeFrom(OwnDomain(own, f, parse, p), OwnAccounting(other, f, parse, rnd), NextDomain(Ok(d), f, parse, p),
              NextAccounting(Ok(a), f, parse, rnd), f.symbol, NextCount(n, Ok(d), f, f.symbol, parse, p), near);
  }

  /** ... and leaves every other symbol alone. */
  lemma {:induction false} AgreeOther(d: D.LedgerState, a: A.State, f: Fill, symbol: string, n: nat, parse: A.Parse, p: Policy,
                   rnd: A.Rounding, near: Gap -> bool)
    requires ToEvent(f, parse).symbol == f.symbol != "" && symbol != f.symbol
    requires SameOutcome(NextDomain(Ok(d), f, parse, p), NextAccounting(Ok(a), f, parse, rnd))
    requires Near(symbol, D.SymbolOf(d, symbol), A.SymbolOf(a, symbol), n, near)
    ensures Agree(NextDomain(Ok(d), f, parse, p), NextAccounting(Ok(a), f, parse, rnd), symbol, n, near)
  {
    FillIsLocal(d, a, f, symbol, parse, p, rnd);
  }

  lemma {:induction false} AgreeStep(d: Result<D.LedgerState, D.LedgerError>, a: Result<A.State, A.Oversell>, f: Fill, symbol: string,
                  own: nat, n: nat, parse: A.Parse, p: Policy, rnd: A.Rounding, near: Gap -> bool)
    requires ReadAlike(f, parse, p, rnd) && rnd == A.RoundingOf(p) && Keeps(near, rnd.money)
    requires Agree(d, a, f.symbol, own, near) && Agree(d, a, symbol, n, near) && (symbol == f.symbol ==> own == n)
    ensures Agree(NextDomain(d, f, parse, p), NextAccounting(a, f, parse, rnd), symbol,
                  NextCount(n, d, f, symbol, parse, p), near)
  {
    if d.Ok? {
      assert d == Ok(d.value) && a == Ok(a.value);
      AgreeOwn(d.value, a.value, f, own, parse, p, rnd, near);
      if symbol != f.symbol {
        AgreeOther(d.value, a.value, f, symbol, n, parse, p, rnd, near);
      }
    }
  }

  lemma {:induction false} RunsAgree(start: A.State, fs: seq<Fill>, symbol: string, parse: A.Parse, p: Policy,
                                     rnd: A.Rounding, near: Gap -> bool)
    requires start.symbols == map[] && near(Gap(0.0, 0.0, 0))
    requires rnd == A.RoundingOf(p) && Keeps(near, rnd.money)
    requires forall i :: 0 <= i < |fs| ==> ReadAlike(fs[i], parse, p, rnd)
    ensures Agree(DomainRun(fs, parse, p), AccountingRun(start, fs, parse, rnd), symbol, MatchCount(fs, symbol, parse, p), near)
  {
    if fs != [] {
      var n := |fs| - 1;
      var f := fs[n];
      RunsAgree(start, fs[..n], symbol, parse, p, rnd, near);
      RunsAgree(start, fs[..n], f.symbol, parse, p, rnd, near);
      RunsStep(start, fs, parse, p, rnd);
      AgreeStep(DomainRun(fs[..n], parse, p), AccountingRun(start, fs[..n], parse, rnd), f, symbol,
                MatchCount(fs[..n], f.symbol, parse, p), MatchCount(fs[..n], symbol, parse, p), parse, p, rnd, near);
    }
  }

  // --- from fills in any order

  predicate FillLeq(a: Fill, b: Fill) {
    KeyLeq(Key(a.ts.Instant(), a.id), Key(b.ts.Instant(), b.id))
  }

  function FillId(): Fill -> string {
    (f: Fill) => f.id
  }

  lemma {:induction false} SelectAll(fs: seq<Fill>, asOf: int, parse: A.Parse)
    requires forall i :: 0 <= i < |fs| ==> fs[i].ts.Instant() <= asOf
    ensures A.Select(Map(ToRaw, fs), asOf, parse) == AccountingEvents(fs, parse)
  {
    if fs != [] {
      SelectAll(fs[1..], asOf, parse);
      assert Map(ToRaw, fs)[1..] == Map(ToRaw, fs[1..]);
      assert AccountingEvents(fs, parse) == [ToEvent(fs[0], parse)] + AccountingEvents(fs[1..], parse);
    }
  }

  lemma {:induction false} OrderedEvents(fs: seq<Fill>, asOf: int, parse: A.Parse)
    requires DistinctIds(FillId(), fs) && forall i :: 0 <= i < |fs| ==> fs[i].ts.Instant() <= asOf
    ensures Sort(D.EventLeq, DomainEvents(fs, parse)) == DomainEvents(Sort(FillLeq, fs), parse)
    ensures A.Chronology(Map(ToRaw, fs), asOf, parse) == AccountingEvents(Sort(FillLeq, fs), parse)
  {
    SortMapped((f: Fill) => ToDomain(f, parse), FillLeq, D.EventLeq, fs);
    SortMapped((f: Fill) => ToEvent(f, parse), FillLeq, A.EventLeq, fs);
    assert DistinctIds(A.RawId(), Map(ToRaw, fs)) by {
      forall i, j | 0 <= i < j < |fs| ensures fs[i].id != fs[j].id {
        assert FillId()(fs[i]) != FillId()(fs[j]);
      }
    }
    DedupeUnique(A.RawId(), A.RawLeq(parse), Map(ToRaw, fs));
    SelectAll(fs, asOf, parse);
  }

  /**
   The two ledgers agree: on the same uniquely identified on-grid fills, in any order, one fails exactly
   when the other does, on the same event with the same quantity left over, and otherwise every symbol
   has the same lots and realized PnLs within one quote quantum per lot match.
   */
  lemma {:induction false} LedgersAgree(fs: seq<Fill>, asOf: int, capital: real, treasury: real, symbol: string, parse: A.Parse, p: Policy)
    requires DistinctIds(FillId(), fs) && (forall f :: f in fs ==> OnGrid(f, parse, p)) && parse("0") == 0.0
    requires forall i :: 0 <= i < |fs| ==> fs[i].ts.Instant() <= asOf
    ensures Agree(D.Apply(D.EMPTY, DomainEvents(fs, parse), Same(p)),
                  A.Recompute(Map(ToRaw, fs), asOf, capital, treasury, parse, A.RoundingOf(p)),
                  symbol, MatchCount(Sort(FillLeq, fs), symbol, parse, p), Drift(QuoteRounding(p), QuoteQuantum(p)))
  {
    OrderedEvents(fs, asOf, parse);
    SortContents(FillLeq, fs);
    var ordered, rnd := Sort(FillLeq, fs), A.RoundingOf(p);
    forall i | 0 <= i < |ordered| ensures ReadAlike(ordered[i], parse, p, rnd) {
      assert ordered[i] in fs;
      OnGridReadAlike(ordered[i], parse, p);
    }
    RoundQuoteIsMoney(p);
    var drift := Drift(QuoteRounding(p), QuoteQuantum(p));
    DriftKeeps(QuoteRounding(p), QuoteQuantum(p));
    RunsAgree(A.Start(capital, treasury, rnd), ordered, symbol, parse, p, rnd, drift);
  }

  /** The matches of a symbol are at most its fills. */
  lemma {:induction false} MatchesBounded(fs: seq<Fill>, symbol: string, parse: A.Parse, p: Policy)
    ensures MatchCount(fs, symbol, parse, p) <= |fs|
    ensures DomainRun(fs, parse, p).Ok? ==>
              MatchCount(fs, symbol, parse, p) + |D.SymbolOf(DomainRun(fs, parse, p).value, symbol).lots| <= |fs|
  {
    if fs != [] {
      var n := |fs| - 1;
      MatchesBounded(fs[..n], symbol, parse, p);
      assert DomainEvents(fs, parse)[..n] == DomainEvents(fs[..n], parse);
      assert DomainRun(fs, parse, p) == NextDomain(DomainRun(fs[..n], parse, p), fs[n], parse, p);
      MatchesNext(DomainRun(fs[..n], parse, p), fs[n], symbol, MatchCount(fs[..n], symbol, parse, p), parse, p);
    }
  }

  /** One fill adds at most one to a symbol's matches and open lots together. */
  lemma {:induction false} MatchesNext(d: Result<D.LedgerState, D.LedgerError>, f: Fill, symbol: string, n: nat, parse: A.Parse, p: Policy)
    ensures var d', n' := NextDomain(d, f, parse, p), NextCount(n, d, f, symbol, parse, p);
            && (d.Err? ==> d'.Err? && n' == n)
            && (d.Ok? && d'.Err? ==> n' == n)
            && (d'.Ok? ==> d.Ok? && n' + |D.SymbolOf(d'.value, symbol).lots| <= n + |D.SymbolOf(d.value, symbol).lots| + 1)
  {
  }

  /** Under the default policy a price on the tick is on the quote quantum, so `OnGrid` asks nothing extra. */
  lemma {:induction false} DefaultTickOnQuantum(price: real)
    requires RoundPrice(price, DEFAULT_POLICY) == price
    ensures RoundQuote(price, DEFAULT_POLICY) == price
  {
    assert Pow10(2) == 100 && Pow10(4) == 100 * Pow10(2) && Pow10(6) == 100 * Pow10(4) && Pow10(8) == 100 * Pow10(6);
    var k := StepsOf(price, 0.01);
    assert QuoteQuantum(DEFAULT_POLICY) == 0.00000001;
    MultipleOnStep(1000000 * k, 0.00000001);
  }
}
