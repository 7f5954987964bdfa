/**
 The stage 4 average-cost book: positions updated fill by fill, each fill id at most once, from fill
 windows that overlap.
 */
module AverageCost {
  import opened Results
  import opened Ordering
  import opened Dedup

  datatype Fill = Fill(
    fillId: string, symbol: string, side: string, price: real, qty: real, fee: real, feeAsset: string, ts: int)

  datatype Holding = Holding(qty: real, avgCost: real, realizedPnl: real)

  datatype Position = Position(holding: Holding, lastUpdate: int)

  datatype IntegrityError = OversellDetected(symbol: string, held: real, sold: real)

  /** Mark prices, keyed by normalized symbol. */
  type Marks = map<string, real>

  function Without(s: string, c: char): string {
    if s == [] then [] else (if s[0] == c then [] else [s[0]]) + Without(s[1..], c)
  }

  /** `normalize_symbol`. */
  function Normalize(symbol: string): string {
    Upper(Without(symbol, '_'))
  }

  /** There is a positive mark for the symbol. */
  predicate Quoted(marks: Marks, symbol: string) {
    Normalize(symbol) in marks && marks[Normalize(symbol)] > 0.0
  }

  /** `_convert_fee_to_try`; a missing conversion counts as no fee. */
  function FeeInTry(asset: string, amount: real, marks: Marks): (fee: real)
    ensures fee >= 0.0 && (amount <= 0.0 ==> fee == 0.0)
    ensures var currency := Upper(asset);
            amount > 0.0 ==>
              if currency == "TRY" then fee == amount
              else if Quoted(marks, currency + "TRY") then fee == amount * marks[Normalize(currency + "TRY")]
              else if Quoted(marks, "TRY" + currency) then fee * marks[Normalize("TRY" + currency)] == amount
              else fee == 0.0
  {
    var currency := Upper(asset);
    if amount <= 0.0 then 0.0
    else if currency == "TRY" then amount
    else if Quoted(marks, currency + "TRY") then
      Product(amount, marks[Normalize(currency + "TRY")])
    else if Quoted(marks, "TRY" + currency) then
      amount / marks[Normalize("TRY" + currency)]
    else 0.0
  }

  function Product(x: real, y: real): (p: real)
    requires x > 0.0 && y > 0.0
    ensures p > 0.0 && p == x * y
  {
    x * y
  }

  const FLAT := Holding(0.0, 0.0, 0.0)

  /** One fill at average cost; None is the oversell. Any side that is not a buy sells. */
  function BookFill(h: Holding, buy: bool, qty: real, price: real, fee: real): Option<Holding> {
    if buy then
      var total := h.avgCost * h.qty + price * qty + fee;
      var qty' := h.qty + qty;
      Some(Holding(qty', if qty' > 0.0 then total / qty' else 0.0, h.realizedPnl))
    else if qty > h.qty then None
    else
      var left := h.qty - qty;
      Some(Holding(left, if left > 0.0 then h.avgCost else 0.0, h.realizedPnl + ((price - h.avgCost) * qty - fee)))
  }

  // --- positions

  type Positions = map<string, Position>

  function HoldingOf(positions: Positions, symbol: string): Holding {
    if Normalize(symbol) in positions then positions[Normalize(symbol)].holding else FLAT
  }

  /** A fill together with the marks of the cycle that first brought it. */
  datatype Marked = Marked(fill: Fill, marks: Marks)

  /** Apply a fill, without asking whether it was applied before. */
  function Apply(positions: Positions, m: Marked): Result<Positions, IntegrityError> {
    var f := m.fill;
    var h := HoldingOf(positions, f.symbol);
    match BookFill(h, Upper(f.side) == "BUY", f.qty, f.price, FeeInTry(f.feeAsset, f.fee, m.marks))
    case None => Err(OversellDetected(f.symbol, h.qty, f.qty))
    case Some(h') => Ok(positions[Normalize(f.symbol) := Position(h', f.ts)])
  }

  /** The last of the fills of a canonical symbol. */
  ghost function LastOf(ms: seq<Marked>, symbol: string): Option<Fill> {
    if ms == [] then None
    else
      var n := |ms| - 1;
      if Normalize(ms[n].fill.symbol) == symbol then Some(ms[n].fill) else LastOf(ms[..n], symbol)
  }

  /** A position exists exactly for the symbols that had fills, and is dated by the last of them. */
  lemma {:induction false} DatedByLastFill(ms: seq<Marked>, symbol: string)
    requires Replay(map[], ms, Apply).Ok?
    ensures var positions, last := Replay(map[], ms, Apply).value, LastOf(ms, symbol);
            && (symbol in positions <==> last.Some?)
            && (symbol in positions ==> positions[symbol].lastUpdate == last.value.ts)
  {
    if ms != [] {
      DatedByLastFill(ms[..|ms| - 1], symbol);
    }
  }

  datatype Store = Store(applied: set<string>, positions: Positions)

  /** `mark_fill_applied` succeeds once per id; a fill whose id was marked before is skipped. */
  function ApplyOnce(store: Store, m: Marked): Result<Store, IntegrityError> {
    if m.fill.fillId in store.applied then Ok(store)
    else
      match Apply(store.positions, m)
      case Err(error) => Err(error)
      case Ok(positions) => Ok(Store(store.applied + {m.fill.fillId}, positions))
  }

  function WithMarks(fills: seq<Fill>, marks: Marks): seq<Marked> {
    Map((f: Fill) => Marked(f, marks), fills)
  }

  /** The store, and `apply_fills` inside the transaction it runs in: an oversell rolls everything back. */
  class AccountingService {
    var applied: set<string>
    var positions: Positions
    var lastAppliedCount: nat

    constructor ()
      ensures Contents() == Store({}, map[])
    {
      applied, positions, lastAppliedCount := {}, map[], 0;
    }

    ghost function Contents(): Store
      reads this
    {
      Store(applied, positions)
    }

    method ApplyFills(fills: seq<Fill>, marks: Marks) returns (r: Result<nat, IntegrityError>)
      modifies this
      ensures match Replay(old(Contents()), WithMarks(fills, marks), ApplyOnce)
              case Ok(store) => r.Ok? && Contents() == store && lastAppliedCount == r.value
              case Err(error) => r == Err(error) && Contents() == old(Contents())
    {
      var seen, held, count := applied, positions, 0;
      ghost var start, marked := Contents(), WithMarks(fills, marks);
      for i := 0 to |fills|
        invariant Replay(start, marked[..i], ApplyOnce) == Ok(Store(seen, held))
        invariant Contents() == start
      {
        ReplayStep(start, marked, i, ApplyOnce);
        var fill := fills[i];
        if fill.fillId !in seen {
          seen, count := seen + {fill.fillId}, count + 1;
          var h := HoldingOf(held, fill.symbol);
          var fee := FeeInTry(fill.feeAsset, fill.fee, marks);
          var h' := BookFill(h, Upper(fill.side) == "BUY", fill.qty, fill.price, fee);
          if h'.None? {
            ReplayFailed(start, marked, i + 1, ApplyOnce);
            return Err(OversellDetected(fill.symbol, h.qty, fill.qty));
          }
          held := held[Normalize(fill.symbol) := Position(h'.value, fill.ts)];
        }
      }
      assert marked[..|fills|] == marked;
      applied, positions, lastAppliedCount := seen, held, count;
      r := Ok(count);
    }
  }

  // --- overlapping windows

  function MarkedId(): Marked -> string {
    (m: Marked) => m.fill.fillId
  }

  predicate KeepFirst(a: Marked, b: Marked) {
    true
  }

  /** Each distinct fill id once, in the order the ids were first seen. */
  function FirstSeen(ms: seq<Marked>): seq<Marked> {
    Dedupe(MarkedId(), KeepFirst, ms)
  }

  /** The outcome of a list of fills with repetitions, set against the list without them. */
  ghost predicate SameAsOnce(r: Result<Store, IntegrityError>, once: Result<Positions, IntegrityError>, ids: set<string>) {
    match once
    case Ok(positions) => r == Ok(Store(ids, positions))
    case Err(error) => r == Err(error)
  }

  ghost function Ids(ms: seq<Marked>): set<string> {
    if ms == [] then {}
    else
      var n := |ms| - 1;
      Ids(ms[..n]) + {ms[n].fill.fillId}
  }

  lemma {:induction false} IdsContain(ms: seq<Marked>, id: string)
    ensures id in Ids(ms) <==> IndexOf(MarkedId(), ms, id) < |ms|
  {
    if ms != [] {
      var n := |ms| - 1;
      IdsContain(ms[..n], id);
      var i := IndexOf(MarkedId(), ms, id);
      var j := IndexOf(MarkedId(), ms[..n], id);
      assert i < |ms| ==> MarkedId()(ms[i]) == id;
      assert j < n ==> MarkedId()(ms[j]) == id;
      assert i == |ms| ==> MarkedId()(ms[n]) != id;
    }
  }

  lemma {:induction false} RepetitionsChangeNothing(ms: seq<Marked>)
    ensures SameAsOnce(Replay(Store({}, map[]), ms, ApplyOnce), Replay(map[], FirstSeen(ms), Apply), Ids(FirstSeen(ms)))
  {
    if ms != [] {
      var n := |ms| - 1;
      RepetitionsChangeNothing(ms[..n]);
      var kept, m := FirstSeen(ms[..n]), ms[n];
      IdsContain(kept, m.fill.fillId);
      assert (kept + [m])[..|kept|] == kept;
    }
  }

  /** The store after a run of cycles; a batch that oversells is rolled back. */
  ghost function RunBatches(batches: seq<seq<Marked>>): Store {
    if batches == [] then Store({}, map[])
    else
      var n := |batches| - 1;
      var r := Replay(RunBatches(batches[..n]), batches[n], ApplyOnce);
      if r.Ok? then r.value else RunBatches(batches[..n])
  }

  /** The fills of the batches that were not rolled back, in order. */
  ghost function Committed(batches: seq<seq<Marked>>): seq<Marked> {
    if batches == [] then []
    else
      var n := |batches| - 1;
      Committed(batches[..n]) + if Replay(RunBatches(batches[..n]), batches[n], ApplyOnce).Ok? then batches[n] else []
  }

  lemma {:induction false} CommittedReplays(batches: seq<seq<Marked>>)
    ensures Replay(Store({}, map[]), Committed(batches), ApplyOnce) == Ok(RunBatches(batches))
  {
    if batches != [] {
      var n := |batches| - 1;
      CommittedReplays(batches[..n]);
      ReplayConcat(Store({}, map[]), Committed(batches[..n]), batches[n], ApplyOnce);
      assert Committed(batches[..n]) + [] == Committed(batches[..n]);
    }
  }

  /**
   Overlapping fill windows are harmless: after any sequence of batches, however they overlap, the
   positions are those of applying each distinct committed fill id once, in first-seen order, with the
   marks it first came with.
   */
  lemma {:induction false} OverlapsAreHarmless(batches: seq<seq<Marked>>)
    ensures var once := FirstSeen(Committed(batches));
            && Replay(map[], once, Apply) == Ok(RunBatches(batches).positions)
            && RunBatches(batches).applied == Ids(once)
            && DistinctIds(MarkedId(), once)
  {
    CommittedReplays(batches);
    RepetitionsChangeNothing(Committed(batches));
    DedupeKeepsLeast(MarkedId(), KeepFirst, Committed(batches));
  }

  // --- fetching a window

  /** A fill as the exchange reports it; times in microseconds. */
  datatype TradeFill = TradeFill(
    fillId: Option<string>, orderId: string, symbol: string, side: string, price: real, qty: real, fee: real,
    feeCurrency: string, ts: int)

  predicate IsSpace(c: char) {
    c == ' ' || c == '\t' || c == '\n' || c == '\r'
  }

  function Strip(s: string): string {
    if s != [] && IsSpace(s[0]) then Strip(s[1..])
    else if s != [] && IsSpace(s[|s| - 1]) then Strip(s[..|s| - 1])
    else s
  }

  ghost predicate AllSpace(s: string) {
    forall i :: 0 <= i < |s| ==> IsSpace(s[i])
  }

  lemma {:induction false} SpaceBefore(c: char, s: string, before: string, mid: string, after: string)
    requires IsSpace(c) && AllSpace(before) && s == before + mid + after
    ensures AllSpace([c] + before) && [c] + s == ([c] + before) + mid + after
  {
  }

  lemma {:induction false} SpaceAfter(c: char, s: string, before: string, mid: string, after: string)
    requires IsSpace(c) && AllSpace(after) && s == before + mid + after
    ensures AllSpace(after + [c]) && s + [c] == before + mid + (after + [c])
  {
  }

  /** Spaces are removed from both ends and nothing else is. */
  lemma {:induction false} StripTrims(s: string) returns (before: string, after: string)
    ensures s == before + Strip(s) + after && AllSpace(before) && AllSpace(after)
    ensures Strip(s) != "" ==> !IsSpace(Strip(s)[0]) && !IsSpace(Strip(s)[|Strip(s)| - 1])
  {
    if s != "" && IsSpace(s[0]) {
      before, after := StripTrims(s[1..]);
      assert s == [s[0]] + s[1..];
      SpaceBefore(s[0], s[1..], before, Strip(s), after);
      before := [s[0]] + before;
    } else if s != "" && IsSpace(s[|s| - 1]) {
      var n := |s| - 1;
      before, after := StripTrims(s[..n]);
      assert s == s[..n] + [s[n]];
      SpaceAfter(s[n], s[..n], before, Strip(s), after);
      after := after + [s[n]];
    } else {
      before, after := "", "";
      assert s == "" + s + "";
    }
  }

  lemma {:induction false} WithoutIsFilter(s: string, c: char)
    ensures Without(s, c) == Filter((x: char) => x != c, s)
  {
    if s != "" {
      WithoutIsFilter(s[1..], c);
    }
  }

  /** `int(ts.timestamp() * 1000)`. */
  function Millis(ts: int): int {
    if ts >= 0 then ts / 1000 else -(-ts / 1000)
  }

  /** Whole milliseconds, toward the epoch. */
  lemma {:induction false} MillisTruncates(ts: int)
    ensures ts >= 0 ==> 0 <= Millis(ts) * 1000 <= ts < Millis(ts) * 1000 + 1000
    ensures ts <= 0 ==> Millis(ts) * 1000 - 1000 < ts <= Millis(ts) * 1000 <= 0
  {
  }

  function TextId(t: TradeFill): string {
    if t.fillId.Some? then t.fillId.value else ""
  }

  /** The dedupe key; a fill without an id gets one made of its contents. */
  function StableId(t: TradeFill, contentsId: TradeFill -> string): string {
    if Strip(TextId(t)) != "" then Strip(TextId(t)) else contentsId(t)
  }

  function ToFill(t: TradeFill, contentsId: TradeFill -> string): Fill {
    Fill(StableId(t, contentsId), t.symbol, t.side, t.price, t.qty, t.fee, t.feeCurrency, t.ts)
  }

  predicate WindowLeq(a: TradeFill, b: TradeFill) {
    KeyLeq(Key(a.ts, TextId(a)), Key(b.ts, TextId(b)))
  }

  function Since(incoming: seq<TradeFill>, start: int): seq<TradeFill> {
    if incoming == [] then []
    else (if incoming[0].ts >= start then [incoming[0]] else []) + Since(incoming[1..], start)
  }

  function FillId(): Fill -> string {
    (f: Fill) => f.fillId
  }

  predicate KeepFirstFill(a: Fill, b: Fill) {
    true
  }

  /** The later of the floor and the latest fill. */
  ghost function Latest(floor: int, fills: seq<Fill>): int {
    if fills == [] then floor
    else
      var n := |fills| - 1;
      var before := Latest(floor, fills[..n]);
      if Millis(fills[n].ts) > before then Millis(fills[n].ts) else before
  }

  lemma {:induction false} LatestIsMaximum(floor: int, fills: seq<Fill>)
    ensures Latest(floor, fills) >= floor
    ensures forall f :: f in fills ==> Millis(f.ts) <= Latest(floor, fills)
    ensures Latest(floor, fills) == floor || exists f :: f in fills && Millis(f.ts) == Latest(floor, fills)
  {
    if fills != [] {
      var n := |fills| - 1;
      LatestIsMaximum(floor, fills[..n]);
      assert fills == fills[..n] + [fills[n]];
      assert fills[n] in fills;
    }
  }

  /** The fill reported as last seen: a later fill replaces it unless it is older. */
  ghost function LastSeen(fills: seq<Fill>): Option<Fill> {
    if fills == [] then None
    else
      var n := |fills| - 1;
      var before := LastSeen(fills[..n]);
      if before.None? || Millis(fills[n].ts) >= Millis(before.value.ts) then Some(fills[n]) else before
  }

  /** No fill is later, and those after it are earlier. */
  ghost predicate LatestAt(fills: seq<Fill>, k: int) {
    0 <= k < |fills|
    && forall i :: 0 <= i < |fills| ==> Millis(fills[i].ts) <= Millis(fills[k].ts) && (i > k ==> Millis(fills[i].ts) < Millis(fills[k].ts))
  }

  /** The last of the latest fills. */
  ghost predicate IsLatest(fills: seq<Fill>, f: Fill) {
    exists k :: LatestAt(fills, k) && fills[k] == f
  }

  lemma {:induction false} LatestNext(fills: seq<Fill>, f: Fill, all: seq<Fill>)
    requires IsLatest(fills, f) && |all| == |fills| + 1 && all[..|fills|] == fills
    ensures IsLatest(all, if Millis(all[|fills|].ts) >= Millis(f.ts) then all[|fills|] else f)
  {
    var k :| LatestAt(fills, k) && fills[k] == f;
    assert forall i :: 0 <= i < |fills| ==> all[i] == fills[i];
    assert LatestAt(all, if Millis(all[|fills|].ts) >= Millis(f.ts) then |fills| else k);
  }

  lemma {:induction false} LastSeenIsLatest(fills: seq<Fill>)
    ensures LastSeen(fills).None? <==> fills == []
    ensures fills != [] ==> IsLatest(fills, LastSeen(fills).value)
  {
    if fills != [] {
      var n := |fills| - 1;
      var before := LastSeen(fills[..n]);
      LastSeenIsLatest(fills[..n]);
      if before.Some? {
        LatestNext(fills[..n], before.value, fills);
      } else {
        assert LatestAt(fills, 0);
      }
    }
  }

  lemma {:induction false} OneMoreFill(floor: int, fills: seq<Fill>, fill: Fill)
    ensures var before, last := Latest(floor, fills), LastSeen(fills);
            && Latest(floor, fills + [fill]) == (if Millis(fill.ts) > before then Millis(fill.ts) else before)
            && LastSeen(fills + [fill]) == (if last.None? || Millis(fill.ts) >= Millis(last.value.ts) then Some(fill) else last)
  {
    assert (fills + [fill])[..|fills|] == fills;
  }

  /** A fill whose id was seen is dropped, another one is kept. */
  lemma {:induction false} KeptOrDropped(all: seq<Fill>, i: nat, fills: seq<Fill>)
    requires i < |all| && fills == Dedupe(FillId(), KeepFirstFill, all[..i])
    ensures Dedupe(FillId(), KeepFirstFill, all[..i + 1])
         == if IndexOf(FillId(), fills, all[i].fillId) < |fills| then fills else fills + [all[i]]
  {
    assert all[..i + 1][..i] == all[..i];
  }

  ghost function FillIds(fills: seq<Fill>): set<string> {
    set f | f in fills :: f.fillId
  }

  lemma {:induction false} SeenExactly(fills: seq<Fill>, id: string)
    ensures id in FillIds(fills) <==> IndexOf(FillId(), fills, id) < |fills|
  {
    var i := IndexOf(FillId(), fills, id);
    if i < |fills| {
      assert fills[i] in fills && FillId()(fills[i]) == id;
    } else {
      forall f | f in fills ensures f.fillId != id {
        var j :| 0 <= j < |fills| && fills[j] == f;
        assert FillId()(fills[j]) != id;
      }
    }
  }

  /** What the loop over the window keeps: the distinct fills, and what it reports of them. */
  datatype Collected = Collected(fills: seq<Fill>, ids: set<string>, maxMs: int, last: Option<Fill>)

  /** A fill with a new id is appended; it advances the maximum and becomes the last one unless it is older. */
  ghost function Collect(c: Collected, fill: Fill): Collected {
    if fill.fillId in c.ids then c
    else Collected(c.fills + [fill], c.ids + {fill.fillId},
                   if Millis(fill.ts) > c.maxMs then Millis(fill.ts) else c.maxMs,
                   if c.last.None? || Millis(fill.ts) >= Millis(c.last.value.ts) then Some(fill) else c.last)
  }

  ghost function CollectAll(all: seq<Fill>, floor: int): Collected {
    Fold(Collected([], {}, floor, None), all, Collect)
  }

  lemma {:induction false} CollectNext(all: seq<Fill>, i: nat, floor: int)
    requires i < |all|
    ensures CollectAll(all[..i + 1], floor) == Collect(CollectAll(all[..i], floor), all[i])
  {
    assert all[..i + 1][..i] == all[..i];
  }

  ghost function Summary(fills: seq<Fill>, floor: int): Collected {
    Collected(fills, FillIds(fills), Latest(floor, fills), LastSeen(fills))
  }

  lemma {:induction false} SummaryNext(fills: seq<Fill>, fill: Fill, floor: int)
    ensures Collect(Summary(fills, floor), fill)
         == if IndexOf(FillId(), fills, fill.fillId) < |fills| then Summary(fills, floor) else Summary(fills + [fill], floor)
  {
    OneMoreFill(floor, fills, fill);
    SeenExactly(fills, fill.fillId);
    FillIdsAppend(fills, fill);
  }

  lemma {:induction false} FillIdsAppend(fills: seq<Fill>, fill: Fill)
    ensures FillIds(fills + [fill]) == FillIds(fills) + {fill.fillId}
  {
    assert fill in fills + [fill];
  }

  lemma {:induction false} CollectsDistinct(all: seq<Fill>, floor: int)
    ensures CollectAll(all, floor) == Summary(Dedupe(FillId(), KeepFirstFill, all), floor)
  {
    if all != [] {
      var n := |all| - 1;
      var fills := Dedupe(FillId(), KeepFirstFill, all[..n]);
      CollectsDistinct(all[..n], floor);
      assert all[..n + 1] == all;
      KeptOrDropped(all, n, fills);
      SummaryNext(fills, all[n], floor);
    }
  }

  /** The loop over the sorted window. */
  method CollectFills(all: seq<Fill>, floor: int) returns (fills: seq<Fill>, deduped: nat, maxMs: int, last: Option<Fill>)
    ensures fills == Dedupe(FillId(), KeepFirstFill, all)
    ensures deduped + |fills| == |all| && maxMs == Latest(floor, fills) && last == LastSeen(fills)
  {
    fills, deduped, maxMs, last := [], 0, floor, None;
    var seenIds: set<string> := {};
    for i := 0 to |all|
      invariant Collected(fills, seenIds, maxMs, last) == CollectAll(all[..i], floor)
      invariant deduped + |fills| == i
    {
      var fill := all[i];
      CollectNext(all, i, floor);
      if fill.fillId in seenIds {
        deduped := deduped + 1;
      } else {
        seenIds := seenIds + {fill.fillId};
        fills := fills + [fill];
        maxMs := if Millis(fill.ts) > maxMs then Millis(fill.ts) else maxMs;
        if last.None? || Millis(fill.ts) >= Millis(last.value.ts) {
          last := Some(fill);
        }
      }
    }
    assert all[..|all|] == all;
    CollectsDistinct(all, floor);
  }

  /** `fetch_new_fills`, given the stored cursor, the clock and what the exchange answered. */
  method FetchNewFills(stored: Option<int>, nowMs: int, lookbackMs: int, incoming: seq<TradeFill>,
                       contentsId: TradeFill -> string)
    returns (fills: seq<Fill>, seen: nat, deduped: nat, cursorAfter: Option<int>, lastSeen: Option<Fill>)
    ensures // the window's distinct fills, in time order
            fills == Dedupe(FillId(), KeepFirstFill, Window(stored, nowMs, lookbackMs, incoming, contentsId))
    ensures seen == deduped + |fills|
    ensures // the last fill seen is the last of the latest ones
            && (lastSeen.None? <==> fills == [])
            && (lastSeen.Some? ==> IsLatest(fills, lastSeen.value))
    ensures // the cursor advances to the latest fill kept and never falls below the stored one
            var floor := if stored.Some? then stored.value else 0;
            && (cursorAfter.None? ==> floor <= 0 && forall f :: f in fills ==> Millis(f.ts) <= 0)
            && (cursorAfter.Some? ==>
                  && cursorAfter.value >= floor
                  && (forall f :: f in fills ==> Millis(f.ts) <= cursorAfter.value)
                  && (cursorAfter.value == floor || exists f :: f in fills && Millis(f.ts) == cursorAfter.value))
  {
    var floor := if stored.Some? then stored.value else 0;
    var window := Window(stored, nowMs, lookbackMs, incoming, contentsId);
    seen := |window|;
    var maxMs;
    fills, deduped, maxMs, lastSeen := CollectFills(window, floor);
    LastSeenIsLatest(fills);
    LatestIsMaximum(floor, fills);
    cursorAfter := if maxMs > 0 then Some(maxMs) else None;
  }

  /** The first millisecond asked for. */
  function SinceMs(stored: Option<int>, nowMs: int, lookbackMs: int): int {
    var start := (if stored.Some? then stored.value else nowMs) - lookbackMs;
    if start < 0 then 0 else start
  }

  /** What the exchange answered, from the lookback on, sorted by time and id. */
  function Window(stored: Option<int>, nowMs: int, lookbackMs: int, incoming: seq<TradeFill>,
                  contentsId: TradeFill -> string): seq<Fill> {
    Map((t: TradeFill) => ToFill(t, contentsId), Sort(WindowLeq, Since(incoming, SinceMs(stored, nowMs, lookbackMs) * 1000)))
  }

  // --- what the window holds

  /** No older than the lookback before the cursor, or before now without one, and not before the epoch. */
  predicate InWindow(t: TradeFill, stored: Option<int>, nowMs: int, lookbackMs: int) {
    t.ts >= 0 && t.ts >= ((if stored.Some? then stored.value else nowMs) - lookbackMs) * 1000
  }

  /** The fill as reported; its id is the stripped text, or made of the contents when that is blank. */
  ghost predicate ReadOf(f: Fill, t: TradeFill, contentsId: TradeFill -> string) {
    && f.symbol == t.symbol && f.side == t.side && f.price == t.price && f.qty == t.qty
    && f.fee == t.fee && f.feeAsset == t.feeCurrency && f.ts == t.ts
    && (if t.fillId.Some? && Strip(t.fillId.value) != "" then f.fillId == Strip(t.fillId.value) else f.fillId == contentsId(t))
  }

  /** Earlier fills first, and fills of one time by id. */
  ghost predicate InTimeOrder(ts: seq<TradeFill>) {
    forall i, j :: 0 <= i < j < |ts| ==> EarlierOrFirst(ts[i].ts, TextId(ts[i]), ts[j].ts, TextId(ts[j]))
  }

  function SameKey(at: int, id: string): TradeFill -> bool {
    (t: TradeFill) => t.ts == at && TextId(t) == id
  }

  lemma {:induction false} SinceContents(incoming: seq<TradeFill>, start: int)
    ensures forall t :: multiset(Since(incoming, start))[t] == if t.ts >= start then multiset(incoming)[t] else 0
  {
    if incoming != [] {
      SinceContents(incoming[1..], start);
      assert incoming == [incoming[0]] + incoming[1..];
    }
  }

  lemma {:induction false} SinceStable(incoming: seq<TradeFill>, start: int, at: int, id: string)
    requires at >= start
    ensures Filter(SameKey(at, id), Since(incoming, start)) == Filter(SameKey(at, id), incoming)
  {
    if incoming != [] {
      var rest := Since(incoming[1..], start);
      SinceStable(incoming[1..], start, at, id);
      assert ([incoming[0]] + rest)[1..] == rest && [] + rest == rest;
    }
  }

  lemma {:induction false} SortedInTime(ts: seq<TradeFill>)
    ensures multiset(Sort(WindowLeq, ts)) == multiset(ts) && InTimeOrder(Sort(WindowLeq, ts))
  {
    var s := Sort(WindowLeq, ts);
    KeyOrder();
    SortSorts(WindowLeq, ts);
    forall i, j | 0 <= i < j < |s| ensures EarlierOrFirst(s[i].ts, TextId(s[i]), s[j].ts, TextId(s[j])) {
      assert WindowLeq(s[i], s[j]);
      KeyLeqExactly(Key(s[i].ts, TextId(s[i])), Key(s[j].ts, TextId(s[j])));
    }
  }

  lemma {:induction false} SortedStably(ts: seq<TradeFill>, at: int, id: string)
    ensures Filter(SameKey(at, id), Sort(WindowLeq, ts)) == Filter(SameKey(at, id), ts)
  {
    StringOrder();
    assert Tied(WindowLeq, SameKey(at, id));
    SortStable(WindowLeq, SameKey(at, id), ts);
  }

  lemma {:induction false} SinceIsWindow(stored: Option<int>, nowMs: int, lookbackMs: int)
    ensures forall t: TradeFill :: t.ts >= SinceMs(stored, nowMs, lookbackMs) * 1000 <==> InWindow(t, stored, nowMs, lookbackMs)
  {
  }

  lemma {:induction false} TakenStably(stored: Option<int>, nowMs: int, lookbackMs: int, incoming: seq<TradeFill>, t: TradeFill)
    requires InWindow(t, stored, nowMs, lookbackMs)
    ensures Filter(SameKey(t.ts, TextId(t)), Sort(WindowLeq, Since(incoming, SinceMs(stored, nowMs, lookbackMs) * 1000)))
         == Filter(SameKey(t.ts, TextId(t)), incoming)
  {
    SinceIsWindow(stored, nowMs, lookbackMs);
    SinceStable(incoming, SinceMs(stored, nowMs, lookbackMs) * 1000, t.ts, TextId(t));
    SortedStably(Since(incoming, SinceMs(stored, nowMs, lookbackMs) * 1000), t.ts, TextId(t));
  }

  lemma {:induction false} TakenInTimeOrder(stored: Option<int>, nowMs: int, lookbackMs: int, incoming: seq<TradeFill>)
    ensures var read := Sort(WindowLeq, Since(incoming, SinceMs(stored, nowMs, lookbackMs) * 1000));
            && InTimeOrder(read)
            && forall t :: multiset(read)[t] == if InWindow(t, stored, nowMs, lookbackMs) then multiset(incoming)[t] else 0
  {
    var start := SinceMs(stored, nowMs, lookbackMs) * 1000;
    SinceIsWindow(stored, nowMs, lookbackMs);
    SinceContents(incoming, start);
    SortedInTime(Since(incoming, start));
  }

  /**
   The window holds what the exchange answered from the lookback on, each fill as often as it was
   answered, in time order, and fills of one time and id in the order answered.
   */
  lemma {:induction false} WindowInTimeOrder(stored: Option<int>, nowMs: int, lookbackMs: int, incoming: seq<TradeFill>,
                                             contentsId: TradeFill -> string)
    returns (read: seq<TradeFill>)
    ensures var window := Window(stored, nowMs, lookbackMs, incoming, contentsId);
            |window| == |read| && forall i :: 0 <= i < |read| ==> ReadOf(window[i], read[i], contentsId)
    ensures forall t :: multiset(read)[t] == if InWindow(t, stored, nowMs, lookbackMs) then multiset(incoming)[t] else 0
    ensures InTimeOrder(read)
    ensures forall t :: InWindow(t, stored, nowMs, lookbackMs) ==>
              Filter(SameKey(t.ts, TextId(t)), read) == Filter(SameKey(t.ts, TextId(t)), incoming)
  {
    read := Sort(WindowLeq, Since(incoming, SinceMs(stored, nowMs, lookbackMs) * 1000));
    TakenInTimeOrder(stored, nowMs, lookbackMs, incoming);
    forall t | InWindow(t, stored, nowMs, lookbackMs)
      ensures Filter(SameKey(t.ts, TextId(t)), read) == Filter(SameKey(t.ts, TextId(t)), incoming)
    {
      TakenStably(stored, nowMs, lookbackMs, incoming, t);
    }
  }
}
