/**
 FIFO lot matching, as both ledgers do it: a sell consumes the oldest lots first, rounding the
 remaining quantity and the lot's leftover after every match. The rounding is a parameter; what the
 proofs need of it is that differences of values it leaves alone are left alone too.
 */
module Fifo {
  import opened Money
  import opened Results

  /** A datetime: wall-clock microseconds, with or without a UTC offset. */
  datatype Timestamp = Naive(micros: int) | Aware(micros: int, offset: int) {
    /** The instant on the UTC clock; a naive time is read as UTC. */
    function Instant(): int {
      if Naive? then micros else micros - offset
    }

    /** `ensure_utc` / `canonical_ts`. */
    function EnsureUtc(): Timestamp {
      Aware(Instant(), 0)
    }
  }

  datatype Lot = Lot(symbol: string, qty: real, unitCost: real, openedAt: Timestamp)

  datatype Match = Match(qty: real, unitCost: real)

  datatype Sale = Sale(rest: seq<Lot>, matches: seq<Match>, unfilled: real)

  /** The match loop: what is left of the lots, the matches made, and the quantity left over. */
  function SellLots(lots: seq<Lot>, remaining: real, round: real -> real): (r: Sale)
    ensures |r.matches| + |r.rest| <= |lots| + (if remaining > 0.0 then 1 else 0)
    decreases |lots|
  {
    if remaining <= 0.0 || lots == [] then Sale(lots, [], remaining)
    else
      var lot := lots[0];
      var matched := Min(remaining, lot.qty);
      var remaining' := round(remaining - matched);
      var leftover := round(lot.qty - matched);
      if leftover <= 0.0 then
        var r := SellLots(lots[1..], remaining', round);
        r.(matches := [Match(matched, lot.unitCost)] + r.matches)
      else
        Sale([lot.(qty := leftover)] + lots[1..], [Match(matched, lot.unitCost)], remaining')
  }

  function Gain(price: real, m: Match): real {
    (price - m.unitCost) * m.qty
  }

  function Gains(price: real, matches: seq<Match>): (gains: seq<real>)
    ensures |gains| == |matches|
  {
    if matches == [] then [] else [Gain(price, matches[0])] + Gains(price, matches[1..])
  }

  /** How a ledger books the gain of one match into its realized PnL. */
  type Booking = (real, real) -> real

  function BookAll(realized: real, gains: seq<real>, book: Booking): real
    decreases |gains|
  {
    if gains == [] then realized else BookAll(book(realized, gains[0]), gains[1..], book)
  }

  lemma {:induction false} BookAllConcat(realized: real, a: seq<real>, b: seq<real>, book: Booking)
    ensures BookAll(realized, a + b, book) == BookAll(BookAll(realized, a, book), b, book)
    decreases |a|
  {
    if a == [] {
      assert a + b == b;
    } else {
      assert (a + b)[1..] == a[1..] + b;
      BookAllConcat(book(realized, a[0]), a[1..], b, book);
    }
  }

  /** The sell loop the ledgers run, updating lots, realized PnL and the remaining quantity in turn. */
  method MatchSell(lots0: seq<Lot>, qty: real, price: real, realized0: real, round: real -> real, book: Booking)
    returns (lots: seq<Lot>, realized: real, remaining: real)
    requires round(0.0) == 0.0
    ensures var sale := SellLots(lots0, qty, round);
            && lots == sale.rest && remaining == sale.unfilled
            && realized == BookAll(realized0, Gains(price, sale.matches), book)
  {
    lots, realized, remaining := lots0, realized0, qty;
    ghost var result := SellAndBook(lots, remaining, price, realized, round, book);
    while remaining > 0.0 && lots != []
      invariant result == SellAndBook(lots, remaining, price, realized, round, book)
      decreases |lots|, remaining > 0.0
    {
      var lot := lots[0];
      var matched := Min(remaining, lot.qty);
      realized := book(realized, Gain(price, Match(matched, lot.unitCost)));
      remaining := round(remaining - matched);
      var leftover := round(lot.qty - matched);
      if leftover <= 0.0 {
        lots := lots[1..];
      } else {
        lots := lots[0 := lot.(qty := leftover)];
      }
    }
    SellThenBook(lots0, qty, price, realized0, round, book);
  }

  /** What is left to do from a given point of the sell loop. */
  ghost function SellAndBook(lots: seq<Lot>, remaining: real, price: real, realized: real,
                             round: real -> real, book: Booking): (seq<Lot>, real, real)
    requires round(0.0) == 0.0
    decreases |lots|, remaining > 0.0
  {
    if remaining <= 0.0 || lots == [] then (lots, realized, remaining)
    else
      var lot := lots[0];
      var matched := Min(remaining, lot.qty);
      var leftover := round(lot.qty - matched);
      SellAndBook(if leftover <= 0.0 then lots[1..] else lots[0 := lot.(qty := leftover)],
                  round(remaining - matched), price, book(realized, Gain(price, Match(matched, lot.unitCost))), round, book)
  }

  lemma {:induction false} SellThenBook(lots: seq<Lot>, remaining: real, price: real, realized: real,
                                        round: real -> real, book: Booking)
    requires round(0.0) == 0.0
    ensures var sale := SellLots(lots, remaining, round);
            SellAndBook(lots, remaining, price, realized, round, book)
            == (sale.rest, BookAll(realized, Gains(price, sale.matches), book), sale.unfilled)
    decreases |lots|
  {
    if remaining > 0.0 && lots != [] {
      var lot := lots[0];
      var matched := Min(remaining, lot.qty);
      var m := Match(matched, lot.unitCost);
      var leftover := round(lot.qty - matched);
      if leftover <= 0.0 {
        SellThenBook(lots[1..], round(remaining - matched), price, book(realized, Gain(price, m)), round, book);
        BookFirst(realized, price, m, SellLots(lots[1..], round(remaining - matched), round).matches, book);
      } else {
        assert lots[0 := lot.(qty := leftover)] == [lot.(qty := leftover)] + lots[1..];
        BookFirst(realized, price, m, [], book);
        assert [m] + [] == [m];
      }
    }
  }

  /** Booking the gains of some matches starts with the first. */
  lemma {:induction false} BookFirst(realized: real, price: real, m: Match, rest: seq<Match>, book: Booking)
    ensures BookAll(realized, Gains(price, [m] + rest), book)
         == BookAll(book(realized, Gain(price, m)), Gains(price, rest), book)
  {
    assert ([m] + rest)[1..] == rest;
    assert Gains(price, [m] + rest)[1..] == Gains(price, rest);
  }

  // --- the reference: a queue of units

  ghost function Units(lots: seq<Lot>): real {
    if lots == [] then 0.0 else lots[0].qty + Units(lots[1..])
  }

  ghost function Cost(lots: seq<Lot>): real {
    if lots == [] then 0.0 else lots[0].qty * lots[0].unitCost + Cost(lots[1..])
  }

  /** Remove the oldest `units` units, without any rounding. */
  ghost function DropUnits(lots: seq<Lot>, units: real): seq<Lot> {
    if units <= 0.0 || lots == [] then lots
    else if lots[0].qty <= units then DropUnits(lots[1..], units - lots[0].qty)
    else [lots[0].(qty := lots[0].qty - units)] + lots[1..]
  }

  ghost predicate Quantity(qty: real, round: real -> real) {
    qty >= 0.0 && round(qty) == qty
  }

  ghost predicate WellFormed(lots: seq<Lot>, round: real -> real) {
    forall i :: 0 <= i < |lots| ==> Quantity(lots[i].qty, round)
  }

  ghost function MatchedQty(matches: seq<Match>): real {
    if matches == [] then 0.0 else matches[0].qty + MatchedQty(matches[1..])
  }

  ghost function MatchedCost(matches: seq<Match>): real {
    if matches == [] then 0.0 else matches[0].qty * matches[0].unitCost + MatchedCost(matches[1..])
  }

  lemma {:induction false} UnitsNonNegative(lots: seq<Lot>)
    requires NonNegativeLots(lots)
    ensures Units(lots) >= 0.0
  {
    if lots != [] {
      UnitsNonNegative(lots[1..]);
    }
  }

  lemma {:induction false} UnitsConcat(a: seq<Lot>, b: seq<Lot>)
    ensures Units(a + b) == Units(a) + Units(b)
    ensures Cost(a + b) == Cost(a) + Cost(b)
  {
    if a == [] {
      assert a + b == b;
    } else {
      assert (a + b)[1..] == a[1..] + b;
      UnitsConcat(a[1..], b);
    }
  }

  function Exact(x: real): real {
    x
  }

  ghost predicate NonNegativeLots(lots: seq<Lot>) {
    forall i :: 0 <= i < |lots| ==> lots[i].qty >= 0.0
  }

  /** The difference of two quantities is one that rounding leaves alone. */
  lemma {:induction false} QuantityMinus(x: real, y: real, round: real -> real)
    requires Grid(round) && Quantity(x, round) && Quantity(y, round) && y <= x
    ensures Quantity(x - y, round)
  {
    assert Residue(round, x, y) == 0.0;
  }

  lemma {:induction false} SellPartExact(lots: seq<Lot>, qty: real, round: real -> real)
    requires Grid(round) && WellFormed(lots, round) && Quantity(qty, round) && lots != [] && 0.0 < qty < lots[0].qty
    ensures SellLots(lots, qty, round) == SellLots(lots, qty, Exact)
    ensures WellFormed(SellLots(lots, qty, round).rest, round)
  {
    var held := lots[0].qty;
    assert Quantity(held, round);
    QuantityMinus(held, qty, round);
    QuantityMinus(qty, qty, round);
  }

  /** On well-formed lots the roundings change nothing. */
  lemma {:induction false} SellIsExact(lots: seq<Lot>, qty: real, round: real -> real)
    requires Grid(round) && WellFormed(lots, round) && Quantity(qty, round)
    ensures SellLots(lots, qty, round) == SellLots(lots, qty, Exact)
    ensures WellFormed(SellLots(lots, qty, round).rest, round)
    decreases |lots|
  {
    if qty > 0.0 && lots != [] {
      var held := lots[0].qty;
      assert Quantity(held, round);
      if held <= qty {
        QuantityMinus(qty, held, round);
        QuantityMinus(held, held, round);
        SellIsExact(lots[1..], qty - held, round);
      } else {
        SellPartExact(lots, qty, round);
      }
    }
  }

  /** What dropping a quantity leaves: the rest, and what the lots lacked. */
  ghost predicate Dropped(lots: seq<Lot>, qty: real, rest: seq<Lot>, unfilled: real) {
    && rest == DropUnits(lots, qty) && NonNegativeLots(rest)
    && unfilled == Max(0.0, qty - Units(lots))
    && Units(rest) == Units(lots) - (qty - unfilled)
  }

  lemma {:induction false} DroppedWhole(lots: seq<Lot>, qty: real, rest: seq<Lot>, unfilled: real)
    requires lots != [] && qty > 0.0 && lots[0].qty <= qty && Dropped(lots[1..], qty - lots[0].qty, rest, unfilled)
    ensures Dropped(lots, qty, rest, unfilled)
  {
  }

  lemma {:induction false} SellWholeLot(lots: seq<Lot>, qty: real)
    requires lots != [] && qty > 0.0 && lots[0].qty <= qty
    ensures var r, rest := SellLots(lots, qty, Exact), SellLots(lots[1..], qty - lots[0].qty, Exact);
            r.rest == rest.rest && r.unfilled == rest.unfilled
  {
  }

  /** One sell drops exactly its quantity from the front of the queue. */
  lemma {:induction false} SellDrops(lots: seq<Lot>, qty: real)
    requires qty >= 0.0
    requires NonNegativeLots(lots)
    ensures var r := SellLots(lots, qty, Exact);
            Dropped(lots, qty, r.rest, r.unfilled)
    decreases |lots|
  {
    if qty == 0.0 || lots == [] {
      UnitsNonNegative(lots);
    } else if lots[0].qty <= qty {
      var left := qty - lots[0].qty;
      SellDrops(lots[1..], left);
      SellWholeLot(lots, qty);
      DroppedWhole(lots, qty, SellLots(lots[1..], left, Exact).rest, SellLots(lots[1..], left, Exact).unfilled);
    } else {
      SellPartLot(lots, qty);
    }
  }

  lemma {:induction false} SellPartLot(lots: seq<Lot>, qty: real)
    requires lots != [] && 0.0 < qty < lots[0].qty && NonNegativeLots(lots)
    ensures var r := SellLots(lots, qty, Exact);
            && r.rest == DropUnits(lots, qty) && NonNegativeLots(r.rest)
            && r.unfilled == 0.0 && qty <= Units(lots) && Units(r.rest) == Units(lots) - qty
  {
    UnitsNonNegative(lots[1..]);
    var rest := [lots[0].(qty := lots[0].qty - qty)] + lots[1..];
    assert rest[1..] == lots[1..];
  }

  /** Units and cost add up from the old lots to the matches and the new lots. */
  ghost predicate Conserved(lots: seq<Lot>, qty: real, r: Sale) {
    && MatchedQty(r.matches) == qty - r.unfilled
    && Cost(r.rest) == Cost(lots) - MatchedCost(r.matches)
  }

  lemma {:induction false} ConserveWholeLot(lots: seq<Lot>, qty: real, r: Sale)
    requires lots != [] && Conserved(lots[1..], qty - lots[0].qty, r)
    ensures Conserved(lots, qty, r.(matches := [Match(lots[0].qty, lots[0].unitCost)] + r.matches))
  {
    var matches := [Match(lots[0].qty, lots[0].unitCost)] + r.matches;
    assert matches[1..] == r.matches;
  }

  lemma {:induction false} ConservePartLot(lots: seq<Lot>, qty: real)
    requires lots != []
    ensures Conserved(lots, qty, Sale([lots[0].(qty := lots[0].qty - qty)] + lots[1..], [Match(qty, lots[0].unitCost)], 0.0))
  {
    var rest := [lots[0].(qty := lots[0].qty - qty)] + lots[1..];
    assert rest[1..] == lots[1..];
    var cost := lots[0].unitCost;
    assert (lots[0].qty - qty) * cost == lots[0].qty * cost - qty * cost;
    assert MatchedCost([Match(qty, cost)]) == qty * cost;
  }

  /** The matches account for every unit sold and for all the cost that left the book. */
  lemma {:induction false} SellConserves(lots: seq<Lot>, qty: real)
    ensures Conserved(lots, qty, SellLots(lots, qty, Exact))
    decreases |lots|
  {
    if qty > 0.0 && lots != [] {
      if lots[0].qty <= qty {
        SellConserves(lots[1..], qty - lots[0].qty);
        ConserveWholeLot(lots, qty, SellLots(lots[1..], qty - lots[0].qty, Exact));
      } else {
        ConservePartLot(lots, qty);
      }
    }
  }

  /** From lot k on, with the k-th lot shrunk by what the lots before it did not cover. */
  ghost predicate SuffixAt(lots: seq<Lot>, units: real, k: nat, rest: seq<Lot>) {
    && k <= |lots| && Units(lots[..k]) <= units
    && (rest == lots[k..]
        || (k < |lots| && rest == [lots[k].(qty := lots[k].qty - (units - Units(lots[..k])))] + lots[k + 1..]))
  }

  lemma {:induction false} SuffixStart(lots: seq<Lot>, units: real)
    requires units >= 0.0 && (units == 0.0 || lots == [] || lots[0].qty > units)
    ensures SuffixAt(lots, units, 0, DropUnits(lots, units))
  {
    assert Units(lots[..0]) == 0.0;
  }

  lemma {:induction false} SuffixShift(lots: seq<Lot>, units: real, j: nat, rest: seq<Lot>)
    requires lots != [] && SuffixAt(lots[1..], units - lots[0].qty, j, rest)
    ensures SuffixAt(lots, units, j + 1, rest)
  {
    assert lots[..j + 1][1..] == lots[1..][..j];
    assert lots[j + 1..] == lots[1..][j..];
    if j + 1 < |lots| {
      assert lots[1..][j] == lots[j + 1] && lots[1..][j + 1..] == lots[j + 2..];
    }
  }

  /** The remaining queue is a suffix of the original one whose first lot may have shrunk. */
  lemma {:induction false} DropUnitsIsSuffix(lots: seq<Lot>, units: real) returns (k: nat)
    requires units >= 0.0 && NonNegativeLots(lots)
    requires units <= Units(lots)
    ensures SuffixAt(lots, units, k, DropUnits(lots, units))
  {
    if units > 0.0 && lots != [] && lots[0].qty <= units {
      var j := DropUnitsIsSuffix(lots[1..], units - lots[0].qty);
      k := j + 1;
      SuffixShift(lots, units, j, DropUnits(lots, units));
    } else {
      k := 0;
      SuffixStart(lots, units);
    }
  }

  lemma {:induction false} DropTwice(lots: seq<Lot>, a: real, b: real)
    requires 0.0 <= a <= Units(lots) && b >= 0.0
    ensures DropUnits(DropUnits(lots, a), b) == DropUnits(lots, a + b)
    decreases |lots|
  {
    if a > 0.0 && lots != [] {
      if lots[0].qty <= a {
        DropTwice(lots[1..], a - lots[0].qty, b);
      } else if b > 0.0 {
        var front := [lots[0].(qty := lots[0].qty - a)];
        assert DropUnits(lots, a) == front + lots[1..];
        assert (front + lots[1..])[1..] == lots[1..];
      }
    }
  }

  lemma {:induction false} DropConcat(a: seq<Lot>, b: seq<Lot>, units: real)
    requires units <= Units(a)
    ensures DropUnits(a + b, units) == DropUnits(a, units) + b
    decreases |a|
  {
    if a == [] {
      assert a + b == b;
    } else if units > 0.0 {
      assert (a + b)[1..] == a[1..] + b;
      if a[0].qty <= units {
        DropConcat(a[1..], b, units - a[0].qty);
      }
    }
  }

  // --- whole runs of one symbol's trades

  datatype Trade = Buy(lot: Lot) | Sell(qty: real, price: real)

  /** Open lots, and the exact gain of every match made, in the order they were made. */
  datatype Book = Book(lots: seq<Lot>, gains: seq<real>)

  /** None is the oversell error. */
  function TradeOnce(lots: seq<Lot>, t: Trade, round: real -> real): Option<Book> {
    match t
    case Buy(lot) => Some(Book(lots + [lot], []))
    case Sell(qty, price) =>
      var sale := SellLots(lots, qty, round);
      if sale.unfilled > 0.0 then None else Some(Book(sale.rest, Gains(price, sale.matches)))
  }

  function TradeAll(lots: seq<Lot>, ts: seq<Trade>, round: real -> real): Option<Book> {
    if ts == [] then Some(Book(lots, []))
    else
      var n := |ts| - 1;
      match TradeAll(lots, ts[..n], round)
      case None => None
      case Some(b) =>
        match TradeOnce(b.lots, ts[n], round)
        case None => None
        case Some(b') => Some(Book(b'.lots, b.gains + b'.gains))
  }

  ghost function Bought(ts: seq<Trade>): seq<Lot> {
    if ts == [] then []
    else
      var n := |ts| - 1;
      Bought(ts[..n]) + if ts[n].Buy? then [ts[n].lot] else []
  }

  ghost function Sold(ts: seq<Trade>): real {
    if ts == [] then 0.0
    else
      var n := |ts| - 1;
      Sold(ts[..n]) + if ts[n].Sell? then ts[n].qty else 0.0
  }

  ghost predicate ValidTrades(ts: seq<Trade>, round: real -> real) {
    forall i :: 0 <= i < |ts| ==>
      Quantity(if ts[i].Buy? then ts[i].lot.qty else ts[i].qty, round)
  }

  /** The i-th trade does not sell more than was held before it. */
  ghost predicate CoveredAt(lots: seq<Lot>, ts: seq<Trade>, i: int)
    requires 0 <= i < |ts|
  {
    ts[i].Sell? ==> Sold(ts[..i]) + ts[i].qty <= Units(lots) + Units(Bought(ts[..i]))
  }

  ghost predicate Covered(lots: seq<Lot>, ts: seq<Trade>) {
    forall i :: 0 <= i < |ts| ==> CoveredAt(lots, ts, i)
  }

  /** What a run that did not oversell leaves behind. */
  ghost predicate QueueSuffix(lots: seq<Lot>, ts: seq<Trade>, book: Book) {
    SuffixFrom(lots, Bought(ts), Sold(ts), |ts|, book)
  }

  /** The same, in terms of what was bought and sold. */
  ghost predicate SuffixFrom(lots: seq<Lot>, bought: seq<Lot>, sold: real, trades: nat, book: Book) {
    SuffixOf(lots + bought, Units(lots) + Units(bought), sold, |lots| + trades, book)
  }

  /** A queue with so many units sold from its front, and at most so many matches and open lots. */
  ghost predicate SuffixOf(queue: seq<Lot>, held: real, sold: real, steps: nat, book: Book) {
    && NonNegativeLots(book.lots)
    && book.lots == DropUnits(queue, sold)
    && 0.0 <= sold <= Units(queue)
    && Units(book.lots) == held - sold
    && |book.gains| + |book.lots| <= steps
  }

  /** One more trade, in terms of what was bought and sold. */
  lemma {:induction false} TradeAppended(ts: seq<Trade>, t: Trade)
    ensures Bought(ts + [t]) == if t.Buy? then Bought(ts) + [t.lot] else Bought(ts)
    ensures Sold(ts + [t]) == Sold(ts) + if t.Sell? then t.qty else 0.0
  {
    assert (ts + [t])[..|ts|] == ts;
    assert Bought(ts) + [] == Bought(ts);
  }

  ghost predicate NonNegativeTrades(ts: seq<Trade>) {
    forall i :: 0 <= i < |ts| ==> (if ts[i].Buy? then ts[i].lot.qty else ts[i].qty) >= 0.0
  }

  /**
   FIFO over a whole run is "drop the first S units of the buy queue": it fails exactly when some sell
   exceeds the holdings at that point, otherwise the open lots are that suffix, and the number of
   matches is at most the number of lots and trades.
   */
  lemma {:induction false} RunIsQueueSuffix(lots: seq<Lot>, ts: seq<Trade>)
    requires NonNegativeLots(lots) && NonNegativeTrades(ts)
    ensures TradeAll(lots, ts, Exact).Some? <==> Covered(lots, ts)
    ensures Covered(lots, ts) ==> QueueSuffix(lots, ts, TradeAll(lots, ts, Exact).value)
  {
    if ts == [] {
      assert lots + Bought(ts) == lots;
      UnitsNonNegative(lots);
    } else {
      var n := |ts| - 1;
      RunIsQueueSuffix(lots, ts[..n]);
      CoveredLast(lots, ts);
      if Covered(lots, ts[..n]) {
        QueueSuffixLast(lots, ts, TradeAll(lots, ts[..n], Exact).value);
      }
    }
  }

  lemma {:induction false} QueueSuffixLast(lots: seq<Lot>, ts: seq<Trade>, book: Book)
    requires ts != [] && NonNegativeTrades(ts) && QueueSuffix(lots, ts[..|ts| - 1], book)
    ensures var n := |ts| - 1;
            match TradeOnce(book.lots, ts[n], Exact)
            case None => !CoveredAt(lots, ts, n)
            case Some(b) => CoveredAt(lots, ts, n) && QueueSuffix(lots, ts, Book(b.lots, book.gains + b.gains))
  {
    var n := |ts| - 1;
    assert ts[..n] + [ts[n]] == ts;
    QueueSuffixStep(lots, ts[..n], book, ts[n]);
  }

  lemma {:induction false} CoveredLast(lots: seq<Lot>, ts: seq<Trade>)
    requires ts != []
    ensures var n := |ts| - 1;
            Covered(lots, ts) <==> Covered(lots, ts[..n]) && CoveredAt(lots, ts, n)
  {
    var n := |ts| - 1;
    forall i | 0 <= i < n ensures CoveredAt(lots, ts[..n], i) <==> CoveredAt(lots, ts, i) {
      assert ts[..n][..i] == ts[..i];
    }
  }

  lemma {:induction false} QueueSuffixStep(lots: seq<Lot>, ts: seq<Trade>, book: Book, t: Trade)
    requires QueueSuffix(lots, ts, book) && (if t.Buy? then t.lot.qty else t.qty) >= 0.0
    ensures match TradeOnce(book.lots, t, Exact)
            case None => t.Sell? && Sold(ts) + t.qty > Units(lots) + Units(Bought(ts))
            case Some(b) =>
              && (t.Sell? ==> Sold(ts) + t.qty <= Units(lots) + Units(Bought(ts)))
              && QueueSuffix(lots, ts + [t], Book(b.lots, book.gains + b.gains))
  {
    match t {
      case Buy(lot) =>
        QueueSuffixBuy(lots, ts, book, lot);
        assert book.gains + [] == book.gains;
      case Sell(qty, price) =>
        QueueSuffixSell(lots, ts, book, qty, price);
    }
  }

  lemma {:induction false} FromTrades(lots: seq<Lot>, ts: seq<Trade>, bought: seq<Lot>, sold: real, trades: nat, book: Book)
    requires bought == Bought(ts) && sold == Sold(ts) && trades == |ts| && SuffixFrom(lots, bought, sold, trades, book)
    ensures QueueSuffix(lots, ts, book)
  {
  }

  lemma {:induction false} QueueSuffixBuy(lots: seq<Lot>, ts: seq<Trade>, book: Book, lot: Lot)
    requires QueueSuffix(lots, ts, book) && lot.qty >= 0.0
    ensures QueueSuffix(lots, ts + [Buy(lot)], Book(book.lots + [lot], book.gains))
  {
    TradeAppended(ts, Buy(lot));
    BoughtFrom(lots, Bought(ts), Sold(ts), |ts|, book, lot);
    FromTrades(lots, ts + [Buy(lot)], Bought(ts) + [lot], Sold(ts), |ts| + 1, Book(book.lots + [lot], book.gains));
  }

  lemma {:induction false} BoughtFrom(lots: seq<Lot>, bought: seq<Lot>, sold: real, trades: nat, book: Book, lot: Lot)
    requires SuffixFrom(lots, bought, sold, trades, book) && lot.qty >= 0.0
    ensures SuffixFrom(lots, bought + [lot], sold, trades + 1, Book(book.lots + [lot], book.gains))
  {
    UnitsConcat(bought, [lot]);
    assert lots + (bought + [lot]) == (lots + bought) + [lot];
    BoughtMore(lots + bought, Units(lots) + Units(bought), sold, |lots| + trades, book, lot);
  }

  /** A buy goes to the end of the queue and of its suffix. */
  lemma {:induction false} BoughtMore(queue: seq<Lot>, held: real, sold: real, steps: nat, book: Book, lot: Lot)
    requires SuffixOf(queue, held, sold, steps, book) && lot.qty >= 0.0
    ensures SuffixOf(queue + [lot], held + Units([lot]), sold, steps + 1, Book(book.lots + [lot], book.gains))
  {
    UnitsConcat(queue, [lot]);
    DropConcat(queue, [lot], sold);
    UnitsConcat(book.lots, [lot]);
  }

  lemma {:induction false} QueueSuffixSell(lots: seq<Lot>, ts: seq<Trade>, book: Book, qty: real, price: real)
    requires QueueSuffix(lots, ts, book) && qty >= 0.0
    ensures var sale := SellLots(book.lots, qty, Exact);
            && (sale.unfilled > 0.0 <==> qty > Units(book.lots))
            && (qty <= Units(book.lots) ==>
                  QueueSuffix(lots, ts + [Sell(qty, price)], Book(sale.rest, book.gains + Gains(price, sale.matches))))
  {
    SellDrops(book.lots, qty);
    if qty <= Units(book.lots) {
      var sale := SellLots(book.lots, qty, Exact);
      QueueSuffixSold(lots, ts, book, Sell(qty, price), sale.rest, sale.unfilled, Gains(price, sale.matches));
    }
  }

  lemma {:induction false} QueueSuffixSold(lots: seq<Lot>, ts: seq<Trade>, book: Book, t: Trade, rest: seq<Lot>, unfilled: real, gains: seq<real>)
    requires QueueSuffix(lots, ts, book) && t.Sell? && 0.0 <= t.qty <= Units(book.lots)
    requires Dropped(book.lots, t.qty, rest, unfilled) && |gains| + |rest| <= |book.lots| + 1
    ensures QueueSuffix(lots, ts + [t], Book(rest, book.gains + gains))
  {
    TradeAppended(ts, t);
    SoldFrom(lots, Bought(ts), Sold(ts), |ts|, book, t.qty, rest, unfilled, gains);
    FromTrades(lots, ts + [t], Bought(ts), Sold(ts) + t.qty, |ts| + 1, Book(rest, book.gains + gains));
  }

  lemma {:induction false} SoldFrom(lots: seq<Lot>, bought: seq<Lot>, sold: real, trades: nat, book: Book, qty: real,
                                    rest: seq<Lot>, unfilled: real, gains: seq<real>)
    requires SuffixFrom(lots, bought, sold, trades, book) && 0.0 <= qty <= Units(book.lots)
    requires Dropped(book.lots, qty, rest, unfilled) && |gains| + |rest| <= |book.lots| + 1
    ensures SuffixFrom(lots, bought, sold + qty, trades + 1, Book(rest, book.gains + gains))
  {
    UnitsConcat(lots, bought);
    SoldMore(lots + bought, Units(lots) + Units(bought), sold, |lots| + trades, book, qty, rest, unfilled, gains);
  }

  /** A sell that is covered drops its quantity from the queue suffix. */
  lemma {:induction false} SoldMore(queue: seq<Lot>, held: real, sold: real, steps: nat, book: Book, qty: real,
                                    rest: seq<Lot>, unfilled: real, gains: seq<real>)
    requires SuffixOf(queue, held, sold, steps, book) && held == Units(queue) && 0.0 <= qty <= Units(book.lots)
    requires Dropped(book.lots, qty, rest, unfilled) && |gains| + |rest| <= |book.lots| + 1
    ensures SuffixOf(queue, held, sold + qty, steps + 1, Book(rest, book.gains + gains))
  {
    DropTwice(queue, sold, qty);
  }

  /** On-grid trades over on-grid lots run as if nothing were rounded. */
  lemma {:induction false} RoundingVanishes(lots: seq<Lot>, ts: seq<Trade>, round: real -> real)
    requires Grid(round) && WellFormed(lots, round) && ValidTrades(ts, round)
    ensures TradeAll(lots, ts, round) == TradeAll(lots, ts, Exact)
    ensures TradeAll(lots, ts, round).Some? ==> WellFormed(TradeAll(lots, ts, round).value.lots, round)
  {
    if ts != [] {
      var n := |ts| - 1;
      RoundingVanishes(lots, ts[..n], round);
      var before := TradeAll(lots, ts[..n], round);
      if before.Some? && ts[n].Sell? {
        SellIsExact(before.value.lots, ts[n].qty, round);
      }
    }
  }
}
