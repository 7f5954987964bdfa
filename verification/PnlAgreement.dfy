/**
 FIFO and average cost tell the same story: whatever is matched with what, realized plus unrealized
 PnL is the cash that came in plus the value of what is held, and fees are the only difference.
 */
module PnlAgreement {
  import opened Results
  import opened Fifo
  import opened AverageCost

  /** A fill of one symbol, with its fee in TRY. */
  datatype Deal = Deal(buy: bool, qty: real, price: real, fee: real, ts: Timestamp)

  ghost predicate Positive(ds: seq<Deal>) {
    forall i :: 0 <= i < |ds| ==> ds[i].qty > 0.0
  }

  function ToTrade(symbol: string, d: Deal): Trade {
    if d.buy then Buy(Lot(symbol, d.qty, d.price, d.ts)) else Sell(d.qty, d.price)
  }

  function Trades(symbol: string, ds: seq<Deal>): (ts: seq<Trade>)
    ensures |ts| == |ds|
  {
    if ds == [] then []
    else
      var n := |ds| - 1;
      Trades(symbol, ds[..n]) + [ToTrade(symbol, ds[n])]
  }

  /** The average-cost book over a list of fills. */
  function AverageAll(ds: seq<Deal>): Option<Holding> {
    if ds == [] then Some(FLAT)
    else
      var n := |ds| - 1;
      NextHolding(AverageAll(ds[..n]), ds[n])
  }

  function Value(qty: real, price: real): real {
    price * qty
  }

  /** Sale proceeds minus purchase cost. */
  ghost function CashIn(ds: seq<Deal>): real {
    if ds == [] then 0.0
    else
      var n := |ds| - 1;
      CashIn(ds[..n]) + if ds[n].buy then -Value(ds[n].qty, ds[n].price) else Value(ds[n].qty, ds[n].price)
  }

  ghost function Fees(ds: seq<Deal>): real {
    if ds == [] then 0.0
    else
      var n := |ds| - 1;
      Fees(ds[..n]) + ds[n].fee
  }

  ghost function Sum(xs: seq<real>): real {
    if xs == [] then 0.0 else xs[0] + Sum(xs[1..])
  }

  lemma {:induction false} SumConcat(a: seq<real>, b: seq<real>)
    ensures Sum(a + b) == Sum(a) + Sum(b)
  {
    if a == [] {
      assert a + b == b;
    } else {
      assert (a + b)[1..] == a[1..] + b;
      SumConcat(a[1..], b);
    }
  }

  // --- average cost

  /** What the average-cost book keeps: realized PnL is cash in, less fees, plus the cost of what is held. */
  ghost predicate AverageBalances(h: Holding, cashIn: real, fees: real) {
    h.qty >= 0.0 && h.realizedPnl - Value(h.qty, h.avgCost) == cashIn - fees
  }

  lemma {:induction false} BookBuyBalances(h: Holding, qty: real, price: real, fee: real, cashIn: real, fees: real)
    requires AverageBalances(h, cashIn, fees) && qty > 0.0
    ensures var h' := BookFill(h, true, qty, price, fee).value;
            h'.qty == h.qty + qty && AverageBalances(h', cashIn - Value(qty, price), fees + fee)
  {
    var total := h.avgCost * h.qty + price * qty + fee;
    var qty' := h.qty + qty;
    assert (total / qty') * qty' == total;
  }

  lemma {:induction false} BookSellBalances(h: Holding, qty: real, price: real, fee: real, cashIn: real, fees: real)
    requires AverageBalances(h, cashIn, fees) && 0.0 < qty <= h.qty
    ensures var h' := BookFill(h, false, qty, price, fee).value;
            h'.qty == h.qty - qty && AverageBalances(h', cashIn + Value(qty, price), fees + fee)
  {
    var left := h.qty - qty;
    assert (price - h.avgCost) * qty == price * qty - h.avgCost * qty;
    assert h.avgCost * left == h.avgCost * h.qty - h.avgCost * qty;
    assert left <= 0.0 ==> left == 0.0;
  }

  // --- FIFO

  lemma {:induction false} GainsOfMatches(price: real, ms: seq<Match>)
    ensures Sum(Gains(price, ms)) == Value(MatchedQty(ms), price) - MatchedCost(ms)
  {
    if ms != [] {
      GainsOfMatches(price, ms[1..]);
      var m := ms[0];
      assert Gains(price, ms)[1..] == Gains(price, ms[1..]);
      assert (price - m.unitCost) * m.qty == price * m.qty - m.qty * m.unitCost;
      assert price * (m.qty + MatchedQty(ms[1..])) == price * m.qty + price * MatchedQty(ms[1..]);
    }
  }

  /** What the FIFO book keeps: the gains are cash in plus the cost of what is held. */
  ghost predicate FifoBalances(book: Book, cashIn: real) {
    NonNegativeLots(book.lots) && Sum(book.gains) - Cost(book.lots) == cashIn
  }

  lemma {:induction false} TradeBuyBalances(book: Book, lot: Lot, cashIn: real)
    requires FifoBalances(book, cashIn) && lot.qty > 0.0
    ensures FifoBalances(Book(book.lots + [lot], book.gains + []), cashIn - Value(lot.qty, lot.unitCost))
    ensures Units(book.lots + [lot]) == Units(book.lots) + lot.qty
  {
    UnitsConcat(book.lots, [lot]);
    assert book.gains + [] == book.gains;
  }

  lemma {:induction false} TradeSellBalances(book: Book, qty: real, price: real, cashIn: real)
    requires FifoBalances(book, cashIn) && 0.0 < qty <= Units(book.lots)
    ensures var sale := SellLots(book.lots, qty, Exact);
            && sale.unfilled == 0.0 && Units(sale.rest) == Units(book.lots) - qty
            && FifoBalances(Book(sale.rest, book.gains + Gains(price, sale.matches)), cashIn + Value(qty, price))
  {
    var sale := SellLots(book.lots, qty, Exact);
    SellDrops(book.lots, qty);
    SellConserves(book.lots, qty);
    GainsOfMatches(price, sale.matches);
    SumConcat(book.gains, Gains(price, sale.matches));
  }

  /** Both books over the same fills: they fail together, hold the same quantity, and both balance. */
  ghost predicate BooksBalance(h: Option<Holding>, book: Option<Book>, ds: seq<Deal>) {
    && h.Some? == book.Some?
    && (h.Some? ==>
          && h.value.qty == Units(book.value.lots)
          && h.value.qty >= 0.0 && h.value.realizedPnl + Fees(ds) == CashIn(ds) + Value(h.value.qty, h.value.avgCost)
          && NonNegativeLots(book.value.lots) && Sum(book.value.gains) == CashIn(ds) + Cost(book.value.lots))
  }

  lemma {:induction false} BalanceStep(symbol: string, h: Holding, book: Book, ds: seq<Deal>, d: Deal)
    requires BooksBalance(Some(h), Some(book), ds) && d.qty > 0.0
    ensures var next := TradeOnce(book.lots, ToTrade(symbol, d), Exact);
            BooksBalance(BookFill(h, d.buy, d.qty, d.price, d.fee),
                         if next.None? then None else Some(Book(next.value.lots, book.gains + next.value.gains)), ds + [d])
  {
    assert (ds + [d])[..|ds|] == ds;
    if d.buy {
      BookBuyBalances(h, d.qty, d.price, d.fee, CashIn(ds), Fees(ds));
      TradeBuyBalances(book, Lot(symbol, d.qty, d.price, d.ts), CashIn(ds));
    } else if d.qty <= h.qty {
      BookSellBalances(h, d.qty, d.price, d.fee, CashIn(ds), Fees(ds));
      TradeSellBalances(book, d.qty, d.price, CashIn(ds));
    } else {
      SellDrops(book.lots, d.qty);
    }
  }

  function NextHolding(h: Option<Holding>, d: Deal): Option<Holding> {
    if h.None? then None else BookFill(h.value, d.buy, d.qty, d.price, d.fee)
  }

  function NextBook(symbol: string, book: Option<Book>, d: Deal): Option<Book> {
    if book.None? then None
    else
      var next := TradeOnce(book.value.lots, ToTrade(symbol, d), Exact);
      if next.None? then None else Some(Book(next.value.lots, book.value.gains + next.value.gains))
  }

  lemma {:induction false} TradesStep(symbol: string, ds: seq<Deal>)
    requires ds != []
    ensures TradeAll([], Trades(symbol, ds), Exact)
         == NextBook(symbol, TradeAll([], Trades(symbol, ds[..|ds| - 1]), Exact), ds[|ds| - 1])
  {
    assert Trades(symbol, ds)[..|ds| - 1] == Trades(symbol, ds[..|ds| - 1]);
  }

  /** The two books over the same fills. */
  datatype Books = Books(average: Option<Holding>, fifo: Option<Book>)

  const EMPTY_BOOKS := Books(Some(FLAT), Some(Book([], [])))

  function NextBooks(symbol: string): (Books, Deal) -> Books {
    (b: Books, d: Deal) => Books(NextHolding(b.average, d), NextBook(symbol, b.fifo, d))
  }

  ghost function Balanced(): (Books, seq<Deal>) -> bool {
    (b: Books, ds: seq<Deal>) => BooksBalance(b.average, b.fifo, ds)
  }

  lemma {:induction false} BooksAreRuns(symbol: string, ds: seq<Deal>)
    ensures Fold(EMPTY_BOOKS, ds, NextBooks(symbol)) == Books(AverageAll(ds), TradeAll([], Trades(symbol, ds), Exact))
  {
    if ds != [] {
      BooksAreRuns(symbol, ds[..|ds| - 1]);
      TradesStep(symbol, ds);
    }
  }

  lemma {:induction false} BalanceNext(symbol: string, b: Books, ds: seq<Deal>, d: Deal)
    requires Balanced()(b, ds) && d.qty > 0.0
    ensures Balanced()(NextBooks(symbol)(b, d), ds + [d])
  {
    if b.average.Some? {
      BalanceStep(symbol, b.average.value, b.fifo.value, ds, d);
    }
  }

  lemma {:induction false} EmptyBalances(h: Holding, book: Book, ds: seq<Deal>)
    requires h.qty == 0.0 && h.realizedPnl == 0.0 && book.lots == [] && book.gains == [] && ds == []
    ensures BooksBalance(Some(h), Some(book), ds)
  {
    assert Value(h.qty, h.avgCost) == 0.0;
  }

  lemma {:induction false} StartBalanced(b: Books, ds: seq<Deal>)
    requires b == EMPTY_BOOKS && ds == []
    ensures Balanced()(b, ds)
  {
    EmptyBalances(b.average.value, b.fifo.value, ds);
  }

  lemma {:induction false} BooksAgree(symbol: string, ds: seq<Deal>)
    requires Positive(ds)
    ensures Balanced()(Fold(EMPTY_BOOKS, ds, NextBooks(symbol)), ds)
  {
    var next, balanced := NextBooks(symbol), Balanced();
    forall b, before, d | d in ds && balanced(b, before) ensures balanced(next(b, d), before + [d]) {
      BalanceNext(symbol, b, before, d);
    }
    StartBalanced(EMPTY_BOOKS, []);
    FoldKeeps(EMPTY_BOOKS, ds, next, balanced);
  }

  // --- totals at a mark price

  /** The exact gain of each open lot at a mark price. */
  function LotGains(mark: real, lots: seq<Lot>): (gains: seq<real>)
    ensures |gains| == |lots|
  {
    if lots == [] then [] else [(mark - lots[0].unitCost) * lots[0].qty] + LotGains(mark, lots[1..])
  }

  lemma {:induction false} LotGainsTotal(mark: real, lots: seq<Lot>)
    ensures Sum(LotGains(mark, lots)) == Value(Units(lots), mark) - Cost(lots)
  {
    if lots != [] {
      LotGainsTotal(mark, lots[1..]);
      var lot := lots[0];
      assert LotGains(mark, lots)[1..] == LotGains(mark, lots[1..]);
      assert (mark - lot.unitCost) * lot.qty == mark * lot.qty - lot.qty * lot.unitCost;
      assert mark * (lot.qty + Units(lots[1..])) == mark * lot.qty + mark * Units(lots[1..]);
    }
  }

  /** Realized plus unrealized PnL of the average-cost book. */
  function AverageTotal(h: Holding, mark: real): real {
    h.realizedPnl + (mark - h.avgCost) * h.qty
  }

  /** Two balanced books have the same total, up to fees. */
  lemma {:induction false} TotalsFromBalance(h: Holding, book: Book, cashIn: real, fees: real, mark: real)
    requires h.qty == Units(book.lots) && AverageBalances(h, cashIn, fees) && FifoBalances(book, cashIn)
    ensures Sum(book.gains) + Sum(LotGains(mark, book.lots)) == AverageTotal(h, mark) + fees
  {
    LotGainsTotal(mark, book.lots);
    assert (mark - h.avgCost) * h.qty == mark * h.qty - h.avgCost * h.qty;
  }

  /** Realized plus unrealized PnL of an exact FIFO book. */
  ghost function FifoTotal(book: Book, mark: real): real {
    Sum(book.gains) + Sum(LotGains(mark, book.lots))
  }

  /**
   FIFO and average cost agree on total PnL: on every list of positive fills they oversell together, and
   otherwise exact FIFO realized plus unrealized PnL is the average-cost total plus all fees, at any mark.
   */
  lemma {:induction false} TotalsAgree(symbol: string, ds: seq<Deal>, mark: real)
    requires Positive(ds)
    ensures var h, book := AverageAll(ds), TradeAll([], Trades(symbol, ds), Exact);
            && h.Some? == book.Some?
            && (h.Some? ==> FifoTotal(book.value, mark) == AverageTotal(h.value, mark) + Fees(ds))
  {
    BooksAgree(symbol, ds);
    BooksAreRuns(symbol, ds);
    var h, book := AverageAll(ds), TradeAll([], Trades(symbol, ds), Exact);
    if h.Some? {
      TotalsFromBalance(h.value, book.value, CashIn(ds), Fees(ds), mark);
    }
  }
}
