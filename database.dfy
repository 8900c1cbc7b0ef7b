/**
 * The persistence layer as the trigger engine and the portfolio code see
 * it. The two tables are maps keyed by id; `stocksTable` is the value of the
 * STOCKS_TABLE variable, which every stocks operation checks first. Scan
 * and query answers are inputs, and so is which calls fail for reasons the
 * model does not see (`Faults`).
 */
module Database {
  import opened Wrappers
  import opened Models

  datatype DbError =
    | TableNotSet      // STOCKS_TABLE is empty
    | StockNotFound
    | TriggerNotFound
    | ReadFailed
    | WriteFailed
    | QueryFailed
    | ScanFailed
    | UnmarshalFailed
    | InvalidPrice     // the quote's price is not a number

  /** The ids whose item reads or writes fail, per table. */
  datatype Faults = Faults(
    stockReads: set<string>,
    stockWrites: set<string>,
    triggerReads: set<string>,
    triggerWrites: set<string>)

  /** Fetches a stock by id: fails when STOCKS_TABLE is empty, on a read fault, or when no item has that id. */
  function GetStock(stocksTable: string, stocks: map<string, Stock>, faults: Faults, stockId: string)
    : (r: Result<Stock, DbError>)
    ensures r.Success? <==> stocksTable != "" && stockId !in faults.stockReads && stockId in stocks
    ensures r.Success? ==> r.value == stocks[stockId]
    ensures stocksTable == "" ==> r == Failure(TableNotSet)
  {
    if stocksTable == "" then Failure(TableNotSet)
    else if stockId in faults.stockReads then Failure(ReadFailed)
    else if stockId !in stocks then Failure(StockNotFound)
    else Success(stocks[stockId])
  }

  /** Fetches a trigger by id from the fixed "Triggers" table. */
  function GetTrigger(triggers: map<string, StockTrigger>, faults: Faults, triggerId: string)
    : (r: Result<StockTrigger, DbError>)
    ensures r.Success? <==> triggerId !in faults.triggerReads && triggerId in triggers
    ensures r.Success? ==> r.value == triggers[triggerId]
  {
    if triggerId in faults.triggerReads then Failure(ReadFailed)
    else if triggerId !in triggers then Failure(TriggerNotFound)
    else Success(triggers[triggerId])
  }

  class Database {
    var stocksTable: string
    var stocks: map<string, Stock>
    var triggers: map<string, StockTrigger>

    /** Items are stored under their own key attribute. */
    ghost predicate Valid()
      reads this
    {
      && (forall k | k in stocks :: stocks[k].stockId == k)
      && (forall k | k in triggers :: triggers[k].triggerId == k)
    }

    constructor (stocksTable: string)
      ensures Valid()
      ensures this.stocksTable == stocksTable && stocks == map[] && triggers == map[]
    {
      this.stocksTable := stocksTable;
      stocks, triggers := map[], map[];
    }

    /**
     * Adds a holding under the fresh id: current and last price are both the
     * parsed quote price, both timestamps are `now`, and no trigger is set.
     * `price` is None when the quote's price does not parse.
     */
    method AddStockToUser(userId: string, symbol: string, name: string, exchange: string, currency: string,
                          price: Option<real>, freshId: string, now: int, faults: Faults)
      returns (r: Outcome<DbError>)
      requires Valid()
      modifies this`stocks
      ensures Valid()
      ensures stocksTable == "" ==> r == Fail(TableNotSet) && stocks == old(stocks)
      ensures stocksTable != "" && price.None? ==> r == Fail(InvalidPrice) && stocks == old(stocks)
      ensures stocksTable != "" && price.Some? && freshId in faults.stockWrites ==>
        r == Fail(WriteFailed) && stocks == old(stocks)
      ensures stocksTable != "" && price.Some? && freshId !in faults.stockWrites ==>
        && r == Pass
        && stocks == old(stocks)[freshId := Stock(freshId, userId, symbol, name, exchange, currency,
                                                  price.value, price.value, now, now, [])]
    {
      if stocksTable == "" {
        return Fail(TableNotSet);
      }
      if price.None? {
        return Fail(InvalidPrice);
      }
      var p := price.value;
      var stock := Stock(freshId, userId, symbol, name, exchange, currency, p, p, now, now, []);
      if freshId in faults.stockWrites {
        return Fail(WriteFailed);
      }
      stocks := stocks[freshId := stock];
      r := Pass;
    }

    /** Stamps `lastUpdated` with `now` and writes the stock; nothing else about it changes. */
    method UpdateStock(stock: Stock, now: int, faults: Faults) returns (r: Outcome<DbError>)
      requires Valid()
      modifies this`stocks
      ensures Valid()
      ensures stocksTable == "" ==> r == Fail(TableNotSet) && stocks == old(stocks)
      ensures stocksTable != "" && stock.stockId in faults.stockWrites ==>
        r == Fail(WriteFailed) && stocks == old(stocks)
      ensures stocksTable != "" && stock.stockId !in faults.stockWrites ==>
        r == Pass && stocks == old(stocks)[stock.stockId := stock.(lastUpdated := now)]
    {
      if stocksTable == "" {
        return Fail(TableNotSet);
      }
      var stamped := stock.(lastUpdated := now);
      if stock.stockId in faults.stockWrites {
        return Fail(WriteFailed);
      }
      stocks := stocks[stock.stockId := stamped];
      r := Pass;
    }

    /**
     * Deletes the item keyed by (user id, stock id): the holding goes only when
     * it belongs to `userId`, and deleting an item that is not there succeeds.
     */
    method RemoveStockFromUser(userId: string, stockId: string, faults: Faults) returns (r: Outcome<DbError>)
      requires Valid()
      modifies this`stocks
      ensures Valid()
      ensures stocksTable == "" ==> r == Fail(TableNotSet) && stocks == old(stocks)
      ensures stocksTable != "" && stockId in faults.stockWrites ==>
        r == Fail(WriteFailed) && stocks == old(stocks)
      ensures stocksTable != "" && stockId !in faults.stockWrites ==>
        && r == Pass
        && (stockId in old(stocks) && old(stocks)[stockId].userId == userId ==> stocks == old(stocks) - {stockId})
        && (stockId !in old(stocks) || old(stocks)[stockId].userId != userId ==> stocks == old(stocks))
    {
      if stocksTable == "" {
        return Fail(TableNotSet);
      }
      if stockId in faults.stockWrites {
        return Fail(WriteFailed);
      }
      if stockId in stocks && stocks[stockId].userId == userId {
        stocks := stocks - {stockId};
      }
      r := Pass;
    }

    /**
     * Gives the trigger the fresh id, creation and update times `now` and the
     * zero (never fired) last-trigger time, then writes it. The caller sees
     * the stamped record whether or not the write succeeds.
     */
    method CreateTrigger(t: StockTrigger, freshId: string, now: int, faults: Faults)
      returns (r: Outcome<DbError>, created: StockTrigger)
      requires Valid()
      modifies this`triggers
      ensures Valid()
      ensures created == t.(triggerId := freshId, createdAt := now, updatedAt := now, lastTrigger := None)
      ensures freshId in faults.triggerWrites ==> r == Fail(WriteFailed) && triggers == old(triggers)
      ensures freshId !in faults.triggerWrites ==> r == Pass && triggers == old(triggers)[freshId := created]
    {
      created := t.(triggerId := freshId, createdAt := now, updatedAt := now, lastTrigger := None);
      if freshId in faults.triggerWrites {
        return Fail(WriteFailed), created;
      }
      triggers := triggers[freshId := created];
      r := Pass;
    }

    /** Stamps `updatedAt` with `now` and overwrites the trigger stored under its id. */
    method UpdateTrigger(t: StockTrigger, now: int, faults: Faults) returns (r: Outcome<DbError>)
      requires Valid()
      modifies this`triggers
      ensures Valid()
      ensures t.triggerId in faults.triggerWrites ==> r == Fail(WriteFailed) && triggers == old(triggers)
      ensures t.triggerId !in faults.triggerWrites ==>
        r == Pass && triggers == old(triggers)[t.triggerId := t.(updatedAt := now)]
    {
      if t.triggerId in faults.triggerWrites {
        return Fail(WriteFailed);
      }
      triggers := triggers[t.triggerId := t.(updatedAt := now)];
      r := Pass;
    }

    /** Removes the trigger stored under `triggerId`; removing a missing id succeeds. */
    method DeleteTrigger(triggerId: string, faults: Faults) returns (r: Outcome<DbError>)
      requires Valid()
      modifies this`triggers
      ensures Valid()
      ensures triggerId in faults.triggerWrites ==> r == Fail(WriteFailed) && triggers == old(triggers)
      ensures triggerId !in faults.triggerWrites ==> r == Pass && triggers == old(triggers) - {triggerId}
    {
      if triggerId in faults.triggerWrites {
        return Fail(WriteFailed);
      }
      triggers := triggers - {triggerId};
      r := Pass;
    }
  }

  // ---------------------------------------------------------------------
  // Portfolio dedup (GetAllUniqueStocks)

  /**
   * The `uniqueStocks` map after folding the scanned items in order: an item
   * that failed to unmarshal (None) is skipped; a decoded stock replaces the
   * kept one for its symbol only when its `addedAt` is strictly later.
   */
  function Dedup(items: seq<Option<Stock>>): (m: map<string, Stock>)
    ensures forall k | k in m :: m[k].symbol == k
    decreases |items|
  {
    if items == [] then map[]
    else
      var m := Dedup(items[..|items| - 1]);
      match items[|items| - 1]
      case None => m
      case Some(s) =>
        if s.symbol !in m || s.addedAt > m[s.symbol].addedAt then m[s.symbol := s] else m
  }

  /** The symbols of the items that unmarshalled. */
  ghost function Symbols(items: seq<Option<Stock>>): set<string>
  {
    set i | 0 <= i < |items| && items[i].Some? :: items[i].value.symbol
  }

  /** The items that unmarshalled, in scan order. */
  function Decoded(items: seq<Option<Stock>>): seq<Option<Stock>>
    decreases |items|
  {
    if items == [] then []
    else
      var rest := Decoded(items[..|items| - 1]);
      if items[|items| - 1].Some? then rest + [items[|items| - 1]] else rest
  }

  /** Every unmarshalled symbol, and nothing else, is a key of the dedup map. */
  lemma {:induction false} DedupSymbols(items: seq<Option<Stock>>)
    ensures Dedup(items).Keys == Symbols(items)
    decreases |items|
  {
    if items != [] {
      var p := items[..|items| - 1];
      DedupSymbols(p);
      assert forall i | 0 <= i < |p| :: p[i] == items[i];
      assert Symbols(items) == Symbols(p) + (if items[|items| - 1].Some? then {items[|items| - 1].value.symbol} else {}) by {
        forall x | x in Symbols(items) ensures x in Symbols(p) + (if items[|items| - 1].Some? then {items[|items| - 1].value.symbol} else {}) {
          var i :| 0 <= i < |items| && items[i].Some? && items[i].value.symbol == x;
          if i < |p| { assert p[i] == items[i]; }
        }
      }
    }
  }

  /** The kept stock of a symbol was added no earlier than any scanned item of that symbol. */
  lemma {:induction false} DedupKeepsLatest(items: seq<Option<Stock>>, i: int)
    requires 0 <= i < |items| && items[i].Some?
    ensures items[i].value.symbol in Dedup(items)
    ensures items[i].value.addedAt <= Dedup(items)[items[i].value.symbol].addedAt
    decreases |items|
  {
    var p := items[..|items| - 1];
    if i < |p| {
      assert p[i] == items[i];
      DedupKeepsLatest(p, i);
    }
  }

  /**
   * The kept stock of a symbol is an item that was scanned, and the first one
   * of the latest `addedAt`: every earlier item of that symbol was added
   * strictly earlier (ties keep the first seen).
   */
  lemma {:induction false} DedupKeepsFirstLatest(items: seq<Option<Stock>>, k: string)
    requires k in Dedup(items)
    ensures exists i | 0 <= i < |items| ::
      && items[i] == Some(Dedup(items)[k])
      && (forall j | 0 <= j < i && items[j].Some? && items[j].value.symbol == k ::
            items[j].value.addedAt < Dedup(items)[k].addedAt)
    decreases |items|
  {
    var p := items[..|items| - 1];
    var last := items[|items| - 1];
    var m := Dedup(p);
    assert forall j | 0 <= j < |p| :: p[j] == items[j];
    if last.Some? && last.value.symbol == k && (k !in m || last.value.addedAt > m[k].addedAt) {
      var s := last.value;
      assert Dedup(items)[k] == s;
      forall j | 0 <= j < |p| && items[j].Some? && items[j].value.symbol == k
        ensures items[j].value.addedAt < s.addedAt
      {
        DedupKeepsLatest(p, j);
      }
      assert items[|items| - 1] == Some(Dedup(items)[k]);
    } else {
      assert Dedup(items) == m || (last.Some? && last.value.symbol != k);
      assert k in m && Dedup(items)[k] == m[k];
      DedupKeepsFirstLatest(p, k);
      var i :| 0 <= i < |p| && p[i] == Some(m[k]) &&
        forall j | 0 <= j < i && p[j].Some? && p[j].value.symbol == k :: p[j].value.addedAt < m[k].addedAt;
      assert items[i] == Some(Dedup(items)[k]);
    }
  }

  /** Items that fail to unmarshal have no effect on the result. */
  lemma {:induction false} DedupIgnoresUndecodable(items: seq<Option<Stock>>)
    ensures Dedup(items) == Dedup(Decoded(items))
    decreases |items|
  {
    if items != [] {
      var p := items[..|items| - 1];
      DedupIgnoresUndecodable(p);
      var last := items[|items| - 1];
      if last.Some? {
        var d := Decoded(p) + [last];
        assert d[..|d| - 1] == Decoded(p);
      }
    }
  }

  /** `out` lists, once per symbol, the kept stocks of the symbols in `keys`. */
  ghost predicate Lists(out: seq<Stock>, m: map<string, Stock>, keys: set<string>)
  {
    && (forall i | 0 <= i < |out| :: out[i].symbol in keys && out[i].symbol in m && m[out[i].symbol] == out[i])
    && (forall i, j | 0 <= i < j < |out| :: out[i].symbol != out[j].symbol)
    && (forall k | k in keys :: exists i | 0 <= i < |out| :: out[i].symbol == k)
  }

  lemma ListsExtend(out: seq<Stock>, m: map<string, Stock>, keys: set<string>, k: string,
                    keys': set<string>, out': seq<Stock>)
    requires k in m && m[k].symbol == k && k !in keys && keys' == keys + {k}
    requires out' == out + [m[k]]
    requires Lists(out, m, keys)
    ensures Lists(out', m, keys')
  {
    assert out'[|out|].symbol == k;
    forall v | v in keys ensures exists i | 0 <= i < |out'| :: out'[i].symbol == v {
      var i :| 0 <= i < |out| && out[i].symbol == v;
      assert out'[i].symbol == v;
    }
  }

  /**
   * Scans the table and keeps one stock per symbol, the most recently added,
   * listed in an arbitrary order. Fails without scanning when STOCKS_TABLE is
   * empty, and returns the scan's error when the scan fails.
   */
  method GetAllUniqueStocks(stocksTable: string, scan: Result<seq<Option<Stock>>, DbError>)
    returns (r: Result<seq<Stock>, DbError>)
    ensures stocksTable == "" ==> r == Failure(TableNotSet)
    ensures stocksTable != "" && scan.Failure? ==> r == Failure(scan.error)
    ensures stocksTable != "" && scan.Success? ==>
      r.Success? && Lists(r.value, Dedup(scan.value), Dedup(scan.value).Keys)
  {
    if stocksTable == "" {
      return Failure(TableNotSet);
    }
    if scan.Failure? {
      return Failure(scan.error);
    }
    var items := scan.value;
    var uniqueStocks: map<string, Stock> := map[];
    var i := 0;
    while i < |items|
      invariant 0 <= i <= |items|
      invariant uniqueStocks == Dedup(items[..i])
    {
      assert items[..i + 1][..i] == items[..i];
      match items[i] {
        case None =>
        case Some(stock) =>
          if stock.symbol !in uniqueStocks || stock.addedAt > uniqueStocks[stock.symbol].addedAt {
            uniqueStocks := uniqueStocks[stock.symbol := stock];
          }
      }
      i := i + 1;
    }
    assert items[..|items|] == items;

    var stocks: seq<Stock> := [];
    var pending := uniqueStocks.Keys;
    ghost var done: set<string> := {};
    while pending != {}
      invariant pending + done == uniqueStocks.Keys && pending !! done
      invariant Lists(stocks, uniqueStocks, done)
      decreases pending
    {
      var k :| k in pending;
      var next := stocks + [uniqueStocks[k]];
      ListsExtend(stocks, uniqueStocks, done, k, done + {k}, next);
      stocks := next;
      pending := pending - {k};
      done := done + {k};
    }
    r := Success(stocks);
  }

  /** A stock after a fresh quote: the old price moves to `lastPrice`. */
  function RollForward(s: Stock, quote: real, now: int): (r: Stock)
    ensures r.lastPrice == s.price && r.price == quote && r.lastUpdated == now
    ensures r.(lastPrice := s.lastPrice, price := s.price, lastUpdated := s.lastUpdated) == s
  {
    s.(lastPrice := s.price, price := quote, lastUpdated := now)
  }

  /**
   * The price refresh loop over a user's stocks, in place: entry `i` is
   * rolled forward when its quote fetch succeeded (`i in quotes`) and left
   * as it was otherwise.
   */
  method RollForwardPrices(stocks: array<Stock>, quotes: map<int, real>, now: int)
    modifies stocks
    ensures forall i | 0 <= i < stocks.Length && i in quotes ::
      stocks[i] == RollForward(old(stocks[i]), quotes[i], now)
    ensures forall i | 0 <= i < stocks.Length && i !in quotes :: stocks[i] == old(stocks[i])
  {
    var i := 0;
    while i < stocks.Length
      invariant 0 <= i <= stocks.Length
      invariant forall j | 0 <= j < i && j in quotes :: stocks[j] == RollForward(old(stocks[j]), quotes[j], now)
      invariant forall j | 0 <= j < i && j !in quotes :: stocks[j] == old(stocks[j])
      invariant forall j | i <= j < stocks.Length :: stocks[j] == old(stocks[j])
    {
      if i in quotes {
        stocks[i] := stocks[i].(lastPrice := stocks[i].price, price := quotes[i], lastUpdated := now);
      }
      i := i + 1;
    }
  }

  /**
   * A user's stocks with refreshed prices. Fails without querying when
   * STOCKS_TABLE is empty and returns the query's error when the query
   * fails; otherwise the same stocks in the same order, where a stock whose
   * quote arrived has `lastPrice` = its old price, `price` = the quote and
   * `lastUpdated` = now, and every other stock is unchanged.
   */
  method GetUserStocks(stocksTable: string, query: Result<seq<Stock>, DbError>, quotes: map<int, real>, now: int)
    returns (r: Result<seq<Stock>, DbError>)
    ensures stocksTable == "" ==> r == Failure(TableNotSet)
    ensures stocksTable != "" && query.Failure? ==> r == Failure(query.error)
    ensures stocksTable != "" && query.Success? ==> r.Success? && |r.value| == |query.value|
    ensures stocksTable != "" && query.Success? ==> forall i | 0 <= i < |r.value| && i in quotes ::
      var before := query.value[i];
      && r.value[i].lastPrice == before.price && r.value[i].price == quotes[i] && r.value[i].lastUpdated == now
      && r.value[i] == before.(lastPrice := r.value[i].lastPrice, price := r.value[i].price, lastUpdated := r.value[i].lastUpdated)
    ensures stocksTable != "" && query.Success? ==>
      forall i | 0 <= i < |r.value| && i !in quotes :: r.value[i] == query.value[i]
  {
    if stocksTable == "" {
      return Failure(TableNotSet);
    }
    if query.Failure? {
      return Failure(query.error);
    }
    var items := query.value;
    var stocks := new Stock[|items|](i requires 0 <= i < |items| => items[i]);
    RollForwardPrices(stocks, quotes, now);
    r := Success(stocks[..]);
  }
}
