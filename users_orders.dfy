/** The user's open orders, as the user-info modal lists them: every order
    of the wallet that trades the long or the short option of a market with
    open orders, grouped by market in the order of the markets list. */
module UsersOrders {
  import opened Common

  /** The fields of an options market the list uses. */
  datatype Market = Market(address: string, longAddress: string, shortAddress: string, phase: string)

  /** A 0x order: the token the maker gives and the token the maker takes. */
  datatype Order = Order(makerToken: string, takerToken: string)

  /** A record of the orders query: the order and whatever else the row
      shows. */
  datatype OrderRecord<D> = OrderRecord(order: Order, data: D)

  datatype Side = Side(isBuy: bool, isLong: bool)

  /** A listed order, with its market and side. */
  datatype OrderRow<D> = OrderRow(record: OrderRecord<D>, market: Market, isBuy: bool, isLong: bool)

  /** A buy order pays sUSD: the maker gives sUSD. */
  predicate IsBuy(order: Order, sUSD: string)
  {
    SameIgnoringCase(order.makerToken, sUSD)
  }

  /** The option token the order trades: what the maker takes when buying,
      what the maker gives when selling. */
  function OptionToken(order: Order, sUSD: string): string
  {
    if IsBuy(order, sUSD) then order.takerToken else order.makerToken
  }

  /** The side of an order in a market, or None when it trades neither of
      the market's options; the long option is tried first. */
  function Classify(market: Market, order: Order, sUSD: string): (side: Option<Side>)
    ensures side.Some? <==>
      SameIgnoringCase(market.longAddress, OptionToken(order, sUSD)) ||
      SameIgnoringCase(market.shortAddress, OptionToken(order, sUSD))
    ensures side.Some? ==> side.value.isBuy == IsBuy(order, sUSD)
    ensures side.Some? ==> (side.value.isLong <==> SameIgnoringCase(market.longAddress, OptionToken(order, sUSD)))
  {
    var isBuy := IsBuy(order, sUSD);
    if (isBuy && SameIgnoringCase(market.longAddress, order.takerToken)) ||
       (!isBuy && SameIgnoringCase(market.longAddress, order.makerToken)) then
      Some(Side(isBuy, true))
    else if (isBuy && SameIgnoringCase(market.shortAddress, order.takerToken)) ||
            (!isBuy && SameIgnoringCase(market.shortAddress, order.makerToken)) then
      Some(Side(isBuy, false))
    else None
  }

  /** Buying the long option with sUSD and selling it for sUSD are both long
      orders, on opposite sides; the letters' case does not matter. */
  lemma LongBuyAndSell(market: Market, sUSD: string, other: string)
    requires !SameIgnoringCase(market.longAddress, sUSD)
    ensures Classify(market, Order(sUSD, market.longAddress), sUSD) == Some(Side(true, true))
    ensures Classify(market, Order(market.longAddress, sUSD), sUSD) == Some(Side(false, true))
  {
  }

  /** An order that trades neither option of the market is not listed
      under it, whatever its side. */
  lemma ForeignOrderDropped(market: Market, order: Order, sUSD: string)
    requires !SameIgnoringCase(market.longAddress, order.makerToken) && !SameIgnoringCase(market.longAddress, order.takerToken)
    requires !SameIgnoringCase(market.shortAddress, order.makerToken) && !SameIgnoringCase(market.shortAddress, order.takerToken)
    ensures Classify(market, order, sUSD) == None
  {
  }

  /** `openOrdersMapCache?.[address] || 0`: a market missing from the cache,
      or no cache at all, has no open orders. */
  function OpenOrders(cache: Option<map<string, int>>, address: string): (n: int)
    ensures cache.None? ==> n == 0
    ensures cache.Some? && address !in cache.value ==> n == 0
    ensures cache.Some? && address in cache.value ==> n == cache.value[address]
  {
    if cache.Some? && address in cache.value then cache.value[address] else 0
  }

  /** The rows for one market: its orders in the records' order. */
  function MarketRows<D>(market: Market, records: seq<OrderRecord<D>>, sUSD: string): (rows: seq<OrderRow<D>>)
    ensures |rows| <= |records|
    ensures forall i :: 0 <= i < |rows| ==> rows[i].market == market && rows[i].record in records
  {
    if |records| == 0 then []
    else
      var last := records[|records| - 1];
      var side := Classify(market, last.order, sUSD);
      MarketRows(market, records[..|records| - 1], sUSD) +
      (if side.Some? then [OrderRow(last, market, side.value.isBuy, side.value.isLong)] else [])
  }

  /** The rows of all markets with open orders, market after market. */
  function AllRows<D>(markets: seq<Market>, records: seq<OrderRecord<D>>,
                      cache: Option<map<string, int>>, sUSD: string): (rows: seq<OrderRow<D>>)
    ensures forall i :: 0 <= i < |rows| ==> rows[i].market in markets && rows[i].record in records
  {
    if |markets| == 0 then []
    else
      var last := markets[|markets| - 1];
      AllRows(markets[..|markets| - 1], records, cache, sUSD) +
      (if OpenOrders(cache, last.address) > 0 then MarketRows(last, records, sUSD) else [])
  }

  /** `filteredOrders`: nothing until the orders query has succeeded. */
  function Filtered<D>(querySucceeded: bool, markets: seq<Market>, records: seq<OrderRecord<D>>,
                       cache: Option<map<string, int>>, sUSD: string): (rows: seq<OrderRow<D>>)
    ensures !querySucceeded ==> rows == []
  {
    if querySucceeded then AllRows(markets, records, cache, sUSD) else []
  }

  /** The memo itself: a reduce over the markets, and for each market with
      open orders a reduce over the records, pushing each order of the
      market with its side. */
  method FilteredOrders<D>(querySucceeded: bool, markets: seq<Market>, records: seq<OrderRecord<D>>,
                           cache: Option<map<string, int>>, sUSD: string)
    returns (rows: seq<OrderRow<D>>)
    ensures rows == Filtered(querySucceeded, markets, records, cache, sUSD)
  {
    if !querySucceeded {
      return [];
    }
    rows := [];
    for i := 0 to |markets|
      invariant rows == AllRows(markets[..i], records, cache, sUSD)
    {
      var market := markets[i];
      assert markets[..i + 1][..i] == markets[..i];
      var openOrders := OpenOrders(cache, market.address);
      if openOrders > 0 {
        var forMarket := MarketOrders(market, records, sUSD);
        rows := rows + forMarket;
      }
    }
    assert markets[..|markets|] == markets;
  }

  /** The inner reduce: each order of the market, with its side, in the
      records' order. */
  method MarketOrders<D>(market: Market, records: seq<OrderRecord<D>>, sUSD: string)
    returns (forMarket: seq<OrderRow<D>>)
    ensures forMarket == MarketRows(market, records, sUSD)
  {
    forMarket := [];
    for j := 0 to |records|
      invariant forMarket == MarketRows(market, records[..j], sUSD)
    {
      var record := records[j];
      assert records[..j + 1][..j] == records[..j];
      var side := Classify(market, record.order, sUSD);
      if side.Some? {
        forMarket := forMarket + [OrderRow(record, market, side.value.isBuy, side.value.isLong)];
      }
    }
    assert records[..|records|] == records;
  }

  /** Every row of a market is one of its records, classified. */
  lemma {:induction false} MarketRowsSound<D>(market: Market, records: seq<OrderRecord<D>>, sUSD: string, row: OrderRow<D>)
    requires row in MarketRows(market, records, sUSD)
    ensures row.market == market && row.record in records
    ensures Classify(market, row.record.order, sUSD) == Some(Side(row.isBuy, row.isLong))
  {
    var init := records[..|records| - 1];
    if row in MarketRows(market, init, sUSD) {
      MarketRowsSound(market, init, sUSD, row);
    }
  }

  /** Every record the market's options trade gets a row. */
  lemma {:induction false} MarketRowsComplete<D>(market: Market, records: seq<OrderRecord<D>>, sUSD: string, k: int)
    requires 0 <= k < |records| && Classify(market, records[k].order, sUSD).Some?
    ensures var side := Classify(market, records[k].order, sUSD).value;
      OrderRow(records[k], market, side.isBuy, side.isLong) in MarketRows(market, records, sUSD)
  {
    var init := records[..|records| - 1];
    if k < |records| - 1 {
      assert init[k] == records[k];
      MarketRowsComplete(market, init, sUSD, k);
    }
  }

  /** Every listed order belongs to a listed market with open orders, and
      carries the side its tokens give it. */
  lemma {:induction false} ListedOrdersSound<D>(markets: seq<Market>, records: seq<OrderRecord<D>>,
                                                cache: Option<map<string, int>>, sUSD: string, row: OrderRow<D>)
    requires row in AllRows(markets, records, cache, sUSD)
    ensures row.market in markets && OpenOrders(cache, row.market.address) > 0
    ensures row.record in records
    ensures Classify(row.market, row.record.order, sUSD) == Some(Side(row.isBuy, row.isLong))
  {
    var init := markets[..|markets| - 1];
    var last := markets[|markets| - 1];
    if row in AllRows(init, records, cache, sUSD) {
      ListedOrdersSound(init, records, cache, sUSD, row);
    } else {
      MarketRowsSound(last, records, sUSD, row);
    }
  }

  /** Every order of a market with open orders that trades one of its
      options is listed. */
  lemma {:induction false} ListedOrdersComplete<D>(markets: seq<Market>, records: seq<OrderRecord<D>>,
                                                   cache: Option<map<string, int>>, sUSD: string, i: int, k: int)
    requires 0 <= i < |markets| && 0 <= k < |records|
    requires OpenOrders(cache, markets[i].address) > 0
    requires Classify(markets[i], records[k].order, sUSD).Some?
    ensures var side := Classify(markets[i], records[k].order, sUSD).value;
      OrderRow(records[k], markets[i], side.isBuy, side.isLong) in AllRows(markets, records, cache, sUSD)
  {
    var init := markets[..|markets| - 1];
    if i < |markets| - 1 {
      assert init[i] == markets[i];
      ListedOrdersComplete(init, records, cache, sUSD, i, k);
    } else {
      MarketRowsComplete(markets[i], records, sUSD, k);
    }
  }

  /** A market with no open orders in the cache contributes no row, however
      many of the wallet's orders trade its options. */
  lemma {:induction false} ClosedMarketsUnlisted<D>(markets: seq<Market>, records: seq<OrderRecord<D>>,
                                                    cache: Option<map<string, int>>, sUSD: string, row: OrderRow<D>)
    requires row in AllRows(markets, records, cache, sUSD)
    ensures cache.Some? && row.market.address in cache.value
  {
    ListedOrdersSound(markets, records, cache, sUSD, row);
  }

  /** A click on a row: a market that has not reached expiry is opened and
      the modal closed; a click on an expired market does nothing. */
  method ClickRow<D>(row: OrderRow<D>) returns (navigateTo: Option<string>, closeModal: bool)
    ensures navigateTo.Some? <==> row.market.phase != "expiry"
    ensures navigateTo.Some? ==> navigateTo.value == row.market.address
    ensures closeModal <==> navigateTo.Some?
  {
    navigateTo, closeModal := None, false;
    if row.market.phase != "expiry" {
      navigateTo := Some(row.market.address);
      closeModal := true;
    }
  }
}
