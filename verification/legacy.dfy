/**
  The two earlier revisions of the simulator module: the ES-class revision
  and the prototype revision. Both keep in-memory logs of plain rows, run
  each period as one synchronous pool run up to the scheduled end, and reduce a
  period to a profit row, an optional five-column ohlc row and a volume row.
  The prototype revision also encodes orders itself as fixed 17-slot arrays and
  derives default price bounds from the configuration.
 */
module Legacy {
  import opened SimTypes
  import Telemetry
  import Population
  import Gains

  /** The ES-class revision remembers the last row written; the prototype revision does not. */
  datatype Revision = ClassRevision | PrototypeRevision

  /** An in-memory log: the rows written, in order, and the remembered last row. */
  datatype Log<T> = Log(data: seq<T>, last: Option<T>)

  /** `Log.write`: an undefined value is dropped; any other value is appended (and remembered, in the class revision). */
  function Write<T>(rev: Revision, log: Log<T>, x: Option<T>): (r: Log<T>)
    ensures x.None? ==> r == log
    ensures x.Some? ==> r.data == log.data + [x.value]
    ensures rev == ClassRevision && x.Some? ==> r.last == x
    ensures rev == PrototypeRevision ==> r.last == log.last
  {
    match x
    case None => log
    case Some(v) => Log(log.data + [v], if rev == ClassRevision then x else log.last)
  }

  /** The defined values of `xs`, in order. */
  function Defined<T>(xs: seq<Option<T>>): seq<T> {
    if |xs| == 0 then []
    else Defined(xs[..|xs| - 1]) + (if xs[|xs| - 1].Some? then [xs[|xs| - 1].value] else [])
  }

  /** A sequence of writes, in order. */
  function WriteAll<T>(rev: Revision, log: Log<T>, xs: seq<Option<T>>): Log<T> {
    if |xs| == 0 then log else Write(rev, WriteAll(rev, log, xs[..|xs| - 1]), xs[|xs| - 1])
  }

  /** In the class revision, `last` is the newest row of `data`. */
  ghost predicate LastIsNewest<T>(log: Log<T>) {
    log.last == Last(log.data)
  }

  /**
    After any sequence of writes the log holds exactly the defined values, in
    the order written; in the class revision `last` stays the newest row.
   */
  lemma {:induction false} WriteAllKeepsDefined<T>(rev: Revision, log: Log<T>, xs: seq<Option<T>>)
    ensures WriteAll(rev, log, xs).data == log.data + Defined(xs)
    ensures rev == ClassRevision && LastIsNewest(log) ==> LastIsNewest(WriteAll(rev, log, xs))
  {
    if |xs| > 0 {
      WriteAllKeepsDefined(rev, log, xs[..|xs| - 1]);
    }
  }

  // ---------------------------------------------------------------- orders

  /**
    `simpleOrder`: 17 numeric slots, all 0 except the time (slot 0), the user
    id (slot 2), the cancel-replace flag (slot 3) and the quantity 1 (slot 4).
   */
  function SimpleOrder(t: int, uid: int, cancelReplace: int): (o: seq<int>)
    ensures |o| == 17
  {
    seq(17, i requires 0 <= i < 17 =>
      if i == 0 then t else if i == 2 then uid else if i == 3 then cancelReplace else if i == 4 then 1 else 0)
  }

  /** Cancel-replace is 0 when old orders are kept, otherwise 1. */
  function CancelFlag(keepOldOrders: bool): int {
    if keepOldOrders then 0 else 1
  }

  /** `simpleBuyOrder`: the buy limit price goes into slot 5. */
  function SimpleBuyOrder(t: int, uid: int, buyPrice: int, keepOldOrders: bool): (o: seq<int>)
    ensures |o| == 17
  {
    SimpleOrder(t, uid, CancelFlag(keepOldOrders))[5 := buyPrice]
  }

  /** `simpleSellOrder`: the sell limit price goes into slot 6. */
  function SimpleSellOrder(t: int, uid: int, sellPrice: int, keepOldOrders: bool): (o: seq<int>)
    ensures |o| == 17
  {
    SimpleOrder(t, uid, CancelFlag(keepOldOrders))[6 := sellPrice]
  }

  /** The fields a simple order carries. */
  datatype OrderFields = OrderFields(t: int, uid: int, cancelReplace: bool, quantity: int, buyPrice: int, sellPrice: int)

  /** Reads the fields back from the slot positions; anything but 17 slots is not an order. */
  function DecodeOrder(o: seq<int>): Option<OrderFields> {
    if |o| != 17 then None
    else Some(OrderFields(o[0], o[2], o[3] != 0, o[4], o[5], o[6]))
  }

  /** The slots a simple order leaves at 0 (everything except 0, 2, 3, 4 and the price slot). */
  predicate OtherSlotsZero(o: seq<int>, priceSlot: nat) {
    forall i :: 0 <= i < |o| && i != 0 && i != 2 && i != 3 && i != 4 && i != priceSlot ==> o[i] == 0
  }

  /** A buy order decodes to its time, user, cancel-replace flag, quantity 1 and buy price, sell price 0. */
  lemma BuyOrderRoundTrip(t: int, uid: int, buyPrice: int, keepOldOrders: bool)
    ensures DecodeOrder(SimpleBuyOrder(t, uid, buyPrice, keepOldOrders))
            == Some(OrderFields(t, uid, !keepOldOrders, 1, buyPrice, 0))
    ensures OtherSlotsZero(SimpleBuyOrder(t, uid, buyPrice, keepOldOrders), 5)
  {
    var o := SimpleBuyOrder(t, uid, buyPrice, keepOldOrders);
    assert o[0] == t && o[2] == uid && o[4] == 1 && o[6] == 0;
    assert o[3] == CancelFlag(keepOldOrders);
  }

  /** A sell order decodes to its time, user, cancel-replace flag, quantity 1 and sell price, buy price 0. */
  lemma SellOrderRoundTrip(t: int, uid: int, sellPrice: int, keepOldOrders: bool)
    ensures DecodeOrder(SimpleSellOrder(t, uid, sellPrice, keepOldOrders))
            == Some(OrderFields(t, uid, !keepOldOrders, 1, 0, sellPrice))
    ensures OtherSlotsZero(SimpleSellOrder(t, uid, sellPrice, keepOldOrders), 6)
  {
    var o := SimpleSellOrder(t, uid, sellPrice, keepOldOrders);
    assert o[0] == t && o[2] == uid && o[4] == 1 && o[5] == 0;
    assert o[3] == CancelFlag(keepOldOrders);
  }

  /**
    Conversely, every 17-slot array shaped like a buy order (quantity 1, flag
    0 or 1, sell slot and all spare slots 0) is the encoding of its own fields.
   */
  lemma BuyOrderFromFields(o: seq<int>)
    requires |o| == 17 && o[4] == 1 && (o[3] == 0 || o[3] == 1) && o[6] == 0
    requires OtherSlotsZero(o, 5)
    ensures SimpleBuyOrder(o[0], o[2], o[5], o[3] == 0) == o
  {
    var e := SimpleBuyOrder(o[0], o[2], o[5], o[3] == 0);
    forall i | 0 <= i < 17
      ensures e[i] == o[i]
    {
      if i != 5 {
        assert e[i] == SimpleOrder(o[0], o[2], CancelFlag(o[3] == 0))[i];
      }
    }
  }

  // ------------------------------------------------------------ order rows

  /** What an agent knows when it wakes: period number, wake time, period start, id, units of X held. */
  datatype Wake = Wake(period: int, wakeTime: int, startTime: int, id: int, inventoryX: int)

  const OrderRowHeader: seq<string> :=
    ["period", "t", "tp", "id", "x", "buyLimitPrice", "value", "sellLimitPrice", "cost"]

  /**
    The value of an order-row column for a bid (`isBid`) or an ask: the wake
    stamp columns, then the limit price and value/cost under the order's own
    side and blanks under the other side.
   */
  function OrderColumn(w: Wake, isBid: bool, price: int, limit: int, name: string): Cell {
    if name == "period" then IntCell(w.period)
    else if name == "t" then IntCell(w.wakeTime)
    else if name == "tp" then IntCell(w.wakeTime - w.startTime)
    else if name == "id" then IntCell(w.id)
    else if name == "x" then IntCell(w.inventoryX)
    else if name == "buyLimitPrice" then (if isBid then IntCell(price) else Blank)
    else if name == "value" then (if isBid then IntCell(limit) else Blank)
    else if name == "sellLimitPrice" then (if isBid then Blank else IntCell(price))
    else if name == "cost" then (if isBid then Blank else IntCell(limit))
    else Blank
  }

  /** The buyorder row a bid writes: every column is the header's column for a bid. */
  function BidRow(w: Wake, price: int, value: int): (r: Row)
    ensures |r| == |OrderRowHeader|
    ensures forall k :: 0 <= k < |r| ==> r[k] == OrderColumn(w, true, price, value, OrderRowHeader[k])
  {
    [IntCell(w.period), IntCell(w.wakeTime), IntCell(w.wakeTime - w.startTime), IntCell(w.id),
     IntCell(w.inventoryX), IntCell(price), IntCell(value), Blank, Blank]
  }

  /** The sellorder row an ask writes: every column is the header's column for an ask. */
  function AskRow(w: Wake, price: int, cost: int): (r: Row)
    ensures |r| == |OrderRowHeader|
    ensures forall k :: 0 <= k < |r| ==> r[k] == OrderColumn(w, false, price, cost, OrderRowHeader[k])
  {
    [IntCell(w.period), IntCell(w.wakeTime), IntCell(w.wakeTime - w.startTime), IntCell(w.id),
     IntCell(w.inventoryX), Blank, Blank, IntCell(price), IntCell(cost)]
  }

  /**
    A bid and an ask at the same wake agree on the five stamp columns, and of
    the four price columns each fills exactly the ones the other leaves blank.
   */
  lemma BidAskComplement(w: Wake, bidPrice: int, value: int, askPrice: int, cost: int)
    ensures var b := BidRow(w, bidPrice, value);
      var a := AskRow(w, askPrice, cost);
      && b[..5] == a[..5]
      && b[2] == IntCell(w.wakeTime - w.startTime)
      && (forall k :: 5 <= k < 9 ==> (b[k] == Blank <==> a[k] != Blank))
  {
  }

  // -------------------------------------------------------- legacy state

  /** The state of an earlier-revision simulation: counters, trade-price buffer and the six logs. */
  datatype LegacySim = LegacySim(
    rev: Revision,
    period: int,
    periodDuration: int,
    periodTradePrices: seq<int>,
    trade: Log<Row>,
    buyorder: Log<Row>,
    sellorder: Log<Row>,
    profit: Log<Row>,
    ohlc: Log<Row>,
    volume: Log<Row>)

  const OhlcRowHeader: seq<string> := ["period", "open", "high", "low", "close"]
  const TradeRowHeader: seq<string> :=
    ["period", "t", "tp", "price", "buyerAgentId", "buyerValue", "buyerProfit", "sellerAgentId", "sellerCost", "sellerProfit"]
  const VolumeRowHeader: seq<string> := ["period", "volume"]

  function HeaderRow(names: seq<string>): (r: Row)
    ensures |r| == |names|
    ensures forall k :: 0 <= k < |r| ==> r[k] == Text(names[k])
  {
    seq(|names|, k requires 0 <= k < |names| => Text(names[k]))
  }

  /**
    A new simulation at period 0: every log is created empty, then the ohlc,
    buyorder, sellorder, trade and volume logs get their header rows (the
    profit log has none).
   */
  function InitLogs(rev: Revision, periodDuration: int): (s: LegacySim)
    ensures s.period == 0 && s.periodTradePrices == [] && s.profit.data == []
    ensures s.ohlc.data == [HeaderRow(OhlcRowHeader)]
    ensures s.buyorder.data == [HeaderRow(OrderRowHeader)] && s.sellorder.data == [HeaderRow(OrderRowHeader)]
    ensures s.trade.data == [HeaderRow(TradeRowHeader)]
    ensures s.volume.data == [HeaderRow(VolumeRowHeader)]
  {
    var empty := Log([], None);
    LegacySim(rev, 0, periodDuration, [],
      Write(rev, empty, Some(HeaderRow(TradeRowHeader))),
      Write(rev, empty, Some(HeaderRow(OrderRowHeader))),
      Write(rev, empty, Some(HeaderRow(OrderRowHeader))),
      empty,
      Write(rev, empty, Some(HeaderRow(OhlcRowHeader))),
      Write(rev, empty, Some(HeaderRow(VolumeRowHeader))))
  }

  /** A bid is logged only when it is for good X. */
  function Bid(sim: LegacySim, goods: string, w: Wake, price: int, value: int): (r: LegacySim)
    ensures goods == "X" ==> r.buyorder.data == sim.buyorder.data + [BidRow(w, price, value)]
    ensures goods != "X" ==> r == sim
    ensures r.(buyorder := sim.buyorder) == sim
  {
    if goods == "X" then sim.(buyorder := Write(sim.rev, sim.buyorder, Some(BidRow(w, price, value)))) else sim
  }

  /** An ask is logged only when it is for good X. */
  function Ask(sim: LegacySim, goods: string, w: Wake, price: int, cost: int): (r: LegacySim)
    ensures goods == "X" ==> r.sellorder.data == sim.sellorder.data + [AskRow(w, price, cost)]
    ensures goods != "X" ==> r == sim
    ensures r.(sellorder := sim.sellorder) == sim
  {
    if goods == "X" then sim.(sellorder := Write(sim.rev, sim.sellorder, Some(AskRow(w, price, cost)))) else sim
  }

  // -------------------------------------------------------------- trades

  /** The ten-column trade row: period, t, tp, price, then buyer id/value/profit and seller id/cost/profit. */
  function LegacyTradeRow(sim: LegacySim, ev: Telemetry.TradeEvent, price: int): Row {
    [IntCell(sim.period), IntCell(ev.t), IntCell(ev.t - sim.period * sim.periodDuration), IntCell(price),
     IntCell(ev.buyerId), IntCell(ev.buyerValue), IntCell(ev.buyerValue - price),
     IntCell(ev.sellerId), IntCell(ev.sellerCost), IntCell(price - ev.sellerCost)]
  }

  /**
    `logTrade` of the earlier revisions: the same single-unit and price checks
    as the current revision; on success the price is buffered and the
    ten-column row is written.
   */
  function LegacyLogTrade(sim: LegacySim, ev: Telemetry.TradeEvent): (r: Result<LegacySim>)
    ensures r.Ok? <==> ev.SingleUnit() && ev.Priced()
    ensures !ev.SingleUnit() ==> r == Err(SingleUnitTradeRequired)
    ensures ev.SingleUnit() && !ev.Priced() ==> r == Err(UndefinedTradePrice)
    ensures r.Ok? ==> r.value.periodTradePrices == sim.periodTradePrices + [ev.price.value]
    ensures r.Ok? ==> |r.value.trade.data| == |sim.trade.data| + 1
    ensures r.Ok? ==>
      var row := r.value.trade.data[|sim.trade.data|];
      && r.value.trade.data[..|sim.trade.data|] == sim.trade.data
      && |row| == |TradeRowHeader|
      && row[0] == IntCell(sim.period)
      && row[1] == IntCell(ev.t)
      && row[2] == IntCell(ev.t - sim.period * sim.periodDuration)
      && row[3] == IntCell(ev.price.value)
      && row[4] == IntCell(ev.buyerId)
      && row[5] == IntCell(ev.buyerValue)
      && row[6] == IntCell(ev.buyerValue - ev.price.value)
      && row[7] == IntCell(ev.sellerId)
      && row[8] == IntCell(ev.sellerCost)
      && row[9] == IntCell(ev.price.value - ev.sellerCost)
    ensures r.Ok? ==> r.value.(trade := sim.trade, periodTradePrices := sim.periodTradePrices) == sim
  {
    if !ev.SingleUnit() then Err(SingleUnitTradeRequired)
    else if !ev.Priced() then Err(UndefinedTradePrice)
    else
      var price := ev.price.value;
      Ok(sim.(periodTradePrices := sim.periodTradePrices + [price],
              trade := Write(sim.rev, sim.trade, Some(LegacyTradeRow(sim, ev, price)))))
  }

  /**
    Both earlier revisions accept exactly the trades the current revision
    accepts, and log the same price, time offset and profits for them.
   */
  lemma LegacyTradeAgreesWithCurrent(sim: LegacySim, cur: Telemetry.Sim, ev: Telemetry.TradeEvent)
    requires cur.period == sim.period && cur.config.periodDuration == sim.periodDuration
    ensures LegacyLogTrade(sim, ev).Ok? <==> Telemetry.LogTrade(cur, ev).Ok?
    ensures LegacyLogTrade(sim, ev).Ok? ==>
      var row := LegacyLogTrade(sim, ev).value.trade.data[|sim.trade.data|];
      var now := Telemetry.LogTrade(cur, ev).value.trades[|cur.trades|];
      && row[2] == IntCell(now.tp)
      && row[3] == IntCell(now.price)
      && row[6] == IntCell(now.buyerProfit)
      && row[9] == IntCell(now.sellerProfit)
  {
    if ev.SingleUnit() && ev.Priced() {
      assert LegacyLogTrade(sim, ev).value.trade.data[|sim.trade.data|] == LegacyTradeRow(sim, ev, ev.price.value);
    }
  }

  // -------------------------------------------------------------- periods

  /** `ohlc()`: [period, open, high, low, close] when the period had trades, otherwise undefined. */
  function LegacyOhlc(period: int, prices: seq<int>): (r: Option<Row>)
    ensures r.Some? <==> |prices| > 0
    ensures r.Some? ==> |r.value| == |OhlcRowHeader|
    ensures r.Some? ==>
      && r.value[0] == IntCell(period)
      && r.value[1] == IntCell(prices[0])
      && r.value[4] == IntCell(prices[|prices| - 1])
      && r.value[2].Num? && r.value[3].Num?
      && (forall i :: 0 <= i < |prices| ==> r.value[3].x <= prices[i] as real <= r.value[2].x)
      && (exists i :: 0 <= i < |prices| && r.value[2] == IntCell(prices[i]))
      && (exists i :: 0 <= i < |prices| && r.value[3] == IntCell(prices[i]))
  {
    if |prices| == 0 then None
    else
      var h := Telemetry.SeqMax(prices);
      var l := Telemetry.SeqMin(prices);
      Some([IntCell(period), IntCell(prices[0]), IntCell(h), IntCell(l), IntCell(prices[|prices| - 1])])
  }

  /** The ohlc row orders its prices: low <= open, close <= high. */
  lemma LegacyOhlcOrdered(period: int, prices: seq<int>)
    requires |prices| > 0
    ensures var r := LegacyOhlc(period, prices).value;
      r[3].x <= r[1].x <= r[2].x && r[3].x <= r[4].x <= r[2].x
  {
  }

  function MoneyRow(money: seq<int>): (r: Row)
    ensures |r| == |money|
    ensures forall i :: 0 <= i < |r| ==> r[i] == IntCell(money[i])
  {
    seq(|money|, i requires 0 <= i < |money| => IntCell(money[i]))
  }

  /**
    `logPeriod` of the earlier revisions: writes every agent's final money to
    the profit log, the ohlc row (dropped when undefined), [period, number of
    trades] to the volume log, and empties the price buffer.
   */
  function LegacyLogPeriod(sim: LegacySim, finalMoney: seq<int>): (r: LegacySim)
    ensures r.periodTradePrices == []
    ensures r.profit.data == sim.profit.data + [MoneyRow(finalMoney)]
    ensures r.volume.data == sim.volume.data + [[IntCell(sim.period), IntCell(|sim.periodTradePrices|)]]
    ensures |sim.periodTradePrices| > 0 ==>
      r.ohlc.data == sim.ohlc.data + [LegacyOhlc(sim.period, sim.periodTradePrices).value]
    ensures |sim.periodTradePrices| == 0 ==> r.ohlc == sim.ohlc
    ensures r.(periodTradePrices := sim.periodTradePrices, profit := sim.profit, ohlc := sim.ohlc, volume := sim.volume) == sim
  {
    sim.(profit := Write(sim.rev, sim.profit, Some(MoneyRow(finalMoney))),
         ohlc := Write(sim.rev, sim.ohlc, LegacyOhlc(sim.period, sim.periodTradePrices)),
         volume := Write(sim.rev, sim.volume, Some([IntCell(sim.period), IntCell(|sim.periodTradePrices|)])),
         periodTradePrices := [])
  }

  /**
    In the class revision the remembered last ohlc row is the one the sniper
    agents read their reference prices from: after a period without trades it
    is still the last trading period's row, and after a period with trades it
    is that period's row.
   */
  lemma LastOhlcIsLastTradingPeriod(sim: LegacySim, finalMoney: seq<int>)
    requires sim.rev == ClassRevision
    ensures var r := LegacyLogPeriod(sim, finalMoney);
      && (|sim.periodTradePrices| == 0 ==> r.ohlc.last == sim.ohlc.last)
      && (|sim.periodTradePrices| > 0 ==>
            r.ohlc.last == LegacyOhlc(sim.period, sim.periodTradePrices)
            && r.ohlc.last.value[0] == IntCell(sim.period))
  {
  }

  // ----------------------------------------------------------- pool runs

  /** What the pool reports while it runs: bids, asks and trades, in order. */
  datatype LegacyEvent =
    | BidEvent(goods: string, wake: Wake, price: int, value: int)
    | AskEvent(goods: string, wake: Wake, price: int, cost: int)
    | TradeEvent(trade: Telemetry.TradeEvent)

  /** The external agent pool: scheduled end of period p, the events of a run to a horizon, final money after period p. */
  datatype LegacyPool = LegacyPool(
    endTime: int -> int,
    syncRun: (LegacySim, int) -> seq<LegacyEvent>,
    finalMoney: int -> seq<int>)

  predicate AllLegacyTradesValid(events: seq<LegacyEvent>) {
    forall i :: 0 <= i < |events| && events[i].TradeEvent? ==>
      events[i].trade.SingleUnit() && events[i].trade.Priced()
  }

  function RecordLegacyEvent(sim: LegacySim, ev: LegacyEvent): Result<LegacySim> {
    match ev
    case BidEvent(goods, w, price, value) => Ok(Bid(sim, goods, w, price, value))
    case AskEvent(goods, w, price, cost) => Ok(Ask(sim, goods, w, price, cost))
    case TradeEvent(tr) => LegacyLogTrade(sim, tr)
  }

  /** The period's logs are untouched and the period counter kept. */
  predicate PeriodLogsKept(sim: LegacySim, next: LegacySim) {
    && next.rev == sim.rev
    && next.period == sim.period
    && next.periodDuration == sim.periodDuration
    && next.profit == sim.profit
    && next.ohlc == sim.ohlc
    && next.volume == sim.volume
  }

  /** Logging of one pool run; the first refused trade aborts it with its error. */
  function RecordLegacy(sim: LegacySim, events: seq<LegacyEvent>): (r: Result<LegacySim>)
    ensures r.Ok? <==> AllLegacyTradesValid(events)
    ensures r.Ok? ==> PeriodLogsKept(sim, r.value)
    ensures r.Ok? ==> r.value.periodTradePrices == sim.periodTradePrices + TradePrices(events)
    ensures r.Ok? ==> |r.value.periodTradePrices| == |sim.periodTradePrices| + |TradePrices(events)|
    ensures r.Err? ==> r.error.IsTradeRefusal()
    decreases |events|
  {
    if |events| == 0 then Ok(sim)
    else
      match RecordLegacyEvent(sim, events[0])
      case Err(e) =>
        assert !AllLegacyTradesValid(events) by {
          assert events[0].TradeEvent? && !(events[0].trade.SingleUnit() && events[0].trade.Priced());
        }
        Err(e)
      case Ok(next) =>
        assert AllLegacyTradesValid(events) <==> AllLegacyTradesValid(events[1..]) by {
          if AllLegacyTradesValid(events[1..]) {
            forall i | 0 <= i < |events| && events[i].TradeEvent?
              ensures events[i].trade.SingleUnit() && events[i].trade.Priced()
            {
              if i > 0 {
                assert events[1..][i - 1] == events[i];
              }
            }
          }
        }
        RecordLegacy(next, events[1..])
  }

  /** The prices of a run's trade events, in order (a trade without a price would be refused before its turn). */
  function TradePrices(events: seq<LegacyEvent>): seq<int> {
    if |events| == 0 then []
    else
      (if events[0].TradeEvent? then [if events[0].trade.price.Some? then events[0].trade.price.value else 0] else []) + TradePrices(events[1..])
  }

  /**
    Synchronous `runPeriod` of the earlier revisions: advance the period, run
    the pool once up to its scheduled end, then close the period.
   */
  function LegacyRunPeriod(sim: LegacySim, pool: LegacyPool): (r: Result<LegacySim>)
    ensures r.Ok? ==> r.value.period == sim.period + 1
    ensures r.Ok? ==> r.value.rev == sim.rev && r.value.periodDuration == sim.periodDuration
    ensures r.Ok? ==> r.value.periodTradePrices == []
    ensures r.Ok? ==> |r.value.profit.data| == |sim.profit.data| + 1
    ensures r.Ok? ==> |r.value.volume.data| == |sim.volume.data| + 1
    ensures r.Ok? ==> r.value.volume.data[..|sim.volume.data|] == sim.volume.data
    ensures r.Ok? ==> |r.value.volume.data[|sim.volume.data|]| == |VolumeRowHeader|
    ensures r.Ok? ==> r.value.volume.data[|sim.volume.data|][0] == IntCell(sim.period + 1)
    ensures r.Ok? ==>
      var events := pool.syncRun(sim.(period := sim.period + 1), pool.endTime(sim.period + 1));
      r.value.volume.data[|sim.volume.data|][1] == IntCell(|sim.periodTradePrices| + |TradePrices(events)|)
    ensures r.Err? ==> r.error.IsTradeRefusal()
  {
    var started := sim.(period := sim.period + 1);
    match RecordLegacy(started, pool.syncRun(started, pool.endTime(started.period)))
    case Err(e) => Err(e)
    case Ok(ran) => Ok(LegacyLogPeriod(ran, pool.finalMoney(ran.period)))
  }

  /**
    The run loop of the earlier revisions as a recursive definition: while the
    counter is below the configured count, run one period; the first refused
    trade aborts the run with its error, and nothing else can fail.
   */
  function LegacyRunOf(sim: LegacySim, pool: LegacyPool, periods: int): (r: Result<LegacySim>)
    ensures r.Err? ==> r.error.IsTradeRefusal()
    ensures r.Ok? ==> r.value.period == Max(sim.period, periods)
    decreases periods - sim.period
  {
    if sim.period < periods then
      match LegacyRunPeriod(sim, pool)
      case Err(e) => Err(e)
      case Ok(next) => LegacyRunOf(next, pool, periods)
    else
      Ok(sim)
  }

  /**
    The synchronous run loop of the earlier revisions: run periods while the
    counter is below the configured count. It computes exactly `LegacyRunOf`,
    so it fails only on a refused trade. It ends exactly at the larger of
    the starting period and the count, with one profit and one volume row per
    period run, the volume rows numbered consecutively.
   */
  method LegacyRun(sim: LegacySim, pool: LegacyPool, periods: int) returns (r: Result<LegacySim>)
    ensures r == LegacyRunOf(sim, pool, periods)
    ensures r.Ok? ==> r.value.period == Max(sim.period, periods)
    ensures r.Ok? ==> |r.value.profit.data| == |sim.profit.data| + (r.value.period - sim.period)
    ensures r.Ok? ==> |r.value.volume.data| == |sim.volume.data| + (r.value.period - sim.period)
    ensures r.Ok? ==> forall k :: |sim.volume.data| <= k < |r.value.volume.data| ==>
      |r.value.volume.data[k]| > 0 && r.value.volume.data[k][0] == IntCell(sim.period + 1 + (k - |sim.volume.data|))
  {
    var cur := sim;
    while cur.period < periods
      invariant sim.period <= cur.period <= Max(sim.period, periods)
      invariant LegacyRunOf(cur, pool, periods) == LegacyRunOf(sim, pool, periods)
      invariant |cur.profit.data| == |sim.profit.data| + (cur.period - sim.period)
      invariant |cur.volume.data| == |sim.volume.data| + (cur.period - sim.period)
      invariant forall k :: |sim.volume.data| <= k < |cur.volume.data| ==>
        |cur.volume.data[k]| > 0 && cur.volume.data[k][0] == IntCell(sim.period + 1 + (k - |sim.volume.data|))
      decreases periods - cur.period
    {
      var next :- LegacyRunPeriod(cur, pool);
      assert next.volume.data[..|cur.volume.data|] == cur.volume.data;
      forall k | |sim.volume.data| <= k < |next.volume.data|
        ensures |next.volume.data[k]| > 0 && next.volume.data[k][0] == IntCell(sim.period + 1 + (k - |sim.volume.data|))
      {
        if k < |cur.volume.data| {
          assert next.volume.data[k] == next.volume.data[..|cur.volume.data|][k];
        }
      }
      cur := next;
    }
    r := Ok(cur);
  }

  // ------------------------------------------ prototype revision config

  /**
    Count inference of the prototype revision: a falsy explicit count falls
    back to the array's length only when the configured value is an array;
    otherwise it stays falsy (`None` here).
   */
  function PrototypeCount(explicit: Option<int>, entries: Option<seq<int>>): Option<int> {
    if Truthy(explicit) then Some(explicit.value)
    else if entries.Some? then Some(|entries.value|)
    else None
  }

  /** Both counts, refusing construction when either stays falsy. */
  function PrototypeCounts(cfg: Population.AgentConfig): (r: Result<(int, int)>)
    ensures r.Err? ==> r.error == CannotDetermineCounts
    ensures r.Ok? ==> r.value.0 != 0 && r.value.1 != 0
    ensures r.Ok? <==>
      && (Truthy(cfg.numberOfBuyers) || (cfg.buyerValues.Some? && |cfg.buyerValues.value| > 0))
      && (Truthy(cfg.numberOfSellers) || (cfg.sellerCosts.Some? && |cfg.sellerCosts.value| > 0))
  {
    var nb := PrototypeCount(cfg.numberOfBuyers, cfg.buyerValues);
    var ns := PrototypeCount(cfg.numberOfSellers, cfg.sellerCosts);
    if nb.None? || nb.value == 0 || ns.None? || ns.value == 0 then Err(CannotDetermineCounts)
    else Ok((nb.value, ns.value))
  }

  /**
    With both arrays configured, the prototype revision and the current one
    infer the same counts and refuse the same configurations; without an
    array (and no explicit count) the current revision fails reading its
    length where the prototype revision reports undeterminable counts.
   */
  lemma CountsAgreeWithCurrent(cfg: Population.AgentConfig)
    ensures cfg.buyerValues.Some? && cfg.sellerCosts.Some? ==>
      && (PrototypeCounts(cfg).Ok? <==> Population.CountsKnown(cfg))
      && (PrototypeCounts(cfg).Ok? ==>
            PrototypeCounts(cfg).value
            == (Population.InferCount(cfg.numberOfBuyers, cfg.buyerValues).value,
                Population.InferCount(cfg.numberOfSellers, cfg.sellerCosts).value))
    ensures !Truthy(cfg.numberOfBuyers) && cfg.buyerValues.None? ==>
      && Population.InferCount(cfg.numberOfBuyers, cfg.buyerValues) == Err(NotAnArray)
      && PrototypeCounts(cfg) == Err(CannotDetermineCounts)
  {
  }

  /** A price bound: a number, or NaN when an array entry it reads is undefined. */
  datatype Bound = Finite(x: int) | NaN

  /** `L || 0`. */
  function MinPrice(L: Option<int>): (m: int)
    ensures Truthy(L) ==> m == L.value
    ensures !Truthy(L) ==> m == 0
  {
    if Truthy(L) then L.value else 0
  }

  /**
    `H || 2*max(buyerValues[0], sellerCosts[last])`: a truthy H wins; otherwise
    a missing array is a TypeError and an empty one makes the bound NaN.
   */
  function MaxPrice(H: Option<int>, buyerValues: Option<seq<int>>, sellerCosts: Option<seq<int>>): (r: Result<Bound>)
    ensures Truthy(H) ==> r == Ok(Finite(H.value))
    ensures r.Err? <==> !Truthy(H) && (buyerValues.None? || sellerCosts.None?)
    ensures r.Err? ==> r.error == NotAnArray
    ensures r == Ok(NaN) <==>
      !Truthy(H) && buyerValues.Some? && sellerCosts.Some? && (|buyerValues.value| == 0 || |sellerCosts.value| == 0)
    ensures !Truthy(H) && r.Ok? && r.value.Finite? ==>
      var v := buyerValues.value;
      var c := sellerCosts.value;
      && r.value.x >= 2 * v[0] && r.value.x >= 2 * c[|c| - 1]
      && (r.value.x == 2 * v[0] || r.value.x == 2 * c[|c| - 1])
  {
    if Truthy(H) then Ok(Finite(H.value))
    else if buyerValues.None? || sellerCosts.None? then Err(NotAnArray)
    else if |buyerValues.value| == 0 || |sellerCosts.value| == 0 then Ok(NaN)
    else Ok(Finite(2 * Max(buyerValues.value[0], sellerCosts.value[|sellerCosts.value| - 1])))
  }

  /**
    When values are listed highest first and costs lowest first (the usual
    demand and supply schedules), the default upper bound is at least twice
    every configured value and every configured cost.
   */
  lemma DefaultMaxPriceCoversSchedules(buyerValues: seq<int>, sellerCosts: seq<int>)
    requires |buyerValues| > 0 && |sellerCosts| > 0
    requires Gains.Sorted(false, buyerValues) && Gains.Sorted(true, sellerCosts)
    ensures var m := MaxPrice(None, Some(buyerValues), Some(sellerCosts));
      && m.Ok? && m.value.Finite?
      && (forall i :: 0 <= i < |buyerValues| ==> 2 * buyerValues[i] <= m.value.x)
      && (forall j :: 0 <= j < |sellerCosts| ==> 2 * sellerCosts[j] <= m.value.x)
  {
    var m := MaxPrice(None, Some(buyerValues), Some(sellerCosts)).value.x;
    forall i | 0 <= i < |buyerValues|
      ensures 2 * buyerValues[i] <= m
    {
      if i > 0 {
        assert Gains.Before(false, buyerValues[0], buyerValues[i]);
      }
    }
    forall j | 0 <= j < |sellerCosts|
      ensures 2 * sellerCosts[j] <= m
    {
      if j < |sellerCosts| - 1 {
        assert Gains.Before(true, sellerCosts[j], sellerCosts[|sellerCosts| - 1]);
      }
    }
  }
}
