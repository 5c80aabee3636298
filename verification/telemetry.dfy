/**
  Telemetry of the current simulator: the simulation state it writes to,
  trade capture (`logTrade`), the period-close reduction (`logPeriod`) and the
  fixed log headers whose column order downstream code depends on.
 */
module Telemetry {
  import opened SimTypes
  import opened Clock
  import Gains
  import Population

  /** Configuration the bookkeeping reads. */
  datatype Config = Config(
    caseid: int,
    periodDuration: int,
    clocks: Clocks,
    buyerValues: Option<seq<int>>,
    sellerCosts: Option<seq<int>>)

  /**
    A trade reported by the market, with the order-book lookups already
    resolved: participant counts, the first price (None when undefined), and
    each side's agent id, type name and marginal value or cost at trade time.
   */
  datatype TradeEvent = TradeEvent(
    t: int,
    totalQ: int,
    buyCount: nat,
    sellCount: nat,
    price: Option<int>,
    buyerId: int, buyerType: string, buyerValue: int,
    sellerId: int, sellerType: string, sellerCost: int)
  {
    /** One unit between exactly one buy order and one sell order. */
    predicate SingleUnit() {
      totalQ == 1 && buyCount == 1 && sellCount == 1
    }

    /** The price is present and not 0 (JavaScript truthiness). */
    predicate Priced() {
      Truthy(price)
    }
  }

  datatype TradeRow = TradeRow(
    caseid: int, period: int, t: int, tp: int, price: int,
    buyerId: int, buyerType: string, buyerValue: int, buyerProfit: int,
    sellerId: int, sellerType: string, sellerCost: int, sellerProfit: int)

  /** Distribution statistics of a period's prices, computed by an external statistics library. */
  datatype Moments = Moments(p25: real, median: real, p75: real, mean: real, sd: real)

  datatype PriceSummary = PriceSummary(open: int, high: int, low: int, close: int, moments: Moments)

  /** An ohlc row; `prices` is None (blank cells) for a period without trades. */
  datatype OhlcRow = OhlcRow(
    caseid: int, period: int, beginTime: int, endTime: int, endReason: EndReason,
    volume: nat, prices: Option<PriceSummary>, gini: real)

  datatype ProfitRow = ProfitRow(caseid: int, period: int, money: seq<int>)

  datatype EffallocRow = EffallocRow(caseid: int, period: int, efficiency: real)

  /** The simulation's bookkeeping state: period counter, event logs, trade-price buffer, period logs. */
  datatype Sim = Sim(
    config: Config,
    period: int,
    buyOrders: seq<Stamp>,
    sellOrders: seq<Stamp>,
    trades: seq<TradeRow>,
    periodTradePrices: seq<int>,
    profits: seq<ProfitRow>,
    ohlc: seq<OhlcRow>,
    effalloc: seq<EffallocRow>)
  {
    function PeriodStart(): int {
      period * config.periodDuration
    }

    /** The (period, t) columns of the trade log's last row. */
    function LastTradeStamp(): Option<Stamp> {
      if |trades| == 0 then None
      else Some(Stamp(trades[|trades| - 1].period, trades[|trades| - 1].t))
    }
  }

  /** A freshly constructed simulation: period 0, every log empty. */
  function NewSim(config: Config): (s: Sim)
    ensures s.period == 0 && s.periodTradePrices == []
    ensures s.buyOrders == [] && s.sellOrders == [] && s.trades == []
    ensures s.profits == [] && s.ohlc == [] && s.effalloc == []
  {
    Sim(config, 0, [], [], [], [], [], [], [])
  }

  /**
    The settings the simulation keeps from its configuration: the case id
    `caseid || 0`, and the period duration the agent set-up chose.
   */
  function ConfigOf(caseid: Option<int>, agents: Population.AgentConfig, clocks: Clocks): (c: Config)
    ensures Truthy(caseid) ==> c.caseid == caseid.value
    ensures !Truthy(caseid) ==> c.caseid == 0
    ensures c.periodDuration != 0
    ensures Truthy(agents.periodDuration) ==> c.periodDuration == agents.periodDuration.value
    ensures c.clocks == clocks && c.buyerValues == agents.buyerValues && c.sellerCosts == agents.sellerCosts
  {
    Config(if Truthy(caseid) then caseid.value else 0, Population.PeriodDuration(agents), clocks,
           agents.buyerValues, agents.sellerCosts)
  }

  /** Period `p` of the bookkeeping starts where the agents' period `p` starts. */
  lemma PeriodStartAgreesWithAgents(caseid: Option<int>, agents: Population.AgentConfig, clocks: Clocks, p: int)
    requires Population.Layout(agents).Ok?
    ensures NewSim(ConfigOf(caseid, agents, clocks)).(period := p).PeriodStart()
            == p * Population.Layout(agents).value.periodDuration
  {
  }

  /**
    Records one trade: refuses anything but a single-unit trade, refuses a
    missing or zero price, otherwise appends the trade row and buffers the price.
   */
  function LogTrade(sim: Sim, ev: TradeEvent): (r: Result<Sim>)
    ensures r.Ok? <==> ev.SingleUnit() && ev.Priced()
    ensures !ev.SingleUnit() ==> r == Err(SingleUnitTradeRequired)
    ensures ev.SingleUnit() && !ev.Priced() ==> r == Err(UndefinedTradePrice)
    ensures r.Ok? ==> |r.value.trades| == |sim.trades| + 1
    ensures r.Ok? ==>
      var row := r.value.trades[|sim.trades|];
      && r.value.trades[..|sim.trades|] == sim.trades
      && r.value.periodTradePrices == sim.periodTradePrices + [ev.price.value]
      && row.price == ev.price.value
      && row.buyerProfit + row.sellerProfit == ev.buyerValue - ev.sellerCost
      && row.buyerProfit == ev.buyerValue - row.price
      && row.sellerProfit == row.price - ev.sellerCost
      && row.t == ev.t && row.period == sim.period && row.tp == ev.t - sim.PeriodStart()
      && row.caseid == sim.config.caseid
      && row.buyerId == ev.buyerId && row.sellerId == ev.sellerId
      && r.value.(trades := sim.trades, periodTradePrices := sim.periodTradePrices) == sim
  {
    if !ev.SingleUnit() then Err(SingleUnitTradeRequired)
    else if !ev.Priced() then Err(UndefinedTradePrice)
    else
      var price := ev.price.value;
      var row := TradeRow(
        sim.config.caseid, sim.period, ev.t, ev.t - sim.PeriodStart(), price,
        ev.buyerId, ev.buyerType, ev.buyerValue, ev.buyerValue - price,
        ev.sellerId, ev.sellerType, ev.sellerCost, price - ev.sellerCost);
      Ok(sim.(trades := sim.trades + [row], periodTradePrices := sim.periodTradePrices + [price]))
  }

  function SeqMax(s: seq<int>): (m: int)
    requires |s| > 0
    ensures m in s
    ensures forall i :: 0 <= i < |s| ==> s[i] <= m
  {
    if |s| == 1 then s[0] else Max(SeqMax(s[..|s| - 1]), s[|s| - 1])
  }

  function SeqMin(s: seq<int>): (m: int)
    requires |s| > 0
    ensures m in s
    ensures forall i :: 0 <= i < |s| ==> m <= s[i]
  {
    if |s| == 1 then s[0]
    else
      var rest := SeqMin(s[..|s| - 1]);
      if s[|s| - 1] < rest then s[|s| - 1] else rest
  }

  /**
    The ohlc row of the closing period: volume is the number of buffered
    prices; open/high/low/close are set only when there was a trade.
   */
  function OhlcOf(sim: Sim, d: Decision, gini: real, moments: Moments): (row: OhlcRow)
    ensures row.caseid == sim.config.caseid && row.period == sim.period
    ensures row.beginTime == sim.PeriodStart()
    ensures row.endTime == d.endTime && row.endReason == d.reason
    ensures row.volume == |sim.periodTradePrices|
    ensures row.gini == gini
    ensures row.prices.Some? <==> |sim.periodTradePrices| > 0
    ensures row.prices.Some? ==>
      var p := row.prices.value;
      var s := sim.periodTradePrices;
      && p.open == s[0] && p.close == s[|s| - 1]
      && p.high in s && p.low in s
      && (forall i :: 0 <= i < |s| ==> p.low <= s[i] <= p.high)
      && p.low <= p.open <= p.high && p.low <= p.close <= p.high
      && p.moments == moments
  {
    var s := sim.periodTradePrices;
    var prices :=
      if |s| > 0 then Some(PriceSummary(s[0], SeqMax(s), SeqMin(s), s[|s| - 1], moments)) else None;
    OhlcRow(sim.config.caseid, sim.period, sim.PeriodStart(), d.endTime, d.reason, |s|, prices, gini)
  }

  /**
    Allocative efficiency 100 * (sum of final money) / maximum possible gains,
    or nothing when the maximum is not positive.
   */
  function Efficiency(money: seq<int>, maxPossible: int): (e: Option<real>)
    ensures e.Some? <==> maxPossible > 0
    ensures e.Some? ==> e.value * (maxPossible as real) == 100.0 * (Sum(money) as real)
  {
    if maxPossible > 0 then Some(100.0 * ((Sum(money) as real) / (maxPossible as real))) else None
  }

  /** When the agents' final money adds up to the maximum possible gains, efficiency is exactly 100. */
  lemma FullSurplusIsFullEfficiency(money: seq<int>, maxPossible: int)
    requires maxPossible > 0 && Sum(money) == maxPossible
    ensures Efficiency(money, maxPossible) == Some(100.0)
  {
    assert (Sum(money) as real) / (maxPossible as real) == 1.0;
  }

  /** The simulation's maximum possible gains from trade, from its configured values and costs. */
  function MaxPossible(sim: Sim): int {
    Gains.MaxGains(sim.config.buyerValues, sim.config.sellerCosts)
  }

  /**
    When the agents' money is the surplus of a feasible plan of trades between
    the configured units, efficiency never exceeds 100.
   */
  lemma EfficiencyAtMostHundred(money: seq<int>, v: seq<int>, c: seq<int>, bought: seq<int>, sold: seq<int>)
    requires Gains.Feasible(v, c, bought, sold)
    requires Sum(money) == Sum(bought) - Sum(sold)
    requires Gains.MaxGains(Some(v), Some(c)) > 0
    ensures Efficiency(money, Gains.MaxGains(Some(v), Some(c))).value <= 100.0
  {
    Gains.MaxGainsIsOptimal(v, c, bought, sold);
    ShareAtMostWhole(Sum(money) as real, Gains.MaxGains(Some(v), Some(c)) as real);
  }

  lemma ShareAtMostWhole(part: real, whole: real)
    requires 0.0 < whole && part <= whole
    ensures 100.0 * (part / whole) <= 100.0
  {
    var q := part / whole;
    assert q * whole == part;
  }

  /**
    The efficiency rows a period close writes: one row holding
    100 * (sum of final money) / maxPossible when maxPossible is positive,
    none otherwise.
   */
  function EffallocRows(sim: Sim, money: seq<int>, maxPossible: int): (rows: seq<EffallocRow>)
    ensures && (|rows| == 1 <==> maxPossible > 0)
      && (maxPossible <= 0 <==> rows == [])
      && (|rows| == 1 ==>
            && rows[0].caseid == sim.config.caseid
            && rows[0].period == sim.period
            && rows[0].efficiency * (maxPossible as real) == 100.0 * (Sum(money) as real))
  {
    var eff := Efficiency(money, maxPossible);
    if eff.Some? then [EffallocRow(sim.config.caseid, sim.period, eff.value)] else []
  }

  /**
    Period close: write the profit row, the ohlc row and (when the maximum
    possible gains are positive) the efficiency row, then empty the price buffer.
    `money` is every agent's final money, `gini` and `moments` come from
    external statistics libraries, `d` is the end-of-period decision.
   */
  function LogPeriod(sim: Sim, d: Decision, money: seq<int>, gini: real, moments: Moments): (r: Sim)
    ensures r.periodTradePrices == []
    ensures r.profits == sim.profits + [ProfitRow(sim.config.caseid, sim.period, money)]
    ensures |r.ohlc| == |sim.ohlc| + 1 && r.ohlc[..|sim.ohlc|] == sim.ohlc
    ensures r.ohlc[|sim.ohlc|] == OhlcOf(sim, d, gini, moments)
    ensures r.ohlc[|sim.ohlc|].volume == |sim.periodTradePrices|
    ensures r.effalloc == sim.effalloc + EffallocRows(sim, money, MaxPossible(sim))
    ensures r.(periodTradePrices := sim.periodTradePrices, profits := sim.profits,
               ohlc := sim.ohlc, effalloc := sim.effalloc) == sim
  {
    sim.(
      profits := sim.profits + [ProfitRow(sim.config.caseid, sim.period, money)],
      ohlc := sim.ohlc + [OhlcOf(sim, d, gini, moments)],
      effalloc := sim.effalloc + EffallocRows(sim, money, MaxPossible(sim)),
      periodTradePrices := [])
  }

  /** The single-unit scenario: [1000] against [1], final money 1000 - p and p - 1: efficiency row 100. */
  lemma SingleUnitPeriodIsFullyEfficient(sim: Sim, d: Decision, p: int, gini: real, moments: Moments)
    requires sim.config.buyerValues == Some([1000]) && sim.config.sellerCosts == Some([1])
    ensures var r := LogPeriod(sim, d, [1000 - p, p - 1], gini, moments);
      r.effalloc == sim.effalloc + [EffallocRow(sim.config.caseid, sim.period, 100.0)]
  {
    Gains.SingleUnitGains();
    var m := [1000 - p, p - 1];
    assert Sum(m) == 999 by {
      assert m[..1] == [1000 - p];
      assert [1000 - p][..0] == [];
      assert Sum([1000 - p]) == 1000 - p;
    }
    FullSurplusIsFullEfficiency(m, 999);
  }

  /** The values [10,9,8] against costs [20,40]: maximum gains 0, so no efficiency row. */
  lemma NoGainsNoEfficiencyRow(sim: Sim, d: Decision, money: seq<int>, gini: real, moments: Moments)
    requires sim.config.buyerValues == Some([10, 9, 8]) && sim.config.sellerCosts == Some([20, 40])
    ensures LogPeriod(sim, d, money, gini, moments).effalloc == sim.effalloc
  {
    Gains.CostsAboveValuesGiveZero();
  }

  // ---------------------------------------------------------------------------
  // Log headers and the cells written under them

  const OrderHeader: seq<string> :=
    ["caseid", "period", "t", "tp", "preBidPrice", "preAskPrice", "preTradePrice", "id", "x",
     "buyLimitPrice", "buyerValue", "buyerAgentType", "sellLimitPrice", "sellerCost", "sellerAgentType"]

  const OhlcHeader: seq<string> :=
    ["caseid", "period", "beginTime", "endTime", "endReason", "openPrice", "highPrice", "lowPrice",
     "closePrice", "volume", "p25Price", "medianPrice", "p75Price", "meanPrice", "sd", "gini"]

  const TradeHeader: seq<string> :=
    ["caseid", "period", "t", "tp", "price", "buyerAgentId", "buyerAgentType", "buyerValue",
     "buyerProfit", "sellerAgentId", "sellerAgentType", "sellerCost", "sellerProfit"]

  const EffallocHeader: seq<string> := ["caseid", "period", "efficiencyOfAllocation"]

  const LogNames: seq<string> :=
    ["trade", "buyorder", "sellorder", "rejectbuyorder", "rejectsellorder", "profit", "ohlc", "effalloc"]

  /** The value the trade log keeps under the column called `name`. */
  function TradeColumn(r: TradeRow, name: string): Cell {
    if name == "caseid" then IntCell(r.caseid)
    else if name == "period" then IntCell(r.period)
    else if name == "t" then IntCell(r.t)
    else if name == "tp" then IntCell(r.tp)
    else if name == "price" then IntCell(r.price)
    else if name == "buyerAgentId" then IntCell(r.buyerId)
    else if name == "buyerAgentType" then Text(r.buyerType)
    else if name == "buyerValue" then IntCell(r.buyerValue)
    else if name == "buyerProfit" then IntCell(r.buyerProfit)
    else if name == "sellerAgentId" then IntCell(r.sellerId)
    else if name == "sellerAgentType" then Text(r.sellerType)
    else if name == "sellerCost" then IntCell(r.sellerCost)
    else if name == "sellerProfit" then IntCell(r.sellerProfit)
    else Blank
  }

  /** The written trade row: one cell per header column, each holding what its column names. */
  function TradeCells(r: TradeRow): (cells: Row)
    ensures |cells| == |TradeHeader|
    ensures forall k :: 0 <= k < |cells| ==> cells[k] == TradeColumn(r, TradeHeader[k])
  {
    [IntCell(r.caseid), IntCell(r.period), IntCell(r.t), IntCell(r.tp), IntCell(r.price),
     IntCell(r.buyerId), Text(r.buyerType), IntCell(r.buyerValue), IntCell(r.buyerProfit),
     IntCell(r.sellerId), Text(r.sellerType), IntCell(r.sellerCost), IntCell(r.sellerProfit)]
  }

  /**
    The value the ohlc log keeps under the column called `name`; a price
    statistic is blank ('') for a period without trades.
   */
  function OhlcColumn(r: OhlcRow, name: string): Cell {
    if name == "caseid" then IntCell(r.caseid)
    else if name == "period" then IntCell(r.period)
    else if name == "beginTime" then IntCell(r.beginTime)
    else if name == "endTime" then IntCell(r.endTime)
    else if name == "endReason" then IntCell(ReasonCode(r.endReason))
    else if name == "volume" then IntCell(r.volume)
    else if name == "gini" then Num(r.gini)
    else if r.prices.None? then Blank
    else
      var p := r.prices.value;
      if name == "openPrice" then IntCell(p.open)
      else if name == "highPrice" then IntCell(p.high)
      else if name == "lowPrice" then IntCell(p.low)
      else if name == "closePrice" then IntCell(p.close)
      else if name == "p25Price" then Num(p.moments.p25)
      else if name == "medianPrice" then Num(p.moments.median)
      else if name == "p75Price" then Num(p.moments.p75)
      else if name == "meanPrice" then Num(p.moments.mean)
      else if name == "sd" then Num(p.moments.sd)
      else Blank
  }

  function OhlcCells(r: OhlcRow): (cells: Row)
    ensures |cells| == |OhlcHeader|
    ensures forall k :: 0 <= k < |cells| ==> cells[k] == OhlcColumn(r, OhlcHeader[k])
  {
    var lead := [IntCell(r.caseid), IntCell(r.period), IntCell(r.beginTime), IntCell(r.endTime),
                 IntCell(ReasonCode(r.endReason))];
    match r.prices
    case None =>
      lead + [Blank, Blank, Blank, Blank, IntCell(r.volume), Blank, Blank, Blank, Blank, Blank, Num(r.gini)]
    case Some(p) =>
      lead + [IntCell(p.open), IntCell(p.high), IntCell(p.low), IntCell(p.close), IntCell(r.volume),
              Num(p.moments.p25), Num(p.moments.median), Num(p.moments.p75), Num(p.moments.mean),
              Num(p.moments.sd), Num(r.gini)]
  }

  function EffallocCells(r: EffallocRow): (cells: Row)
    ensures |cells| == |EffallocHeader|
    ensures forall k :: 0 <= k < |cells| ==>
      cells[k] == (if EffallocHeader[k] == "efficiencyOfAllocation" then Num(r.efficiency)
                   else if EffallocHeader[k] == "period" then IntCell(r.period)
                   else IntCell(r.caseid))
  {
    [IntCell(r.caseid), IntCell(r.period), Num(r.efficiency)]
  }

  /**
    The costs-exceed-values scenario: case 1234, period 1 of 1000, the trade
    clock cutting at 1500, no trades and zero final money. The ohlc row is the
    one the test suite expects, blanks for every price statistic.
   */
  lemma NoTradeOhlcRow(sim: Sim, moments: Moments)
    requires sim.config.caseid == 1234 && sim.period == 1 && sim.config.periodDuration == 1000
    requires sim.periodTradePrices == []
    ensures OhlcCells(OhlcOf(sim, Decision(1500, TradeClockExpired), 0.0, moments))
      == [Num(1234.0), Num(1.0), Num(1000.0), Num(1500.0), Num(1.0), Blank, Blank, Blank, Blank,
          Num(0.0), Blank, Blank, Blank, Blank, Blank, Num(0.0)]
  {
  }

  /** `sub` occurs in `s` at position `i` or later. */
  predicate OccursFrom(s: string, sub: string, i: nat)
    decreases |s| - i
  {
    i + |sub| <= |s| && (s[i..i + |sub|] == sub || OccursFrom(s, sub, i + 1))
  }

  predicate Includes(s: string, sub: string) {
    OccursFrom(s, sub, 0)
  }

  /** The logs a simulation opens: all of them, or only those whose name does not mention "order". */
  function ActiveLogNames(withoutOrderLogs: bool): (names: seq<string>)
    ensures forall n :: n in names <==> n in LogNames && (withoutOrderLogs ==> !Includes(n, "order"))
    ensures |names| <= |LogNames|
  {
    if withoutOrderLogs then Filter(LogNames, n => !Includes(n, "order")) else LogNames
  }

  function Filter(s: seq<string>, keep: string -> bool): (r: seq<string>)
    ensures forall x :: x in r <==> x in s && keep(x)
    ensures |r| <= |s|
  {
    if |s| == 0 then []
    else (if keep(s[0]) then [s[0]] else []) + Filter(s[1..], keep)
  }

}
