/**
  The end-of-period decision: given the agent pool's scheduled end of the
  period and the last rows of the buy-order, sell-order and trade logs, when may
  the current period end, and why.
 */
module Clock {
  import opened SimTypes

  /** Why a period ends; the logged code is 0, 1 or 2. */
  datatype EndReason = DurationExpired | TradeClockExpired | OrderClockExpired

  function ReasonCode(r: EndReason): (code: nat)
    ensures code <= 2
    ensures r == DurationExpired <==> code == 0
    ensures r == TradeClockExpired <==> code == 1
    ensures r == OrderClockExpired <==> code == 2
  {
    match r
    case DurationExpired => 0
    case TradeClockExpired => 1
    case OrderClockExpired => 2
  }

  datatype Decision = Decision(endTime: int, reason: EndReason)

  /**
    The inactivity windows from the configuration. A window that is not
    strictly positive (zero, missing, not a number) is switched off.
   */
  datatype Clocks = Clocks(orderClock: int, tradeClock: int) {
    predicate OrderOn() {
      orderClock > 0
    }

    predicate TradeOn() {
      tradeClock > 0
    }
  }

  /** Everything the decision reads from the running simulation. */
  datatype View = View(
    poolEnd: int,              // the pool's scheduled end of the period
    period: int,               // the current period number
    periodDuration: int,
    lastBuyOrder: Option<Stamp>,
    lastSellOrder: Option<Stamp>,
    lastTrade: Option<Stamp>)
  {
    /** Start of the current period. */
    function PeriodStart(): int {
      period * periodDuration
    }

    /**
      Time of the last event of a log, when that event belongs to the current
      period; otherwise (empty log, or last row from an earlier period) the
      start of the current period.
     */
    function LastT(last: Option<Stamp>): (t: int)
      ensures last.Some? && last.value.period == period ==> t == last.value.t
      ensures !(last.Some? && last.value.period == period) ==> t == PeriodStart()
    {
      match last
      case None => PeriodStart()
      case Some(row) => if row.period != period then PeriodStart() else row.t
    }
  }

  /** End time proposed by the order clock: the window past the later of the two order logs, floored at 0. */
  function OrderCandidate(c: Clocks, v: View): int {
    Max(0, Max(c.orderClock + v.LastT(v.lastBuyOrder), c.orderClock + v.LastT(v.lastSellOrder)))
  }

  /** End time proposed by the trade clock. */
  function TradeCandidate(c: Clocks, v: View): int {
    c.tradeClock + v.LastT(v.lastTrade)
  }

  /** The order clock cuts the period short. */
  predicate OrderCuts(c: Clocks, v: View) {
    c.OrderOn() && OrderCandidate(c, v) < v.poolEnd
  }

  /** The trade clock cuts the period short of both the schedule and an active order clock. */
  predicate TradeCuts(c: Clocks, v: View) {
    && c.TradeOn()
    && TradeCandidate(c, v) < v.poolEnd
    && (c.OrderOn() ==> TradeCandidate(c, v) < OrderCandidate(c, v))
  }

  /**
    The decision: start from the scheduled end with reason "duration", let the
    order clock replace it on a strictly earlier candidate, then let the trade
    clock replace the result on a strictly earlier candidate.
    Its contract states the decision as "the earliest enabled candidate, ties
    going to the stage evaluated first".
   */
  function PotentialEndOfPeriod(c: Clocks, v: View): (d: Decision)
    ensures d.endTime <= v.poolEnd
    ensures c.OrderOn() ==> d.endTime <= OrderCandidate(c, v)
    ensures c.TradeOn() ==> d.endTime <= TradeCandidate(c, v)
    ensures d.reason == DurationExpired ==> d.endTime == v.poolEnd
    ensures d.reason == OrderClockExpired ==> c.OrderOn() && d.endTime == OrderCandidate(c, v)
    ensures d.reason == TradeClockExpired ==> c.TradeOn() && d.endTime == TradeCandidate(c, v)
    ensures d.reason == TradeClockExpired <==> TradeCuts(c, v)
    ensures d.reason == OrderClockExpired <==> OrderCuts(c, v) && !TradeCuts(c, v)
    ensures d.reason == DurationExpired <==> !OrderCuts(c, v) && !TradeCuts(c, v)
  {
    var afterDuration := Decision(v.poolEnd, DurationExpired);
    var afterOrder :=
      if c.OrderOn() && OrderCandidate(c, v) < afterDuration.endTime
      then Decision(OrderCandidate(c, v), OrderClockExpired)
      else afterDuration;
    if c.TradeOn() && TradeCandidate(c, v) < afterOrder.endTime
    then Decision(TradeCandidate(c, v), TradeClockExpired)
    else afterOrder
  }

  /** When the two clocks propose the same cut, the order clock (evaluated first) is reported. */
  lemma TieGoesToOrderClock(c: Clocks, v: View)
    requires c.OrderOn() && c.TradeOn()
    requires OrderCandidate(c, v) == TradeCandidate(c, v) < v.poolEnd
    ensures PotentialEndOfPeriod(c, v) == Decision(OrderCandidate(c, v), OrderClockExpired)
  {
  }

  /** With both clocks switched off the period runs to the pool's scheduled end. */
  lemma ClocksOffMeansDuration(c: Clocks, v: View)
    requires !c.OrderOn() && !c.TradeOn()
    ensures PotentialEndOfPeriod(c, v) == Decision(v.poolEnd, DurationExpired)
  {
  }

  /**
    The tradeClock 500 scenario of the test suite: period 1 of 1000 time units,
    no trade yet, so the trade clock cuts the period at 1500, reason code 1.
   */
  lemma NoTradeYetCutsAtTradeWindow(lastBuy: Option<Stamp>, lastSell: Option<Stamp>, lastTrade: Option<Stamp>)
    requires lastTrade.None? || lastTrade.value.period != 1
    ensures PotentialEndOfPeriod(Clocks(0, 500), View(2000, 1, 1000, lastBuy, lastSell, lastTrade))
            == Decision(1500, TradeClockExpired)
    ensures ReasonCode(PotentialEndOfPeriod(Clocks(0, 500), View(2000, 1, 1000, lastBuy, lastSell, lastTrade)).reason) == 1
  {
  }

  /** Every log's last event is at least as late in `w` as in `v` (same schedule, same period). */
  predicate NoEarlier(v: View, w: View) {
    && v.poolEnd == w.poolEnd
    && v.period == w.period
    && v.periodDuration == w.periodDuration
    && v.LastT(v.lastBuyOrder) <= w.LastT(w.lastBuyOrder)
    && v.LastT(v.lastSellOrder) <= w.LastT(w.lastSellOrder)
    && v.LastT(v.lastTrade) <= w.LastT(w.lastTrade)
  }

  /**
    Later events never bring the end of the period forward: the decided end
    time is monotone in the logs' last event times.
   */
  lemma EndTimeMonotone(c: Clocks, v: View, w: View)
    requires NoEarlier(v, w)
    ensures PotentialEndOfPeriod(c, v).endTime <= PotentialEndOfPeriod(c, w).endTime
  {
    var dw := PotentialEndOfPeriod(c, w);
    var dv := PotentialEndOfPeriod(c, v);
    match dw.reason
    case DurationExpired =>
    case OrderClockExpired =>
      assert OrderCandidate(c, v) <= OrderCandidate(c, w);
    case TradeClockExpired =>
      assert TradeCandidate(c, v) <= TradeCandidate(c, w);
  }

  /**
    Appending a row of the current period that is no earlier than the log's
    last relevant time never moves that log's last time backwards.
   */
  lemma AppendInPeriodNoEarlier(v: View, last: Option<Stamp>, row: Stamp)
    requires row.period == v.period
    requires v.LastT(last) <= row.t
    ensures v.LastT(last) <= v.LastT(Some(row))
  {
  }
}
