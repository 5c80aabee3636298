/**
  Synchronous execution of the current simulator: one period runs the agent
  pool up to a candidate end time, recomputes the candidate from the events
  that arrived, and repeats while the candidate grows; a run repeats periods
  until the requested count, truncating once a deadline has passed.
 */
module Period {
  import opened SimTypes
  import opened Clock
  import opened Telemetry

  /** What the pool reports into the simulator while its agents run. */
  datatype PoolEvent = BuyOrder(t: int) | SellOrder(t: int) | Trade(trade: TradeEvent)

  /**
    The agent pool and the market, as the simulator sees them. They are
    external collaborators, so each is an uninterpreted function:
    the scheduled end of period p; the events produced while the agents run up
    to a horizon; every agent's money at the end of period p; and the external
    Gini and price-statistics routines.
   */
  datatype Pool = Pool(
    endTime: int -> int,
    syncRun: (Sim, int) -> seq<PoolEvent>,
    finalMoney: int -> seq<int>,
    gini: seq<int> -> real,
    moments: seq<int> -> Moments)

  /** The inputs of the end-of-period decision, read from the running simulation. */
  function ViewOf(sim: Sim, pool: Pool): View {
    View(pool.endTime(sim.period), sim.period, sim.config.periodDuration,
         Last(sim.buyOrders), Last(sim.sellOrders), sim.LastTradeStamp())
  }

  function Decide(sim: Sim, pool: Pool): (d: Decision)
    ensures d.endTime <= pool.endTime(sim.period)
  {
    PotentialEndOfPeriod(sim.config.clocks, ViewOf(sim, pool))
  }

  /** Logs only grow, the price buffer only grows, and nothing else changes. */
  predicate Extends(sim: Sim, next: Sim) {
    && next.config == sim.config
    && next.period == sim.period
    && sim.buyOrders <= next.buyOrders
    && sim.sellOrders <= next.sellOrders
    && sim.trades <= next.trades
    && sim.periodTradePrices <= next.periodTradePrices
    && next.profits == sim.profits
    && next.ohlc == sim.ohlc
    && next.effalloc == sim.effalloc
  }

  /** Same period and configuration, and no period-close log touched. */
  predicate SamePeriod(sim: Sim, next: Sim) {
    && next.config == sim.config
    && next.period == sim.period
    && next.profits == sim.profits
    && next.ohlc == sim.ohlc
    && next.effalloc == sim.effalloc
  }

  /** Every trade in `events` passes the single-unit and price checks. */
  predicate AllTradesValid(events: seq<PoolEvent>) {
    forall i :: 0 <= i < |events| && events[i].Trade? ==>
      events[i].trade.SingleUnit() && events[i].trade.Priced()
  }

  /** The prices of the trades in `events`, in order. */
  function TradePrices(events: seq<PoolEvent>): seq<int>
    requires AllTradesValid(events)
  {
    if |events| == 0 then []
    else (if events[0].Trade? then [events[0].trade.price.value] else []) + TradePrices(events[1..])
  }

  /** The price a valid event contributes to the buffer: its trade's price, nothing for an order. */
  function EventPrices(ev: PoolEvent): seq<int>
    requires ev.Trade? ==> ev.trade.Priced()
  {
    if ev.Trade? then [ev.trade.price.value] else []
  }

  /** The events are valid exactly when the first one is and the rest are. */
  lemma AllTradesValidCons(events: seq<PoolEvent>)
    requires |events| > 0
    ensures AllTradesValid(events) <==>
      (events[0].Trade? ==> events[0].trade.SingleUnit() && events[0].trade.Priced())
      && AllTradesValid(events[1..])
  {
    if AllTradesValid(events[1..]) {
      forall i | 0 < i < |events| && events[i].Trade?
        ensures events[i].trade.SingleUnit() && events[i].trade.Priced()
      {
        assert events[1..][i - 1] == events[i];
      }
    }
    if AllTradesValid(events) {
      forall i | 0 <= i < |events[1..]| && events[1..][i].Trade?
        ensures events[1..][i].trade.SingleUnit() && events[1..][i].trade.Priced()
      {
        assert events[1..][i] == events[i + 1];
      }
    }
  }

  /** Logging of one pool event: orders append a stamp to their side's log, trades go through LogTrade. */
  function Record(sim: Sim, ev: PoolEvent): (r: Result<Sim>)
    ensures r.Ok? <==> (ev.Trade? ==> ev.trade.SingleUnit() && ev.trade.Priced())
    ensures r.Ok? ==> Extends(sim, r.value)
    ensures r.Ok? ==> r.value.periodTradePrices == sim.periodTradePrices + EventPrices(ev)
    ensures r.Err? ==> r.error.IsTradeRefusal()
  {
    match ev
    case BuyOrder(t) => Ok(sim.(buyOrders := sim.buyOrders + [Stamp(sim.period, t)]))
    case SellOrder(t) => Ok(sim.(sellOrders := sim.sellOrders + [Stamp(sim.period, t)]))
    case Trade(tr) => LogTrade(sim, tr)
  }

  /**
    Logging of the events of one pool run, in order; the first refused trade
    aborts the run with its error.
   */
  function RecordAll(sim: Sim, events: seq<PoolEvent>): (r: Result<Sim>)
    ensures r.Ok? <==> AllTradesValid(events)
    ensures r.Ok? ==> Extends(sim, r.value)
    ensures r.Ok? ==> r.value.periodTradePrices == sim.periodTradePrices + TradePrices(events)
    ensures r.Err? ==> r.error.IsTradeRefusal()
    decreases |events|
  {
    if |events| == 0 then Ok(sim)
    else
      AllTradesValidCons(events);
      match Record(sim, events[0])
      case Err(e) => Err(e)
      case Ok(next) =>
        var r := RecordAll(next, events[1..]);
        assert r.Ok? ==>
          (r.value.periodTradePrices == sim.periodTradePrices + (EventPrices(events[0]) + TradePrices(events[1..])));
        r
  }

  predicate Increasing(s: seq<int>) {
    forall i, j :: 0 <= i < j < |s| ==> s[i] < s[j]
  }

  /** Where a search stands: the simulation after the last pool run, the latest decision, the horizons run so far. */
  datatype Searched = Searched(sim: Sim, decision: Decision, horizons: seq<int>)

  /**
    The search stopped at a fixed point: the final candidate is no later than
    the last horizon run, or than `oldEnd` when no horizon was added after the
    first `n`.
   */
  predicate Stopped(s: Searched, oldEnd: int, n: nat) {
    && n <= |s.horizons|
    && (|s.horizons| == n ==> s.decision.endTime <= oldEnd)
    && (|s.horizons| > n ==> s.decision.endTime <= s.horizons[|s.horizons| - 1])
  }

  /** The horizons `hs` extend `prefix` by strictly increasing values in (lo, hi]. */
  predicate HorizonsFrom(hs: seq<int>, prefix: seq<int>, lo: int, hi: int) {
    && |prefix| <= |hs| && hs[..|prefix|] == prefix
    && Increasing(hs)
    && forall i :: |prefix| <= i < |hs| ==> lo < hs[i] <= hi
  }

  /**
    The horizon search as a recursive definition. `oldEnd` is the previous
    candidate end time (0 at the start); while the current candidate is later,
    the pool runs up to it, its events are logged, and the search continues
    with the new candidate. It stops as soon as the candidate no longer grows.
   */
  function Search(sim: Sim, pool: Pool, oldEnd: int, horizons: seq<int>): (r: Result<Searched>)
    requires Increasing(horizons)
    requires forall i :: 0 <= i < |horizons| ==> horizons[i] <= oldEnd
    ensures r.Ok? ==> SamePeriod(sim, r.value.sim)
    ensures r.Ok? ==> r.value.decision == Decide(r.value.sim, pool)
    ensures r.Ok? ==> Stopped(r.value, oldEnd, |horizons|)
    decreases pool.endTime(sim.period) - oldEnd
  {
    var may := Decide(sim, pool);
    if oldEnd < may.endTime then
      match RecordAll(sim, pool.syncRun(sim, may.endTime))
      case Err(e) => Err(e)
      case Ok(next) => Search(next, pool, may.endTime, horizons + [may.endTime])
    else
      Ok(Searched(sim, may, horizons))
  }

  /**
    A search only appends to the event logs and the price buffer, leaving the
    period logs untouched; the only way it fails is a refused trade.
   */
  lemma {:induction false} SearchExtends(sim: Sim, pool: Pool, oldEnd: int, horizons: seq<int>)
    requires Increasing(horizons)
    requires forall i :: 0 <= i < |horizons| ==> horizons[i] <= oldEnd
    ensures var r := Search(sim, pool, oldEnd, horizons);
      && (r.Ok? ==> Extends(sim, r.value.sim))
      && (r.Err? ==> r.error.IsTradeRefusal())
    decreases pool.endTime(sim.period) - oldEnd
  {
    var may := Decide(sim, pool);
    if oldEnd < may.endTime {
      var rec := RecordAll(sim, pool.syncRun(sim, may.endTime));
      if rec.Ok? {
        SearchExtends(rec.value, pool, may.endTime, horizons + [may.endTime]);
      }
    }
  }

  /**
    The horizons a search runs the pool to keep growing strictly, each past the
    previous candidate and within the pool's scheduled end of the period.
   */
  lemma {:induction false} SearchHorizons(sim: Sim, pool: Pool, oldEnd: int, horizons: seq<int>)
    requires Increasing(horizons)
    requires forall i :: 0 <= i < |horizons| ==> horizons[i] <= oldEnd
    ensures var r := Search(sim, pool, oldEnd, horizons);
      r.Ok? ==> HorizonsFrom(r.value.horizons, horizons, oldEnd, pool.endTime(sim.period))
    decreases pool.endTime(sim.period) - oldEnd
  {
    var may := Decide(sim, pool);
    if oldEnd < may.endTime {
      var rec := RecordAll(sim, pool.syncRun(sim, may.endTime));
      if rec.Ok? {
        var hs := horizons + [may.endTime];
        SearchHorizons(rec.value, pool, may.endTime, hs);
        var r := Search(rec.value, pool, may.endTime, hs);
        if r.Ok? {
          HorizonsFromStep(r.value.horizons, horizons, oldEnd, may.endTime, pool.endTime(sim.period));
        }
      } else {
        assert horizons[..|horizons|] == horizons;
      }
    } else {
      assert horizons[..|horizons|] == horizons;
    }
  }

  /** Horizons extending `prefix + [x]` above `x` extend `prefix` above any `lo` below `x`. */
  lemma HorizonsFromStep(hs: seq<int>, prefix: seq<int>, lo: int, x: int, hi: int)
    requires HorizonsFrom(hs, prefix + [x], x, hi)
    requires lo < x <= hi
    ensures HorizonsFrom(hs, prefix, lo, hi)
  {
    assert hs[..|prefix|] == (prefix + [x])[..|prefix|] == prefix;
    assert hs[|prefix|] == x;
  }

  /** The time stamp of a pool event. */
  function EventTime(ev: PoolEvent): int {
    match ev
    case BuyOrder(t) => t
    case SellOrder(t) => t
    case Trade(tr) => tr.t
  }

  /** No log of `sim` holds a current-period event later than `t`. */
  predicate NotBefore(sim: Sim, pool: Pool, t: int) {
    var v := ViewOf(sim, pool);
    && v.LastT(v.lastBuyOrder) <= t
    && v.LastT(v.lastSellOrder) <= t
    && v.LastT(v.lastTrade) <= t
  }

  /**
    The events of a run to `horizon` are in time order, none earlier than the
    last event any log of `sim` already holds for the period, none after the
    horizon.
   */
  predicate Chronological(sim: Sim, pool: Pool, events: seq<PoolEvent>, horizon: int) {
    && (forall i :: 0 <= i < |events| ==> NotBefore(sim, pool, EventTime(events[i])) && EventTime(events[i]) <= horizon)
    && (forall i, j :: 0 <= i < j < |events| ==> EventTime(events[i]) <= EventTime(events[j]))
  }

  /**
    The agent pool runs forward in time: whatever it is asked, it reports its
    events chronologically, after what is already logged and up to the horizon.
   */
  ghost predicate WellBehaved(pool: Pool) {
    forall sim, horizon {:trigger Chronological(sim, pool, pool.syncRun(sim, horizon), horizon)} ::
      Chronological(sim, pool, pool.syncRun(sim, horizon), horizon)
  }

  /** Logging an event no earlier than every log's last time moves no log's last time back, nor past the event. */
  lemma RecordKeepsTimeOrder(sim: Sim, pool: Pool, ev: PoolEvent)
    requires NotBefore(sim, pool, EventTime(ev))
    requires Record(sim, ev).Ok?
    ensures NoEarlier(ViewOf(sim, pool), ViewOf(Record(sim, ev).value, pool))
    ensures NotBefore(Record(sim, ev).value, pool, EventTime(ev))
  {
    var next := Record(sim, ev).value;
    if ev.Trade? {
      assert next.trades[|next.trades| - 1] == next.trades[|sim.trades|];
    }
  }

  /**
    Logging a chronological run moves no log's last time back, so every input
    of the end-of-period decision is at least as late afterwards.
   */
  lemma {:induction false} RecordAllKeepsTimeOrder(sim: Sim, pool: Pool, events: seq<PoolEvent>)
    requires forall i :: 0 <= i < |events| ==> NotBefore(sim, pool, EventTime(events[i]))
    requires forall i, j :: 0 <= i < j < |events| ==> EventTime(events[i]) <= EventTime(events[j])
    ensures RecordAll(sim, events).Ok? ==> NoEarlier(ViewOf(sim, pool), ViewOf(RecordAll(sim, events).value, pool))
    decreases |events|
  {
    if |events| > 0 && Record(sim, events[0]).Ok? {
      RecordKeepsTimeOrder(sim, pool, events[0]);
      var next := Record(sim, events[0]).value;
      var rest := events[1..];
      forall i | 0 <= i < |rest|
        ensures NotBefore(next, pool, EventTime(rest[i]))
      {
        assert rest[i] == events[i + 1];
      }
      forall i, j | 0 <= i < j < |rest|
        ensures EventTime(rest[i]) <= EventTime(rest[j])
      {
        assert rest[i] == events[i + 1] && rest[j] == events[j + 1];
      }
      RecordAllKeepsTimeOrder(next, pool, rest);
    }
  }

  /**
    With a well-behaved pool the candidate end time never decreases while the
    search runs, and a search that ran the pool at all stops exactly at the
    last horizon: the fixed point where the recomputed candidate equals the
    time the pool was last run to.
   */
  lemma {:induction false} SearchEndsAtLastHorizon(sim: Sim, pool: Pool, oldEnd: int, horizons: seq<int>)
    requires WellBehaved(pool)
    requires Increasing(horizons)
    requires forall i :: 0 <= i < |horizons| ==> horizons[i] <= oldEnd
    ensures var r := Search(sim, pool, oldEnd, horizons);
      r.Ok? ==>
      && Decide(sim, pool).endTime <= r.value.decision.endTime
      && (|r.value.horizons| > |horizons| ==> r.value.decision.endTime == r.value.horizons[|r.value.horizons| - 1])
    decreases pool.endTime(sim.period) - oldEnd
  {
    var may := Decide(sim, pool);
    if oldEnd < may.endTime {
      var events := pool.syncRun(sim, may.endTime);
      var rec := RecordAll(sim, events);
      if rec.Ok? {
        var next := rec.value;
        var hs := horizons + [may.endTime];
        assert Chronological(sim, pool, events, may.endTime);
        RecordAllKeepsTimeOrder(sim, pool, events);
        EndTimeMonotone(sim.config.clocks, ViewOf(sim, pool), ViewOf(next, pool));
        SearchEndsAtLastHorizon(next, pool, may.endTime, hs);
        SearchHorizons(next, pool, may.endTime, hs);
        var r := Search(next, pool, may.endTime, hs);
        if r.Ok? && |r.value.horizons| == |hs| {
          assert r.value.horizons == r.value.horizons[..|hs|] == hs;
        }
      }
    }
  }

  /** One completed period: the closed simulation and the horizons the pool was run to. */
  datatype PeriodRun = PeriodRun(sim: Sim, horizons: seq<int>)

  /** Period close: final money, Gini and price statistics come from the pool's collaborators. */
  function Close(s: Searched, pool: Pool): Sim {
    var money := pool.finalMoney(s.sim.period);
    LogPeriod(s.sim, Decide(s.sim, pool), money, pool.gini(money), pool.moments(s.sim.periodTradePrices))
  }

  /** The simulation at the start of the next period: only the counter moves. */
  function Started(sim: Sim): Sim {
    sim.(period := sim.period + 1)
  }

  /** One synchronous period: advance the period counter, search the horizon from candidate 0, close the period. */
  function PeriodOf(sim: Sim, pool: Pool): Result<PeriodRun> {
    Finish(Search(Started(sim), pool, 0, []), pool)
  }

  /** Closes the period a successful search leaves; a refused trade passes its error on. */
  function Finish(found: Result<Searched>, pool: Pool): Result<PeriodRun> {
    match found
    case Err(e) => Err(e)
    case Ok(s) => Ok(PeriodRun(Close(s, pool), s.horizons))
  }

  /**
    What a period promises: the counter goes up by exactly one, the pool was
    run to strictly increasing horizons within the scheduled end, the period
    closed with exactly one ohlc row whose end time is a fixed point of the
    search (no later than the last horizon run), and the price buffer is empty.
   */
  lemma PeriodFacts(sim: Sim, pool: Pool)
    ensures var r := PeriodOf(sim, pool);
      r.Ok? ==>
      var closed := r.value.sim;
      var hs := r.value.horizons;
      && closed.period == sim.period + 1
      && closed.config == sim.config
      && closed.periodTradePrices == []
      && |closed.ohlc| == |sim.ohlc| + 1 && closed.ohlc[..|sim.ohlc|] == sim.ohlc
      && closed.ohlc[|sim.ohlc|].period == sim.period + 1
      && Increasing(hs)
      && (forall i :: 0 <= i < |hs| ==> 0 < hs[i] <= pool.endTime(sim.period + 1))
      && closed.ohlc[|sim.ohlc|].endTime <= pool.endTime(sim.period + 1)
      && (|hs| == 0 ==> closed.ohlc[|sim.ohlc|].endTime <= 0)
      && (|hs| > 0 ==> closed.ohlc[|sim.ohlc|].endTime <= hs[|hs| - 1])
  {
    SearchHorizons(Started(sim), pool, 0, []);
  }

  /**
    The horizon loop of the synchronous `runPeriod`: while the previous
    candidate end time is below the current one, run the pool to the current
    candidate, log what it produced, and recompute. It computes exactly the
    search of `Search` from candidate 0.
   */
  method SearchLoop(start: Sim, pool: Pool) returns (r: Result<Searched>)
    ensures r == Search(start, pool, 0, [])
  {
    var cur := start;
    var oldEnd := 0;
    var horizons: seq<int> := [];
    var mayEnd := Decide(cur, pool);
    while oldEnd < mayEnd.endTime
      invariant Increasing(horizons)
      invariant forall i :: 0 <= i < |horizons| ==> horizons[i] <= oldEnd
      invariant cur.period == start.period
      invariant mayEnd == Decide(cur, pool)
      invariant Search(cur, pool, oldEnd, horizons) == Search(start, pool, 0, [])
      decreases pool.endTime(start.period) - oldEnd
    {
      var recorded := RecordAll(cur, pool.syncRun(cur, mayEnd.endTime));
      if recorded.Err? {
        return Err(recorded.error);
      }
      horizons := horizons + [mayEnd.endTime];
      oldEnd := mayEnd.endTime;
      cur := recorded.value;
      mayEnd := Decide(cur, pool);
    }
    return Ok(Searched(cur, mayEnd, horizons));
  }

  /**
    The synchronous `runPeriod`: advance the period counter, run the horizon
    loop, close the period. It computes exactly the period of `PeriodOf`.
   */
  method RunPeriod(sim: Sim, pool: Pool) returns (r: Result<PeriodRun>)
    ensures r == PeriodOf(sim, pool)
  {
    var found := SearchLoop(Started(sim), pool);
    r := Finish(found, pool);
  }

  /** The outcome of a run: the simulation, the (possibly reduced) period target, and the original request if reduced. */
  datatype RunOutcome = RunOutcome(sim: Sim, periods: int, periodsRequested: Option<int>)

  /**
    What a synchronous run promises, from period `start` with target
    `periods`: if there was nothing to do nothing changes; otherwise periods run
    one by one until the target, or until the first period after which the
    deadline had passed, and that early stop lowers the target to the periods
    completed and remembers the original request.
   */
  predicate RunContract(start: int, periods: int, pastDeadline: int -> bool, o: RunOutcome) {
    if periods <= start then
      o.sim.period == start && o.periods == periods && o.periodsRequested.None?
    else
      && start < o.sim.period <= periods
      && o.periods == o.sim.period
      && (forall p :: start < p < o.sim.period ==> !pastDeadline(p))
      && (o.periodsRequested.Some? <==> pastDeadline(o.sim.period))
      && (o.periodsRequested.Some? ==> o.periodsRequested.value == periods)
      && (o.periodsRequested.None? ==> o.sim.period == periods)
  }

  /**
    The loop state of a run from `start` with target `periods`: no deadline
    passed after any completed period except possibly the current one, and a
    passed deadline has frozen the target at the current period.
   */
  predicate RunSoFar(start: int, periods: int, pastDeadline: int -> bool, o: RunOutcome) {
    && start <= o.sim.period
    && (periods <= start ==> o.sim.period == start && o.periods == periods && o.periodsRequested.None?)
    && (periods > start ==> o.sim.period <= o.periods <= periods)
    && (forall p :: start < p < o.sim.period ==> !pastDeadline(p))
    && (o.periodsRequested.Some? ==>
          o.periodsRequested.value == periods && o.periods == o.sim.period
          && pastDeadline(o.sim.period) && start < o.sim.period)
    && (o.periodsRequested.None? ==> o.periods == periods)
    && (o.periodsRequested.None? && o.sim.period > start ==> !pastDeadline(o.sim.period))
  }

  /**
    The deadline check after a period: once the deadline has passed, the
    requested count is remembered and the target drops to the current period.
   */
  function AfterPeriod(o: RunOutcome, next: Sim, pastDeadline: int -> bool): RunOutcome {
    if pastDeadline(next.period) then RunOutcome(next, next.period, Some(o.periods))
    else RunOutcome(next, o.periods, o.periodsRequested)
  }

  /** One more period, followed by the deadline check, keeps the loop state. */
  lemma AfterPeriodKeepsRunSoFar(start: int, periods: int, pastDeadline: int -> bool, o: RunOutcome, next: Sim)
    requires RunSoFar(start, periods, pastDeadline, o)
    requires o.sim.period < o.periods
    requires next.period == o.sim.period + 1
    ensures RunSoFar(start, periods, pastDeadline, AfterPeriod(o, next, pastDeadline))
  {
  }

  /** When the loop stops, its state is a run outcome as promised. */
  lemma RunSoFarStops(start: int, periods: int, pastDeadline: int -> bool, o: RunOutcome)
    requires RunSoFar(start, periods, pastDeadline, o)
    requires o.periods <= o.sim.period
    ensures RunContract(start, periods, pastDeadline, o)
  {
  }

  /**
    `cur` is `sim` advanced by whole periods: one ohlc row was appended per
    period, numbered consecutively after `sim`'s period.
   */
  predicate OneRowPerPeriod(sim: Sim, cur: Sim) {
    && sim.period <= cur.period
    && |cur.ohlc| == |sim.ohlc| + (cur.period - sim.period)
    && cur.ohlc[..|sim.ohlc|] == sim.ohlc
    && forall k :: |sim.ohlc| <= k < |cur.ohlc| ==> cur.ohlc[k].period == sim.period + 1 + (k - |sim.ohlc|)
  }

  /** A completed period keeps the one-row-per-period bookkeeping. */
  lemma PeriodKeepsOneRowPerPeriod(sim: Sim, cur: Sim, pool: Pool)
    requires OneRowPerPeriod(sim, cur)
    requires PeriodOf(cur, pool).Ok?
    ensures OneRowPerPeriod(sim, PeriodOf(cur, pool).value.sim)
  {
    PeriodFacts(cur, pool);
    var next := PeriodOf(cur, pool).value.sim;
    assert next.ohlc[..|cur.ohlc|] == cur.ohlc;
    assert next.ohlc[..|sim.ohlc|] == cur.ohlc[..|sim.ohlc|];
    forall k | |sim.ohlc| <= k < |next.ohlc|
      ensures next.ohlc[k].period == sim.period + 1 + (k - |sim.ohlc|)
    {
      if k < |cur.ohlc| {
        assert next.ohlc[k] == next.ohlc[..|cur.ohlc|][k] == cur.ohlc[k];
      }
    }
  }

  /**
    The run loop as a recursive definition: while the period counter is below
    the target, run one period and apply the deadline check; the first refused
    trade aborts the run with its error.
   */
  function RunOf(o: RunOutcome, pool: Pool, pastDeadline: int -> bool): (r: Result<RunOutcome>)
    ensures r.Err? ==> r.error.IsTradeRefusal()
    decreases o.periods - o.sim.period
  {
    if o.sim.period < o.periods then
      match PeriodOf(o.sim, pool)
      case Err(e) =>
        SearchExtends(Started(o.sim), pool, 0, []);
        Err(e)
      case Ok(ran) =>
        PeriodFacts(o.sim, pool);
        RunOf(AfterPeriod(o, ran.sim, pastDeadline), pool, pastDeadline)
    else
      Ok(o)
  }

  /**
    The synchronous `run`: refuses an update hook that is not a function, then
    runs periods while the period counter is below the target. After each
    period, a passed deadline records the requested count and lowers the target
    to the current period. Each completed period adds exactly one ohlc row.
   */
  method Run(sim: Sim, pool: Pool, periods: int, pastDeadline: int -> bool, updateIsFunction: bool)
    returns (r: Result<RunOutcome>)
    ensures !updateIsFunction ==> r == Err(UpdateNotAFunction)
    ensures updateIsFunction ==> r == RunOf(RunOutcome(sim, periods, None), pool, pastDeadline)
    ensures r.Ok? ==> RunContract(sim.period, periods, pastDeadline, r.value)
    ensures r.Ok? ==> r.value.sim.config == sim.config
    ensures r.Ok? ==> OneRowPerPeriod(sim, r.value.sim)
  {
    if !updateIsFunction {
      return Err(UpdateNotAFunction);
    }
    var o := RunOutcome(sim, periods, None);
    assert sim.ohlc[..|sim.ohlc|] == sim.ohlc;
    while o.sim.period < o.periods
      invariant o.sim.config == sim.config
      invariant OneRowPerPeriod(sim, o.sim)
      invariant RunSoFar(sim.period, periods, pastDeadline, o)
      invariant RunOf(o, pool, pastDeadline) == RunOf(RunOutcome(sim, periods, None), pool, pastDeadline)
      decreases o.periods - o.sim.period
    {
      var ran := RunPeriod(o.sim, pool);
      if ran.Err? {
        return Err(ran.error);
      }
      PeriodFacts(o.sim, pool);
      PeriodKeepsOneRowPerPeriod(sim, o.sim, pool);
      AfterPeriodKeepsRunSoFar(sim.period, periods, pastDeadline, o, ran.value.sim);
      o := AfterPeriod(o, ran.value.sim, pastDeadline);
    }
    RunSoFarStops(sim.period, periods, pastDeadline, o);
    r := Ok(o);
  }

  /**
    The test suite's deadline scenario: ten periods requested from a fresh
    simulation with a deadline already passed. Exactly one period runs, the
    target drops to 1 and the request of 10 is kept.
   */
  lemma ImmediateDeadlineRunsOnePeriod(pastDeadline: int -> bool, o: RunOutcome)
    requires forall p :: pastDeadline(p)
    requires RunContract(0, 10, pastDeadline, o)
    ensures o.sim.period == 1 && o.periods == 1 && o.periodsRequested == Some(10)
  {
    assert pastDeadline(1);
  }

  /** Without a deadline the run completes every requested period. */
  lemma NoDeadlineRunsAll(start: int, periods: int, pastDeadline: int -> bool, o: RunOutcome)
    requires forall p :: !pastDeadline(p)
    requires start < periods
    requires RunContract(start, periods, pastDeadline, o)
    ensures o.sim.period == periods && o.periods == periods && o.periodsRequested.None?
  {
  }

  /**
    With both clocks off and a positive scheduled end, the search runs the pool
    exactly once, up to the scheduled end: the earlier revisions' single
    `syncRun(pool.endTime())` is the special case of the search.
   */
  lemma ClocksOffRunsPoolOnce(sim: Sim, pool: Pool)
    requires !sim.config.clocks.OrderOn() && !sim.config.clocks.TradeOn()
    requires pool.endTime(sim.period) > 0
    requires AllTradesValid(pool.syncRun(sim, pool.endTime(sim.period)))
    ensures var r := Search(sim, pool, 0, []);
      && r.Ok?
      && r.value.horizons == [pool.endTime(sim.period)]
      && r.value.decision == Decision(pool.endTime(sim.period), DurationExpired)
  {
    ClocksOffMeansDuration(sim.config.clocks, ViewOf(sim, pool));
    var next := RecordAll(sim, pool.syncRun(sim, pool.endTime(sim.period))).value;
    ClocksOffMeansDuration(next.config.clocks, ViewOf(next, pool));
  }
}
