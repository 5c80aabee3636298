/**
  Construction of the agent population: the buyer and seller counts are
  inferred from the configuration, buyers get ids 1..n and sellers the ids
  after them, and each agent's type and wake rate are taken round-robin from
  the configured rotations.
 */
module Population {
  import opened SimTypes

  datatype Side = Buyer | Seller

  /** An agent as the simulator lays it out; its trading behaviour belongs to the external pool. */
  datatype Agent = Agent(id: int, side: Side, agentType: string, rate: Option<real>)

  /**
    The configuration fields construction reads. A missing array is `None`.
    The rates are the output of the external positive-number normaliser,
    `None` when it returns a falsy value.
   */
  datatype AgentConfig = AgentConfig(
    numberOfBuyers: Option<int>,
    numberOfSellers: Option<int>,
    buyerValues: Option<seq<int>>,
    sellerCosts: Option<seq<int>>,
    buyerAgentType: seq<string>,
    sellerAgentType: seq<string>,
    buyerRate: Option<seq<real>>,
    sellerRate: Option<seq<real>>,
    periodDuration: Option<int>)

  datatype Population = Population(
    numberOfBuyers: int,
    numberOfSellers: int,
    numberOfAgents: int,
    periodDuration: int,
    buyers: seq<Agent>,
    sellers: seq<Agent>)
  {
    /** The whole pool: buyers first, then sellers. */
    function Agents(): seq<Agent> {
      buyers + sellers
    }
  }

  /**
    `explicit || entries.length`: a truthy explicit count wins; otherwise the
    length of the array, and reading the length of a missing array is a
    TypeError.
   */
  function InferCount(explicit: Option<int>, entries: Option<seq<int>>): (r: Result<int>)
    ensures r.Err? <==> !Truthy(explicit) && entries.None?
    ensures r.Err? ==> r.error == NotAnArray
    ensures r.Ok? && r.value == 0 ==> !Truthy(explicit) && |entries.value| == 0
    ensures r.Ok? && Truthy(explicit) ==> r.value == explicit.value
  {
    if Truthy(explicit) then Ok(explicit.value)
    else if entries.None? then Err(NotAnArray)
    else Ok(|entries.value|)
  }

  /** `normalised || [1]`: the rate rotation defaults to a single rate of 1. */
  function RateList(normalised: Option<seq<real>>): seq<real> {
    if normalised.None? then [1.0] else normalised.value
  }

  /** `s[i % s.length]`, undefined when `s` is empty. */
  function Pick<T>(s: seq<T>, i: nat): (r: Option<T>)
    ensures r.Some? <==> |s| > 0
    ensures r.Some? ==> r.value in s
    ensures |s| > 0 && i < |s| ==> r == Some(s[i])
  {
    if |s| == 0 then None else Some(s[i % |s|])
  }

  /** Buyer number `i` (from 0); an empty type rotation cannot name a constructor. */
  function NewBuyerAgent(cfg: AgentConfig, i: nat): (r: Result<Agent>)
    ensures r.Ok? <==> |cfg.buyerAgentType| > 0
    ensures r.Err? ==> r.error == UnknownAgentType
    ensures r.Ok? ==> r.value.id == 1 + i && r.value.side == Buyer
    ensures r.Ok? ==> r.value.agentType == cfg.buyerAgentType[i % |cfg.buyerAgentType|]
    ensures r.Ok? ==> r.value.rate == Pick(RateList(cfg.buyerRate), i)
  {
    match Pick(cfg.buyerAgentType, i)
    case None => Err(UnknownAgentType)
    case Some(t) => Ok(Agent(1 + i, Buyer, t, Pick(RateList(cfg.buyerRate), i)))
  }

  /** Seller number `i` (from 0), numbered after all `numberOfBuyers` buyers. */
  function NewSellerAgent(cfg: AgentConfig, numberOfBuyers: int, i: nat): (r: Result<Agent>)
    ensures r.Ok? <==> |cfg.sellerAgentType| > 0
    ensures r.Err? ==> r.error == UnknownAgentType
    ensures r.Ok? ==> r.value.id == i + 1 + numberOfBuyers && r.value.side == Seller
    ensures r.Ok? ==> r.value.agentType == cfg.sellerAgentType[i % |cfg.sellerAgentType|]
    ensures r.Ok? ==> r.value.rate == Pick(RateList(cfg.sellerRate), i)
  {
    match Pick(cfg.sellerAgentType, i)
    case None => Err(UnknownAgentType)
    case Some(t) => Ok(Agent(i + 1 + numberOfBuyers, Seller, t, Pick(RateList(cfg.sellerRate), i)))
  }

  /** `periodDuration || 1000`. */
  function PeriodDuration(cfg: AgentConfig): (d: int)
    ensures d != 0
    ensures Truthy(cfg.periodDuration) ==> d == cfg.periodDuration.value
  {
    if Truthy(cfg.periodDuration) then cfg.periodDuration.value else 1000
  }

  /** Both counts could be determined and are truthy. */
  predicate CountsKnown(cfg: AgentConfig) {
    && InferCount(cfg.numberOfBuyers, cfg.buyerValues).Ok?
    && InferCount(cfg.numberOfSellers, cfg.sellerCosts).Ok?
    && InferCount(cfg.numberOfBuyers, cfg.buyerValues).value != 0
    && InferCount(cfg.numberOfSellers, cfg.sellerCosts).value != 0
  }

  /** Buyers 0 .. nb-1, in order (none when nb is not positive). */
  function BuyersOf(cfg: AgentConfig, nb: int): (b: seq<Agent>)
    requires nb > 0 ==> |cfg.buyerAgentType| > 0
    ensures |b| == Max(0, nb)
    ensures forall i :: 0 <= i < |b| ==> Ok(b[i]) == NewBuyerAgent(cfg, i)
  {
    seq(Max(0, nb), i requires 0 <= i < Max(0, nb) => NewBuyerAgent(cfg, i).value)
  }

  /** Sellers 0 .. ns-1, in order, numbered after `nb` buyers. */
  function SellersOf(cfg: AgentConfig, nb: int, ns: int): (s: seq<Agent>)
    requires ns > 0 ==> |cfg.sellerAgentType| > 0
    ensures |s| == Max(0, ns)
    ensures forall i :: 0 <= i < |s| ==> Ok(s[i]) == NewSellerAgent(cfg, nb, i)
  {
    seq(Max(0, ns), i requires 0 <= i < Max(0, ns) => NewSellerAgent(cfg, nb, i).value)
  }

  /**
    The population the constructor builds, as a reference definition: buyer
    count, seller count (either may throw), the falsy-count check, then the
    buyers and the sellers in order. A negative count is truthy and yields no
    agents of that side, as the source's `for` loop does.
   */
  function Layout(cfg: AgentConfig): (r: Result<Population>)
    ensures r.Ok? <==>
      && CountsKnown(cfg)
      && (InferCount(cfg.numberOfBuyers, cfg.buyerValues).value > 0 ==> |cfg.buyerAgentType| > 0)
      && (InferCount(cfg.numberOfSellers, cfg.sellerCosts).value > 0 ==> |cfg.sellerAgentType| > 0)
    ensures !CountsKnown(cfg) && r.Err? && r.error != NotAnArray ==> r.error == CannotDetermineCounts
    ensures CountsKnown(cfg) && r.Err? ==> r.error == UnknownAgentType
    ensures r.Ok? ==>
      var p := r.value;
      && p.numberOfBuyers == InferCount(cfg.numberOfBuyers, cfg.buyerValues).value
      && p.numberOfSellers == InferCount(cfg.numberOfSellers, cfg.sellerCosts).value
      && p.numberOfAgents == p.numberOfBuyers + p.numberOfSellers
      && p.periodDuration == PeriodDuration(cfg)
      && |p.buyers| == Max(0, p.numberOfBuyers)
      && |p.sellers| == Max(0, p.numberOfSellers)
      && (forall i :: 0 <= i < |p.buyers| ==> Ok(p.buyers[i]) == NewBuyerAgent(cfg, i))
      && (forall i :: 0 <= i < |p.sellers| ==> Ok(p.sellers[i]) == NewSellerAgent(cfg, p.numberOfBuyers, i))
  {
    match InferCount(cfg.numberOfBuyers, cfg.buyerValues)
    case Err(e) => Err(e)
    case Ok(nb) =>
      match InferCount(cfg.numberOfSellers, cfg.sellerCosts)
      case Err(e) => Err(e)
      case Ok(ns) =>
        if nb == 0 || ns == 0 then Err(CannotDetermineCounts)
        else if nb > 0 && |cfg.buyerAgentType| == 0 then Err(UnknownAgentType)
        else if ns > 0 && |cfg.sellerAgentType| == 0 then Err(UnknownAgentType)
        else
          Ok(Population(nb, ns, nb + ns, PeriodDuration(cfg), BuyersOf(cfg, nb), SellersOf(cfg, nb, ns)))
  }

  /** The constructor's buyer loop: create buyer 0, 1, … in order; the first that cannot be typed throws. */
  method NewBuyers(cfg: AgentConfig, nb: int) returns (r: Result<seq<Agent>>)
    ensures r.Err? <==> nb > 0 && |cfg.buyerAgentType| == 0
    ensures r.Err? ==> r.error == UnknownAgentType
    ensures r.Ok? ==> r.value == BuyersOf(cfg, nb)
  {
    var buyers: seq<Agent> := [];
    var i := 0;
    while i < nb
      invariant 0 <= i <= Max(0, nb)
      invariant i > 0 ==> |cfg.buyerAgentType| > 0
      invariant |buyers| == i
      invariant forall k :: 0 <= k < i ==> Ok(buyers[k]) == NewBuyerAgent(cfg, k)
    {
      var a :- NewBuyerAgent(cfg, i);
      buyers := buyers + [a];
      i := i + 1;
    }
    return Ok(buyers);
  }

  /** The constructor's seller loop, numbering sellers after the `nb` buyers. */
  method NewSellers(cfg: AgentConfig, nb: int, ns: int) returns (r: Result<seq<Agent>>)
    ensures r.Err? <==> ns > 0 && |cfg.sellerAgentType| == 0
    ensures r.Err? ==> r.error == UnknownAgentType
    ensures r.Ok? ==> r.value == SellersOf(cfg, nb, ns)
  {
    var sellers: seq<Agent> := [];
    var j := 0;
    while j < ns
      invariant 0 <= j <= Max(0, ns)
      invariant j > 0 ==> |cfg.sellerAgentType| > 0
      invariant |sellers| == j
      invariant forall k :: 0 <= k < j ==> Ok(sellers[k]) == NewSellerAgent(cfg, nb, k)
    {
      var a :- NewSellerAgent(cfg, nb, j);
      sellers := sellers + [a];
      j := j + 1;
    }
    return Ok(sellers);
  }

  /**
    The constructor's agent set-up: infer both counts, refuse a falsy one,
    then create the buyers and the sellers. It builds exactly the population
    of `Layout`.
   */
  method InitAgents(cfg: AgentConfig) returns (r: Result<Population>)
    ensures r == Layout(cfg)
  {
    var nb :- InferCount(cfg.numberOfBuyers, cfg.buyerValues);
    var ns :- InferCount(cfg.numberOfSellers, cfg.sellerCosts);
    if nb == 0 || ns == 0 {
      return Err(CannotDetermineCounts);
    }
    var buyers :- NewBuyers(cfg, nb);
    var sellers :- NewSellers(cfg, nb, ns);
    r := Ok(Population(nb, ns, nb + ns, PeriodDuration(cfg), buyers, sellers));
  }

  /**
    With a non-negative buyer count the ids of the whole pool are 1, 2, …, in
    pool order: buyers first, sellers continuing where the buyers stop.
   */
  lemma IdsAreSequential(cfg: AgentConfig)
    requires Layout(cfg).Ok? && Layout(cfg).value.numberOfBuyers >= 0
    ensures var agents := Layout(cfg).value.Agents();
      forall k :: 0 <= k < |agents| ==> agents[k].id == k + 1
  {
    var p := Layout(cfg).value;
    forall k | 0 <= k < |p.Agents()|
      ensures p.Agents()[k].id == k + 1
    {
      if k < |p.buyers| {
        assert p.Agents()[k] == p.buyers[k];
        assert Ok(p.buyers[k]) == NewBuyerAgent(cfg, k);
      } else {
        assert p.Agents()[k] == p.sellers[k - |p.buyers|];
        assert Ok(p.sellers[k - |p.buyers|]) == NewSellerAgent(cfg, p.numberOfBuyers, k - |p.buyers|);
      }
    }
  }

  /**
    While the rotations are at least as long as the buyer list, buyer `i` gets
    exactly the `i`-th configured type and rate; with a single configured type
    every buyer has that type.
   */
  lemma BuyerTypesFollowRotation(cfg: AgentConfig, i: nat)
    requires Layout(cfg).Ok?
    requires i < |Layout(cfg).value.buyers|
    ensures var b := Layout(cfg).value.buyers[i];
      && (i < |cfg.buyerAgentType| ==> b.agentType == cfg.buyerAgentType[i])
      && (|cfg.buyerAgentType| == 1 ==> b.agentType == cfg.buyerAgentType[0])
      && (i < |RateList(cfg.buyerRate)| ==> b.rate == Some(RateList(cfg.buyerRate)[i]))
  {
    var b := Layout(cfg).value.buyers;
    assert Ok(b[i]) == NewBuyerAgent(cfg, i);
  }

  /**
    The test suite's first configuration: no explicit counts, three buyer
    values, two seller costs, one agent type on each side. Three buyers with
    ids 1..3, two sellers with ids 4 and 5, five agents, duration 1000.
   */
  lemma ThreeBuyersTwoSellers(buyerRate: Option<seq<real>>, sellerRate: Option<seq<real>>)
    ensures var cfg := AgentConfig(None, None, Some([10, 9, 8]), Some([20, 40]),
                                   ["ZIAgent"], ["ZIAgent"], buyerRate, sellerRate, Some(1000));
      var r := Layout(cfg);
      && r.Ok?
      && r.value.numberOfBuyers == 3 && r.value.numberOfSellers == 2 && r.value.numberOfAgents == 5
      && r.value.periodDuration == 1000
      && |r.value.buyers| == 3 && |r.value.sellers| == 2
      && (forall k :: 0 <= k < 5 ==> r.value.Agents()[k].id == k + 1)
  {
    var cfg := AgentConfig(None, None, Some([10, 9, 8]), Some([20, 40]),
                           ["ZIAgent"], ["ZIAgent"], buyerRate, sellerRate, Some(1000));
    IdsAreSequential(cfg);
  }

  /** A configuration with an empty values array and no explicit buyer count cannot be built. */
  lemma NoBuyersIsRefused(cfg: AgentConfig)
    requires !Truthy(cfg.numberOfBuyers) && cfg.buyerValues == Some([])
    requires InferCount(cfg.numberOfSellers, cfg.sellerCosts).Ok?
    ensures Layout(cfg) == Err(CannotDetermineCounts)
  {
  }
}
