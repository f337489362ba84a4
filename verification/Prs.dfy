/** The Power Reclaim Service: exponentially smoothed draws, idle floors, and the rest of the budget split
    between the hot GPUs. One control tick of one domain is the value `Tick`; `PRSBrain` computes it. */
module Prs {
  import opened Options
  import opened Sums
  import opened PdnModel

  datatype PrsConfig = PrsConfig(minCap: real, alpha: real, threshold: real, margin: real, raiseRate: real) {
    predicate Valid() {
      0.0 < alpha <= 1.0 && raiseRate >= 0.0
    }
  }

  /** Telemetry of one domain. `gpus` lists the keys of `draws` in order. */
  datatype DomainState = DomainState(
    gpus: seq<int>, draws: map<int, real>, caps: map<int, real>, maxCaps: map<int, real>, throttled: set<int>) {

    ghost predicate Valid() {
      NoDup(gpus) && forall g :: g in gpus <==> g in draws
    }

    function CurrentCap(g: int, fallback: real): real {
      Get(caps, g, fallback)
    }

    function HwMax(g: int, fallback: real): real {
      Get(maxCaps, g, CurrentCap(g, fallback))
    }
  }

  /** What a brain remembers about one domain. */
  datatype PrsMemory = PrsMemory(ewma: map<int, real>, lastCaps: map<int, real>)

  datatype PrsMetrics = PrsMetrics(
    hot: seq<int>, idle: seq<int>, idleStranded: real, domainDraw: real, domainCap: real, ewma: map<int, real>)

  // ----- The steps of a tick -----

  /** `a` parts of the new reading and `1 - a` parts of the old average */
  function Smooth(a: real, draw: real, average: real): real {
    a * draw + (1.0 - a) * average
  }

  /** An idle GPU's smoothed draw with room for a spike. */
  function WithMargin(draw: real, margin: real): real {
    draw * (1.0 + margin)
  }

  predicate AtLeastFraction(draw: real, cap: real, threshold: real) {
    cap > 0.0 && draw / cap >= threshold
  }

  function Quotient(total: real, n: nat): real {
    total / (if n == 0 then 1 else n) as real
  }

  /** One of `n` equal parts of `limit`. */
  function EqualPart(n: nat, limit: real): real
    requires n > 0
  {
    1.0 / n as real * limit
  }

  /** Smoothed draws after this tick; GPUs that are missing keep theirs. */
  function SmoothAll(a: real, average: map<int, real>, draws: map<int, real>): (r: map<int, real>)
    ensures r.Keys == average.Keys + draws.Keys
  {
    map g | g in average.Keys + draws.Keys ::
      if g in draws then Smooth(a, draws[g], Get(average, g, draws[g])) else average[g]
  }

  function HotSet(threshold: real, fallback: real, ewma: map<int, real>, st: DomainState): set<int> {
    set g | g in st.draws && AtLeastFraction(At(ewma, g), st.CurrentCap(g, fallback), threshold)
  }

  function IdleFloor(cfg: PrsConfig, ewma: real, hwMax: real): real {
    Min(Max(cfg.minCap, WithMargin(ewma, cfg.margin)), hwMax)
  }

  function FloorAll(cfg: PrsConfig, fallback: real, ewma: map<int, real>, idle: seq<int>,
      st: DomainState): (r: map<int, real>)
    ensures forall g :: g in r <==> g in idle
  {
    map g | g in idle :: IdleFloor(cfg, At(ewma, g), st.HwMax(g, fallback))
  }

  /** The hot GPUs' parts of the hot budget before clamping: in proportion to smoothed draw. */
  function ShareAll(ewma: map<int, real>, hot: seq<int>, hotBudget: real): (r: map<int, real>)
    ensures forall g :: g in r <==> g in hot
  {
    var total := Sum(hot, ewma);
    map g | g in hot :: if total > 0.0 then ProRata(At(ewma, g), hotBudget, total) else EqualPart(|hot|, hotBudget)
  }

  function ClampAll(cfg: PrsConfig, fallback: real, shares: map<int, real>, st: DomainState): (r: map<int, real>)
    ensures r.Keys == shares.Keys
  {
    map g | g in shares :: Max(cfg.minCap, Min(st.HwMax(g, fallback), shares[g]))
  }

  /** The cap a raise is measured against, if one is known. */
  function Previous(last: map<int, real>, st: DomainState, g: int): Option<real> {
    if g in last then Some(last[g]) else if g in st.caps then Some(st.caps[g]) else None
  }

  function Limit(rate: real, previous: Option<real>, target: real): real {
    if rate > 0.0 && previous.Some? && target > previous.value then Min(target, previous.value + rate) else target
  }

  function LimitAll(rate: real, last: map<int, real>, st: DomainState, targets: map<int, real>): (r: map<int, real>)
    ensures r.Keys == targets.Keys
  {
    map g | g in targets :: Limit(rate, Previous(last, st, g), targets[g])
  }

  /** cap - draw of every GPU */
  function Headroom(caps: map<int, real>, draws: map<int, real>): map<int, real> {
    map g | g in caps :: caps[g] - At(draws, g)
  }

  datatype Tick = Tick(cfg: PrsConfig, budget: real, mem: PrsMemory, st: DomainState) {

    ghost predicate Valid() {
      cfg.Valid() && st.Valid()
    }

    function Fallback(): real {
      Quotient(budget, |st.gpus|)
    }

    function Ewma(): map<int, real> {
      SmoothAll(cfg.alpha, mem.ewma, st.draws)
    }

    function Hot(): (r: seq<int>)
      ensures forall g :: g in r ==> g in st.gpus
    {
      Inside(st.gpus, HotSet(cfg.threshold, Fallback(), Ewma(), st))
    }

    function Idle(): (r: seq<int>)
      ensures forall g :: g in r ==> g in st.gpus
    {
      Outside(st.gpus, HotSet(cfg.threshold, Fallback(), Ewma(), st))
    }

    function IdleCaps(): map<int, real> {
      FloorAll(cfg, Fallback(), Ewma(), Idle(), st)
    }

    function IdleTotal(): real {
      Sum(Idle(), IdleCaps())
    }

    function HotBudget(): real {
      Max(0.0, budget - IdleTotal())
    }

    function Shares(): map<int, real> {
      ShareAll(Ewma(), Hot(), HotBudget())
    }

    function HotCaps(): map<int, real> {
      ClampAll(cfg, Fallback(), Shares(), st)
    }

    /** The caps before the raise limiter. */
    function Targets(): map<int, real> {
      IdleCaps() + HotCaps()
    }

    function Caps(): map<int, real> {
      LimitAll(cfg.raiseRate, mem.lastCaps, st, Targets())
    }

    /** The memory after this tick. */
    function Next(): PrsMemory {
      PrsMemory(Ewma(), Caps())
    }

    function Metrics(): PrsMetrics {
      PrsMetrics(Hot(), Idle(), Max(0.0, Sum(Idle(), Headroom(Caps(), st.draws))),
                 Sum(st.gpus, st.draws), Sum(st.gpus, Caps()), Ewma())
    }
  }

  lemma HotExactly(threshold: real, fallback: real, ewma: map<int, real>, st: DomainState, g: int)
    requires g in st.draws
    ensures g in HotSet(threshold, fallback, ewma, st)
            <==> AtLeastFraction(At(ewma, g), st.CurrentCap(g, fallback), threshold)
  {
    hide AtLeastFraction;
  }

  /** Every step of a tick covers the GPUs that the next one asks for. */
  lemma StepsCover(t: Tick)
    requires t.st.Valid()
    ensures forall g :: g in t.st.gpus ==> g in t.Ewma()
    ensures forall g :: g in t.Hot() || g in t.Idle() ==> g in t.Ewma()
    ensures forall g :: g in t.Idle() + t.Hot() <==> g in t.Targets()
    ensures forall g :: g in t.Idle() ==> g in t.Caps()
  {
    hide Quotient, HotSet, Smooth;
  }

  class PRSBrain {
    const topology: Topology
    const cfg: PrsConfig
    var ewma: map<string, map<int, real>>
    var lastCaps: map<string, map<int, real>>
    var lastMetrics: map<string, PrsMetrics>

    constructor (topology: Topology, cfg: PrsConfig)
      requires cfg.Valid()
      ensures this.topology == topology && this.cfg == cfg
      ensures ewma == map[] && lastCaps == map[] && lastMetrics == map[]
    {
      this.topology := topology;
      this.cfg := cfg;
      ewma, lastCaps, lastMetrics := map[], map[], map[];
    }

    function Memory(domain: string): PrsMemory
      reads this
    {
      PrsMemory(Get(ewma, domain, map[]), Get(lastCaps, domain, map[]))
    }

    function TickOf(domain: string, st: DomainState): Tick
      requires domain in topology.pdn.domains
      reads this, topology
    {
      Tick(cfg, topology.DomainBudget(domain), Memory(domain), st)
    }

    method Decide(domain: string, st: DomainState) returns (caps: map<int, real>)
      requires domain in topology.pdn.domains && st.Valid() && cfg.Valid()
      modifies this
      ensures caps == old(TickOf(domain, st)).Caps()
      ensures ewma == old(ewma)[domain := old(TickOf(domain, st)).Ewma()]
      ensures lastCaps == old(lastCaps)[domain := caps]
      ensures lastMetrics == old(lastMetrics)[domain := old(TickOf(domain, st)).Metrics()]
    {
      hide Quotient, SmoothAll, HotSet, Sum, Inside, Outside, Tick.Caps, Tick.Hot, Tick.Idle, PdnModel.Topology.DomainBudget;
      ghost var t := TickOf(domain, st);
      var budget := topology.DomainBudget(domain);
      var domainEwma := UpdateEwma(Get(ewma, domain, map[]), st);
      ewma := ewma[domain := domainEwma];
      var hot, idle;
      caps, hot, idle := Allot(budget, domainEwma, Get(lastCaps, domain, map[]), st, t);
      lastCaps := lastCaps[domain := caps];
      var stranded := Stranded(caps, idle, st);
      lastMetrics := lastMetrics[domain := PrsMetrics(
        hot, idle, Max(0.0, stranded), Sum(st.gpus, st.draws), Sum(st.gpus, caps), domainEwma)];
    }

    /** From smoothed draws to caps. */
    method Allot(budget: real, e: map<int, real>, last: map<int, real>, st: DomainState, ghost t: Tick)
        returns (caps: map<int, real>, hot: seq<int>, idle: seq<int>)
      requires st.Valid() && t.cfg == cfg && t.budget == budget && t.st == st && t.mem.lastCaps == last && e == t.Ewma()
      ensures caps == t.Caps() && hot == t.Hot() && idle == t.Idle()
      ensures forall g :: g in idle ==> g in caps
    {
      hide Quotient, HotSet, FloorAll, ShareAll, ClampAll, LimitAll, Sum, Inside, Outside, Tick.Ewma, DomainState.Valid;
      StepsCover(t);
      var fallback := Quotient(budget, |st.gpus|);
      hot, idle := Classify(e, fallback, st);
      var idleCaps := FloorIdle(e, fallback, idle, st);
      var hotBudget := Max(0.0, budget - Sum(idle, idleCaps));
      var hotCaps := SplitHot(e, fallback, hot, hotBudget, st);
      caps := LimitRaises(idleCaps + hotCaps, idle + hot, last, st);
    }

    method UpdateEwma(average: map<int, real>, st: DomainState) returns (e: map<int, real>)
      requires st.Valid()
      ensures e == SmoothAll(cfg.alpha, average, st.draws)
    {
      hide Smooth;
      e := average;
      for i := 0 to |st.gpus|
        invariant forall g :: g in e <==> g in average || g in st.gpus[..i]
        invariant forall g :: g in e ==>
          e[g] == if g in st.gpus[..i] then Smooth(cfg.alpha, st.draws[g], Get(average, g, st.draws[g])) else average[g]
      {
        var g := st.gpus[i];
        var draw := st.draws[g];
        assert g !in st.gpus[..i] && st.gpus[..i + 1] == st.gpus[..i] + [g];
        e := e[g := Smooth(cfg.alpha, draw, Get(e, g, draw))];
      }
      assert st.gpus[..|st.gpus|] == st.gpus;
      assert forall g :: g in e <==> g in average.Keys + st.draws.Keys;
      assert forall g :: g in e ==> e[g] == SmoothAll(cfg.alpha, average, st.draws)[g];
      assert e == SmoothAll(cfg.alpha, average, st.draws);
    }

    method Classify(e: map<int, real>, fallback: real, st: DomainState) returns (hot: seq<int>, idle: seq<int>)
      requires st.Valid() && forall g :: g in st.gpus ==> g in e
      ensures hot == Inside(st.gpus, HotSet(cfg.threshold, fallback, e, st))
      ensures idle == Outside(st.gpus, HotSet(cfg.threshold, fallback, e, st))
    {
      hide AtLeastFraction, HotSet, Inside, Outside, NoDup;
      ghost var hotSet := HotSet(cfg.threshold, fallback, e, st);
      assert Inside([], hotSet) == Outside([], hotSet) == [] by {
        SplitNothing(hotSet);
      }
      hot, idle := [], [];
      for i := 0 to |st.gpus|
        invariant hot == Inside(st.gpus[..i], hotSet) && idle == Outside(st.gpus[..i], hotSet)
      {
        var g := st.gpus[i];
        assert g in st.gpus && st.gpus[..i + 1] == st.gpus[..i] + [g];
        HotExactly(cfg.threshold, fallback, e, st, g);
        SplitGrows(st.gpus[..i], g, hotSet);
        var cap := Get(st.caps, g, fallback);
        if AtLeastFraction(e[g], cap, cfg.threshold) {
          hot := hot + [g];
        } else {
          idle := idle + [g];
        }
      }
      assert st.gpus[..|st.gpus|] == st.gpus;
    }

    method FloorIdle(e: map<int, real>, fallback: real, idle: seq<int>, st: DomainState) returns (caps: map<int, real>)
      requires forall g :: g in idle ==> g in e
      ensures caps == FloorAll(cfg, fallback, e, idle, st)
    {
      hide WithMargin;
      caps := map[];
      for i := 0 to |idle|
        invariant forall g :: g in caps <==> g in idle[..i]
        invariant forall g :: g in caps ==> caps[g] == IdleFloor(cfg, At(e, g), st.HwMax(g, fallback))
      {
        var g := idle[i];
        var hwMax := Get(st.maxCaps, g, Get(st.caps, g, fallback));
        var floor := Max(cfg.minCap, WithMargin(e[g], cfg.margin));
        caps := caps[g := Min(floor, hwMax)];
      }
      assert idle[..|idle|] == idle;
      assert forall g :: g in caps ==> caps[g] == FloorAll(cfg, fallback, e, idle, st)[g];
      assert caps == FloorAll(cfg, fallback, e, idle, st);
    }

    method SplitHot(e: map<int, real>, fallback: real, hot: seq<int>, hotBudget: real,
        st: DomainState) returns (caps: map<int, real>)
      requires forall g :: g in hot ==> g in e
      ensures caps == ClampAll(cfg, fallback, ShareAll(e, hot, hotBudget), st)
    {
      hide ProRata, EqualPart, Sum;
      caps := map[];
      var total := Sum(hot, e);
      ghost var shares := ShareAll(e, hot, hotBudget);
      for i := 0 to |hot|
        invariant forall g :: g in caps <==> g in hot[..i]
        invariant forall g :: g in caps ==> caps[g] == Max(cfg.minCap, Min(st.HwMax(g, fallback), shares[g]))
      {
        var g := hot[i];
        var hwMax := Get(st.maxCaps, g, Get(st.caps, g, fallback));
        var raw := if total > 0.0 then ProRata(e[g], hotBudget, total) else EqualPart(|hot|, hotBudget);
        caps := caps[g := Max(cfg.minCap, Min(hwMax, raw))];
      }
      assert hot[..|hot|] == hot;
      assert forall g :: g in caps ==> caps[g] == ClampAll(cfg, fallback, shares, st)[g];
      assert caps == ClampAll(cfg, fallback, shares, st);
    }

    method LimitRaises(targets: map<int, real>, order: seq<int>, last: map<int, real>,
        st: DomainState) returns (caps: map<int, real>)
      requires forall g :: g in order <==> g in targets
      ensures caps == LimitAll(cfg.raiseRate, last, st, targets)
    {
      caps := targets;
      if cfg.raiseRate > 0.0 {
        for i := 0 to |order|
          invariant caps.Keys == targets.Keys
          invariant forall g :: g in targets ==>
            caps[g] == if g in order[..i] then Limit(cfg.raiseRate, Previous(last, st, g), targets[g]) else targets[g]
        {
          var g := order[i];
          var target := targets[g];
          var previous := Previous(last, st, g);
          if previous.Some? && target > previous.value {
            caps := caps[g := Min(target, previous.value + cfg.raiseRate)];
          }
        }
      }
      assert caps == LimitAll(cfg.raiseRate, last, st, targets);
    }

    method Stranded(caps: map<int, real>, idle: seq<int>, st: DomainState) returns (watts: real)
      requires forall g :: g in idle ==> g in caps
      ensures watts == Sum(idle, Headroom(caps, st.draws))
    {
      watts := 0.0;
      for i := 0 to |idle|
        invariant watts == Sum(idle[..i], Headroom(caps, st.draws))
      {
        var g := idle[i];
        assert g in idle;
        watts := watts + (caps[g] - At(st.draws, g));
        assert idle[..i + 1][..i] == idle[..i];
      }
      assert idle[..|idle|] == idle;
    }

    /** Caps a wrapping brain really applied, so that the raise limiter compares with reality. */
    method NoteAppliedCaps(domain: string, caps: map<int, real>)
      modifies this
      ensures lastCaps == old(lastCaps)[domain := caps]
      ensures ewma == old(ewma) && lastMetrics == old(lastMetrics)
    {
      lastCaps := lastCaps[domain := caps];
    }

    /** Forget one domain, or all of them. */
    method ResetEwma(domain: Option<string>)
      modifies this
      ensures forall d :: Memory(d) == if domain == None || domain == Some(d) then PrsMemory(map[], map[]) else old(Memory(d))
      ensures lastMetrics == if domain == None then map[] else old(lastMetrics) - {domain.value}
    {
      match domain {
        case None =>
          ewma, lastCaps, lastMetrics := map[], map[], map[];
        case Some(d) =>
          ewma, lastCaps, lastMetrics := ewma - {d}, lastCaps - {d}, lastMetrics - {d};
      }
    }
  }
}
