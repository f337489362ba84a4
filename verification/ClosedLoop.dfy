/** A throttled GPU over many control ticks of one node: the controller, the thermal brain and the hardware in a loop. */
module ClosedLoop {
  import opened Options
  import opened Sums
  import opened PdnModel
  import opened Prs
  import opened Thermal
  import opened Controller
  import opened BrainBudgets
  import opened Telemetry
  import Cascade
  import PrsBudget
  import PrsCaps
  import Sim
  import ThermalCaps

  /** One round: what reaches the node, and what utilisation does on its own before the node reads it. */
  datatype Round = Round(world: World, drift: map<int, real>)

  /** Control ticks of one node: each finds the hardware as the one before left it. */
  function Loop(setup: Setup, kind: Kind, n: Node, rounds: seq<Round>): (r: Node)
    requires setup.Fits(n.fleet.Keys)
    ensures r.fleet.Keys == n.fleet.Keys
  {
    if rounds == [] then n
    else
      var before, last := Loop(setup, kind, n, rounds[..|rounds| - 1]), rounds[|rounds| - 1];
      RunTick(setup, kind, last.world, before.(fleet := Sim.Resampled(before.fleet, last.drift)))
  }

  // ----- What the controller knows of one GPU -----

  predicate Sees(s: Setup, sample: Sample, g: int) {
    s.ReadsActuator() || g in sample
  }

  /** Configured as throttled, or too hot in the sample. */
  predicate Throttled(s: Setup, sample: Sample, g: int) {
    g in s.throttled || (!s.ReadsActuator() && Hot(sample, g, s.throttleTemperature))
  }

  /** A sample that has the GPU gives its cap, and gives no more than `held`. An actuator always does. */
  predicate NotOverread(s: Setup, sample: Sample, g: int, held: real) {
    !s.ReadsActuator() && g in sample ==> sample[g].limit.Some? && 0.0 <= sample[g].limit.value <= held
  }

  lemma ThrottledIsSeen(s: Setup, n: Node, domain: string, sample: Sample, g: int, start: real)
    requires s.Fits(n.fleet.Keys) && domain in s.managed && g in s.pdn.domains[domain].gpus
    requires Throttled(s, sample, g) && Sees(s, sample, g)
    requires NotOverread(s, sample, g, start) && 0.0 <= n.fleet[g].cap <= start
    ensures var t := TickFor(s, n, domain, sample);
            && t.Valid() && g in t.st.gpus && g in t.st.throttled
            && g in t.st.caps && 0.0 <= t.st.caps[g] <= start
  {
    hide Sim.DrawAt, Pdn.DomainBudget, Quotient, Hot;
    var budget := s.pdn.DomainBudget(n.adopted, domain);
    ObservedIsValid(s, budget, s.pdn.domains[domain].gpus, n.fleet, sample);
  }

  lemma UnseenIsNotDecided(s: Setup, kind: Kind, n: Node, domain: string, sample: Sample, g: int)
    requires s.Fits(n.fleet.Keys) && domain in s.managed && !Sees(s, sample, g)
    ensures g !in Decide(kind, TickFor(s, n, domain, sample)).caps
  {
    hide Sim.DrawAt, Pdn.DomainBudget, Quotient, Hot, Decide;
    var budget := s.pdn.DomainBudget(n.adopted, domain);
    ObservedIsValid(s, budget, s.pdn.domains[domain].gpus, n.fleet, sample);
    DecisionCovers(kind, TickFor(s, n, domain, sample), g);
  }

  /** What the hardware makes of the decision about a throttled GPU. */
  lemma ThrottledDecision(derate: real, floor: real, t: Tick, g: int, maxCap: real, start: real)
    requires t.Valid() && g in t.st.gpus && g in t.st.throttled && g in t.st.caps && 0.0 <= t.st.caps[g] <= start
    requires 0.0 <= derate < 1.0 && maxCap >= 0.0
    ensures var caps := Decide(Cooled(derate, floor), t).caps;
            && g in caps && 0.0 <= Sim.Enforced(caps[g], maxCap) <= start
            && Sim.Enforced(caps[g], maxCap) <= Max(0.0, Max(floor, Derated(start, derate)))
  {
    hide Derated, Sim.Enforced, ThermalTick.Caps, Tick.Caps, Tick.Ewma;
    var thermal := HeatTick(Cooled(derate, floor), t);
    PrsBudget.CapsCoverTelemetry(t);
    ThrottledDrops(thermal, g);
    ThrottledStep(thermal, g, maxCap);
    DeratedMonotone(t.st.caps[g], start, derate);
    Cascade.EnforcedPhysical(At(thermal.Caps(), g), maxCap);
  }

  // ----- One tick -----

  /** From a cap of at most `start`: it stays there, and a GPU that is decided upon is backed off from `start`. */
  ghost predicate BackedOff(start: real, maxCap: real, after: Sim.GpuView, derate: real, floor: real, derated: bool) {
    && after.maxCap == maxCap && 0.0 <= after.cap <= start
    && (derated ==> after.cap <= Max(0.0, Max(floor, Derated(start, derate))))
  }

  lemma ThrottledTick(
      s: Setup, derate: real, floor: real, n: Node, domain: string, offer: Option<real>, sample: Sample, g: int, start: real,
      derated: bool)
    requires s.Fits(n.fleet.Keys) && domain in s.managed && g in n.fleet
    requires Throttled(s, sample, g) && NotOverread(s, sample, g, start)
    requires 0.0 <= derate < 1.0 && n.fleet[g].maxCap >= 0.0
    requires BackedOff(start, n.fleet[g].maxCap, n.fleet[g], derate, floor, derated)
    ensures BackedOff(start, n.fleet[g].maxCap, TickDomain(s, Cooled(derate, floor), n, domain, offer, sample).fleet[g],
                      derate, floor,
                      derated || (!s.dryRun && Sees(s, sample, g) && g in s.pdn.domains[domain].gpus))
  {
    hide Derated, Sim.Enforced, Decide, TickFor, Adoption, PrsConfig.Valid, Throttled, NotOverread;
    var asked := WithOffer(s, n, domain, offer);
    if g in s.pdn.domains[domain].gpus {
      if Sees(s, sample, g) {
        ThrottledIsSeen(s, asked, domain, sample, g, start);
        ThrottledDecision(derate, floor, TickFor(s, asked, domain, sample), g, n.fleet[g].maxCap, start);
      } else {
        UnseenIsNotDecided(s, Cooled(derate, floor), asked, domain, sample, g);
      }
    }
  }

  lemma {:induction false} ThrottledDomains(s: Setup, derate: real, floor: real, w: World, n: Node, k: nat, g: int)
    requires s.Fits(n.fleet.Keys) && k <= |s.managed| && g in n.fleet
    requires Throttled(s, w.sample, g) && NotOverread(s, w.sample, g, n.fleet[g].cap)
    requires 0.0 <= derate < 1.0 && n.fleet[g].cap >= 0.0 && n.fleet[g].maxCap >= 0.0
    ensures BackedOff(n.fleet[g].cap, n.fleet[g].maxCap, TickDomains(s, Cooled(derate, floor), w, n, k).fleet[g],
                      derate, floor, !s.dryRun && Sees(s, w.sample, g) && Managed(s, g, k))
  {
    hide TickDomain, Derated, Throttled, NotOverread, Sees, World.Offer;
    if k == 0 {
    } else {
      ThrottledDomains(s, derate, floor, w, n, k - 1, g);
      var before := TickDomains(s, Cooled(derate, floor), w, n, k - 1);
      ThrottledTick(s, derate, floor, before, s.managed[k - 1], w.Offer(s.managed[k - 1]), w.sample, g, n.fleet[g].cap,
                    !s.dryRun && Sees(s, w.sample, g) && Managed(s, g, k - 1));
    }
  }

  // ----- Many ticks -----

  /** The GPU is throttled in every round, and no sample reads its cap too high. */
  ghost predicate ThrottledThroughout(setup: Setup, kind: Kind, n: Node, rounds: seq<Round>, g: int)
    requires setup.Fits(n.fleet.Keys) && g in n.fleet
  {
    forall i :: 0 <= i < |rounds| ==>
      && Throttled(setup, rounds[i].world.sample, g)
      && NotOverread(setup, rounds[i].world.sample, g, Loop(setup, kind, n, rounds[..i]).fleet[g].cap)
  }

  /** The rounds in which the controller sees the GPU. */
  ghost function Seen(setup: Setup, rounds: seq<Round>, g: int): nat {
    if rounds == [] then 0
    else Seen(setup, rounds[..|rounds| - 1], g) + if Sees(setup, rounds[|rounds| - 1].world.sample, g) then 1 else 0
  }

  lemma PrefixThrottled(setup: Setup, kind: Kind, n: Node, rounds: seq<Round>, g: int)
    requires setup.Fits(n.fleet.Keys) && g in n.fleet && rounds != []
    requires ThrottledThroughout(setup, kind, n, rounds, g)
    ensures ThrottledThroughout(setup, kind, n, rounds[..|rounds| - 1], g)
  {
    hide Throttled, NotOverread, Loop;
    var init := rounds[..|rounds| - 1];
    forall i | 0 <= i < |init|
      ensures Throttled(setup, init[i].world.sample, g)
      ensures NotOverread(setup, init[i].world.sample, g, Loop(setup, kind, n, init[..i]).fleet[g].cap)
    {
      assert init[..i] == rounds[..i] && init[i] == rounds[i];
    }
  }

  /**
   * Under the thermal brain, a GPU that stays throttled never sees its enforced cap rise, and in a controller that pushes
   * its caps it decays geometrically to the floor with every round that sees it: with any domains managed, any budgets
   * offered, either telemetry, and whatever the other GPUs do.
   */
  lemma {:induction false} ThrottledInClosedLoop(
      setup: Setup, derate: real, floor: real, n: Node, rounds: seq<Round>, g: int)
    requires setup.Fits(n.fleet.Keys) && g in n.fleet
    requires 0.0 <= derate < 1.0 && floor >= 0.0 && n.fleet[g].cap >= 0.0 && n.fleet[g].maxCap >= 0.0
    requires ThrottledThroughout(setup, Cooled(derate, floor), n, rounds, g)
    ensures var after := Loop(setup, Cooled(derate, floor), n, rounds).fleet[g];
            && after.maxCap == n.fleet[g].maxCap && 0.0 <= after.cap <= n.fleet[g].cap
            && (!setup.dryRun && Managed(setup, g, |setup.managed|) ==>
                  after.cap <= Max(floor, Decayed(derate, Seen(setup, rounds, g), n.fleet[g].cap)))
            && (rounds != [] ==>
                  after.cap <= Loop(setup, Cooled(derate, floor), n, rounds[..|rounds| - 1]).fleet[g].cap)
  {
    hide Decayed, Derated, TickDomains, Managed, PrsConfig.Valid, Throttled, NotOverread, Sees;
    var start := n.fleet[g].cap;
    if rounds == [] {
      DecaySteps(derate, 0, start);
    } else {
      var init, last := rounds[..|rounds| - 1], rounds[|rounds| - 1];
      PrefixThrottled(setup, Cooled(derate, floor), n, rounds, g);
      ThrottledInClosedLoop(setup, derate, floor, n, init, g);
      var before := Loop(setup, Cooled(derate, floor), n, init);
      var found := before.(fleet := Sim.Resampled(before.fleet, last.drift), decided := []);
      assert found.fleet.Keys == before.fleet.Keys == n.fleet.Keys;
      assert found.fleet[g].cap == before.fleet[g].cap;
      ThrottledDomains(setup, derate, floor, last.world, found, |setup.managed|, g);
      var held, after := before.fleet[g].cap, Loop(setup, Cooled(derate, floor), n, rounds).fleet[g].cap;
      if !setup.dryRun && Managed(setup, g, |setup.managed|) && Sees(setup, last.world.sample, g) {
        DecayContinues(derate, Seen(setup, init, g), start, held, after, floor);
      }
    }
  }

  // ----- The floor over many ticks -----

  /** Plain PRS, or a thermal brain that backs off to this floor or a higher one. */
  ghost predicate Respects(kind: Kind, floor: real) {
    kind.Plain? || (kind.Cooled? && 0.0 <= kind.derate < 1.0 && kind.coolFloor >= floor)
  }

  /** Whoever tells of the GPU knows its cap and its hardware maximum, and reads neither below the floor. */
  ghost predicate ReadsAbove(s: Setup, sample: Sample, g: int, floor: real) {
    && (s.ReadsActuator() ==> s.knowsMaxima)
    && (!s.ReadsActuator() && g in sample ==>
          && sample[g].limit.Some? && sample[g].limit.value >= floor
          && sample[g].maxLimit.Some? && sample[g].maxLimit.value >= floor)
  }

  /** The GPU holds the floor, its hardware allows it, and no brain remembers less. */
  ghost predicate HoldsFloor(n: Node, g: int, floor: real)
    requires g in n.fleet
  {
    && n.fleet[g].cap >= floor && n.fleet[g].maxCap >= floor
    && forall d :: d in n.memory ==> RemembersFloor(n.memory[d], g, floor)
  }

  ghost predicate RemembersFloor(mem: PrsMemory, g: int, floor: real) {
    g in mem.lastCaps ==> mem.lastCaps[g] >= floor
  }

  lemma ToldAboveFloor(s: Setup, n: Node, domain: string, sample: Sample, g: int, floor: real)
    requires s.Fits(n.fleet.Keys) && domain in s.managed && g in n.fleet
    requires ReadsAbove(s, sample, g, floor) && HoldsFloor(n, g, floor)
    ensures var t := TickFor(s, n, domain, sample);
            && t.Valid() && RemembersFloor(t.mem, g, floor)
            && (g in t.st.gpus ==>
                  && g in s.pdn.domains[domain].gpus
                  && g in t.st.caps && t.st.caps[g] >= floor && g in t.st.maxCaps && t.st.maxCaps[g] >= floor)
  {
    hide TickFor, EqualShare;
    TellsOfSeen(s, n, domain, sample);
    TickIsValid(s, n, domain, sample);
    if g in TickFor(s, n, domain, sample).st.gpus {
      if s.ReadsActuator() {
        ActuatorReads(s, n, domain, sample, g);
      } else {
        SampleReads(s, n, domain, sample, g);
      }
    }
  }

  lemma TickIsValid(s: Setup, n: Node, domain: string, sample: Sample)
    requires s.Fits(n.fleet.Keys) && domain in s.managed
    ensures TickFor(s, n, domain, sample).Valid() && TickFor(s, n, domain, sample).cfg == s.cfg
    ensures TickFor(s, n, domain, sample).mem == Get(n.memory, domain, PrsMemory(map[], map[]))
  {
    hide Sim.DrawAt, Pdn.DomainBudget, Quotient;
    ObservedIsValid(s, s.pdn.DomainBudget(n.adopted, domain), s.pdn.domains[domain].gpus, n.fleet, sample);
  }

  lemma PrsKeepsFloor(t: Tick, g: int, floor: real)
    requires t.Valid() && g in t.st.gpus && floor <= t.cfg.minCap && RemembersFloor(t.mem, g, floor)
    requires g in t.st.caps && t.st.caps[g] >= floor && g in t.st.maxCaps && t.st.maxCaps[g] >= floor
    ensures g in t.Caps() && t.Caps()[g] >= floor
  {
    hide Tick.Targets, Tick.Caps, Tick.Hot, Tick.Idle, Tick.Ewma, PrsCaps.LeftForHot, Sum, EqualPart, ProRata, Min;
    PrsCaps.LimitedExactly(t, g);
    PrsCaps.HotExactly(t, g);
    if g in t.Hot() {
      PrsCaps.TargetOfHot(t, g);
    } else {
      PrsCaps.IdleTarget(t, g);
    }
  }

  lemma DecisionKeepsFloor(kind: Kind, t: Tick, g: int, floor: real)
    requires t.Valid() && Respects(kind, floor) && floor <= t.cfg.minCap && RemembersFloor(t.mem, g, floor)
    requires g in t.st.gpus ==> g in t.st.caps && t.st.caps[g] >= floor && g in t.st.maxCaps && t.st.maxCaps[g] >= floor
    ensures var d := Decide(kind, t);
            (g in d.caps <==> g in t.st.gpus) && (g in d.caps ==> d.caps[g] >= floor) && RemembersFloor(d.memory, g, floor)
  {
    hide Tick.Caps, Tick.Ewma, ThermalTick.Caps;
    DecisionCovers(kind, t, g);
    PrsBudget.CapsCoverTelemetry(t);
    if g in t.st.gpus {
      PrsKeepsFloor(t, g, floor);
      if kind.Cooled? {
        ThermalCaps.FloorIsKept(HeatTick(kind, t), g, floor);
      }
    }
  }

  lemma TickKeepsFloor(s: Setup, kind: Kind, n: Node, domain: string, offer: Option<real>, sample: Sample, g: int, floor: real)
    requires s.Fits(n.fleet.Keys) && domain in s.managed && g in n.fleet && Respects(kind, floor) && floor <= s.cfg.minCap
    requires ReadsAbove(s, sample, g, floor) && HoldsFloor(n, g, floor)
    ensures HoldsFloor(TickDomain(s, kind, n, domain, offer, sample), g, floor)
  {
    hide Decide, TickFor, Adoption, PrsConfig.Valid, ReadsAbove, Respects, RemembersFloor;
    var asked := WithOffer(s, n, domain, offer);
    ToldAboveFloor(s, asked, domain, sample, g, floor);
    TickIsValid(s, asked, domain, sample);
    DecisionKeepsFloor(kind, TickFor(s, asked, domain, sample), g, floor);
  }

  lemma {:induction false} DomainsKeepFloor(s: Setup, kind: Kind, w: World, n: Node, k: nat, g: int, floor: real)
    requires s.Fits(n.fleet.Keys) && k <= |s.managed| && g in n.fleet && Respects(kind, floor) && floor <= s.cfg.minCap
    requires ReadsAbove(s, w.sample, g, floor) && HoldsFloor(n, g, floor)
    ensures HoldsFloor(TickDomains(s, kind, w, n, k), g, floor)
  {
    hide TickDomain, ReadsAbove, Respects, World.Offer, HoldsFloor;
    if k == 0 {
    } else {
      DomainsKeepFloor(s, kind, w, n, k - 1, g, floor);
      TickKeepsFloor(s, kind, TickDomains(s, kind, w, n, k - 1), s.managed[k - 1], w.Offer(s.managed[k - 1]), w.sample, g, floor);
    }
  }

  /**
   * The counterpart from below: under plain PRS or the thermal brain, a GPU that starts at the floor or above, throttled or
   * not, never falls below it, with any domains managed, any budgets offered, and whatever the other GPUs do.
   */
  lemma {:induction false} FloorInClosedLoop(setup: Setup, kind: Kind, n: Node, rounds: seq<Round>, g: int, floor: real)
    requires setup.Fits(n.fleet.Keys) && g in n.fleet && Respects(kind, floor) && floor <= setup.cfg.minCap
    requires HoldsFloor(n, g, floor) && forall i :: 0 <= i < |rounds| ==> ReadsAbove(setup, rounds[i].world.sample, g, floor)
    ensures HoldsFloor(Loop(setup, kind, n, rounds), g, floor)
  {
    hide TickDomains, ReadsAbove, Respects, PrsConfig.Valid, RemembersFloor;
    if rounds == [] {
    } else {
      var init, last := rounds[..|rounds| - 1], rounds[|rounds| - 1];
      FloorInClosedLoop(setup, kind, n, init, g, floor);
      var before := Loop(setup, kind, n, init);
      var found := before.(fleet := Sim.Resampled(before.fleet, last.drift), decided := []);
      assert found.fleet[g].cap == before.fleet[g].cap && found.fleet[g].maxCap == before.fleet[g].maxCap;
      DomainsKeepFloor(setup, kind, last.world, found, |setup.managed|, g, floor);
    }
  }
}
