/** The node controller: adopt a budget, read the GPUs, let the brain decide, push the caps, advance the simulation. */
module Controller {
  import opened Options
  import opened Sums
  import opened Tiers
  import opened PdnModel
  import opened Prs
  import opened Priority
  import opened Thermal
  import Coordinator
  import Sim

  // ----- Brains -----

  /** How the configured brain wraps PRS. */
  datatype Kind =
    | Plain
    | Tiered(tiers: map<int, Tier>, threshold: real, floor: real)
    | Cooled(derate: real, coolFloor: real)

  datatype Decision = Decision(caps: map<int, real>, memory: PrsMemory)

  function Decide(kind: Kind, t: Tick): Decision {
    match kind
    case Plain => Decision(t.Caps(), t.Next())
    case Tiered(tiers, threshold, floor) =>
      var caps := PriorityTick(t.Caps(), t.budget, threshold, floor, tiers, t.st).Caps();
      Decision(caps, PrsMemory(t.Ewma(), caps))
    case Cooled(derate, floor) =>
      var caps := ThermalTick(t.Caps(), derate, floor, t.st).Caps();
      Decision(caps, PrsMemory(t.Ewma(), caps))
  }

  datatype Brain =
    | PlainBrain(plain: PRSBrain)
    | TieredBrain(tiered: PriorityTieredPRSBrain)
    | CooledBrain(cooled: ThermalAwarePRSBrain)
  {
    function Inner(): PRSBrain {
      match this
      case PlainBrain(b) => b
      case TieredBrain(b) => b.prs
      case CooledBrain(b) => b.prs
    }

    function Footprint(): set<object> {
      match this
      case PlainBrain(b) => {b}
      case TieredBrain(b) => {b, b.prs}
      case CooledBrain(b) => {b, b.prs}
    }

    function Kind(): Kind
      reads Footprint()
    {
      match this
      case PlainBrain(_) => Plain
      case TieredBrain(b) => Tiered(b.tiers, b.threshold, b.minCap)
      case CooledBrain(b) => Cooled(b.derate, b.minCap)
    }

    ghost predicate On(topology: Topology) {
      && Inner().topology == topology && Inner().cfg.Valid()
      && (TieredBrain? ==> tiered.topology == topology)
      && (CooledBrain? ==> cooled.topology == topology)
    }

    method DecideFor(topology: Topology, domain: string, st: DomainState) returns (caps: map<int, real>)
      requires On(topology) && domain in topology.pdn.domains && st.Valid()
      modifies Inner()
      ensures var d := Decide(old(Kind()), old(Inner().TickOf(domain, st)));
              caps == d.caps && Inner().Memory(domain) == d.memory
      ensures forall d :: d != domain ==> Inner().Memory(d) == old(Inner().Memory(d))
    {
      hide Tick.Caps, Tick.Ewma, Tick.Metrics, PriorityTick.Caps, ThermalTick.Caps, PdnModel.Topology.DomainBudget;
      match this {
        case PlainBrain(b) => caps := b.Decide(domain, st);
        case TieredBrain(b) => caps := b.Decide(domain, st);
        case CooledBrain(b) => caps := b.Decide(domain, st);
      }
    }
  }

  // ----- Telemetry -----

  /** What Prometheus knows of a GPU; any reading may be missing. */
  datatype GpuSample = GpuSample(draw: Option<real>, limit: Option<real>, maxLimit: Option<real>, temperature: Option<real>)

  type Sample = map<int, GpuSample>

  /** The entries of the listed GPUs. */
  function Restrict(m: map<int, real>, gpus: seq<int>): (r: map<int, real>)
    ensures forall g :: g in r <==> g in gpus && g in m
  {
    map g | g in gpus && g in m :: m[g]
  }

  function DrawsOf(fleet: Sim.FleetView): map<int, real> {
    map g | g in fleet :: fleet[g].Draw()
  }

  function CapsOf(fleet: Sim.FleetView): map<int, real> {
    map g | g in fleet :: fleet[g].cap
  }

  /** The hardware maxima, or the fallback where the actuator cannot tell them. */
  function MaxCapsOf(fleet: Sim.FleetView, known: bool, fallback: real): map<int, real> {
    map g | g in fleet :: if known then fleet[g].maxCap else fallback
  }

  function FromActuator(
      gpus: seq<int>, fleet: Sim.FleetView, throttled: set<int>, knowsMaxima: bool, fallback: real): DomainState
  {
    DomainState(gpus, Restrict(DrawsOf(fleet), gpus), Restrict(CapsOf(fleet), gpus),
                Restrict(MaxCapsOf(fleet, knowsMaxima, fallback), gpus), set g | g in gpus && g in throttled)
  }

  function SampleDraws(sample: Sample): map<int, real> {
    map g | g in sample :: sample[g].draw.GetOr(0.0)
  }

  function SampleCaps(sample: Sample, fallback: real): map<int, real> {
    map g | g in sample :: sample[g].limit.GetOr(fallback)
  }

  function SampleMaxCaps(sample: Sample, fallback: real): map<int, real> {
    map g | g in sample :: sample[g].maxLimit.GetOr(fallback)
  }

  predicate Hot(sample: Sample, g: int, temperature: real) {
    g in sample && sample[g].temperature.Some? && sample[g].temperature.value >= temperature
  }

  /** GPUs missing from the sample are skipped; missing readings are replaced. */
  function FromSample(gpus: seq<int>, sample: Sample, fallback: real, throttled: set<int>, temperature: real): DomainState {
    DomainState(
      Inside(gpus, sample.Keys), Restrict(SampleDraws(sample), gpus), Restrict(SampleCaps(sample, fallback), gpus),
      Restrict(SampleMaxCaps(sample, fallback), gpus),
      set g | g in gpus && g in sample && (g in throttled || Hot(sample, g, temperature)))
  }

  // ----- One tick of a node -----

  datatype Setup = Setup(
    pdn: Pdn, managed: seq<string>, cfg: PrsConfig, throttled: set<int>, throttleTemperature: real, adoptedMin: real,
    dryRun: bool, simMode: bool, actuatorTelemetry: bool, knowsMaxima: bool, usesStore: bool)
  {
    /** The managed domains exist and list GPUs that the backend has. */
    ghost predicate Fits(fleet: set<int>) {
      && cfg.Valid()
      && forall d :: d in managed ==>
           d in pdn.domains && NoDup(pdn.domains[d].gpus) && forall g :: g in pdn.domains[d].gpus ==> g in fleet
    }

    predicate ReadsActuator() {
      simMode || actuatorTelemetry
    }
  }

  /** What the controller holds between two ticks, and the caps it has decided in this one. */
  datatype Node = Node(
    adopted: map<string, real>, memory: map<string, PrsMemory>, fleet: Sim.FleetView, decided: seq<map<int, real>>)

  /** An absent or implausibly small offer falls back to the topology. */
  function Adoption(adopted: map<string, real>, domain: string, offer: Option<real>, min: real): map<string, real> {
    if offer.Some? && offer.value >= min then adopted[domain := offer.value] else adopted - {domain}
  }

  function Observed(s: Setup, budget: real, gpus: seq<int>, fleet: Sim.FleetView, sample: Sample): DomainState {
    var fallback := Quotient(budget, |gpus|);
    if s.ReadsActuator() then FromActuator(gpus, fleet, s.throttled, s.knowsMaxima, fallback)
    else FromSample(gpus, sample, fallback, s.throttled, s.throttleTemperature)
  }

  lemma ObservedIsValid(s: Setup, budget: real, gpus: seq<int>, fleet: Sim.FleetView, sample: Sample)
    requires NoDup(gpus) && forall g :: g in gpus ==> g in fleet
    ensures Observed(s, budget, gpus, fleet, sample).Valid()
  {
    hide Sim.DrawAt, Quotient;
    assert forall g :: g in fleet ==> g in DrawsOf(fleet);
    assert forall g :: g in sample ==> g in SampleDraws(sample);
  }

  function Pushed(fleet: Sim.FleetView, gpus: seq<int>, caps: map<int, real>): Sim.FleetView {
    map g | g in fleet :: if g in gpus && g in caps then fleet[g].WithCap(caps[g]) else fleet[g]
  }

  function TickFor(s: Setup, n: Node, domain: string, sample: Sample): Tick
    requires domain in s.pdn.domains
  {
    var budget := s.pdn.DomainBudget(n.adopted, domain);
    Tick(s.cfg, budget, Get(n.memory, domain, PrsMemory(map[], map[])),
         Observed(s, budget, s.pdn.domains[domain].gpus, n.fleet, sample))
  }

  function WithOffer(s: Setup, n: Node, domain: string, offer: Option<real>): Node {
    if s.usesStore then n.(adopted := Adoption(n.adopted, domain, offer, s.adoptedMin)) else n
  }

  function TickDomain(s: Setup, kind: Kind, n: Node, domain: string, offer: Option<real>, sample: Sample): Node
    requires domain in s.pdn.domains
  {
    var n := WithOffer(s, n, domain, offer);
    var d := Decide(kind, TickFor(s, n, domain, sample));
    n.(memory := n.memory[domain := d.memory], decided := n.decided + [d.caps],
       fleet := if s.dryRun then n.fleet else Pushed(n.fleet, s.pdn.domains[domain].gpus, d.caps))
  }

  /** What reaches the node from outside in one tick: budgets offered to its domains, Prometheus readings, and the
      simulator's next utilisation samples. A store that cannot be read offers nothing. */
  datatype World = World(offers: map<string, real>, sample: Sample, utilisation: map<int, real>) {
    function Offer(domain: string): Option<real> {
      if domain in offers then Some(offers[domain]) else None
    }
  }

  /** The first `k` managed domains, one after the other. */
  function TickDomains(s: Setup, kind: Kind, w: World, n: Node, k: nat): (r: Node)
    requires s.Fits(n.fleet.Keys) && k <= |s.managed|
    ensures r.fleet.Keys == n.fleet.Keys
  {
    if k == 0 then n
    else
      var before := TickDomains(s, kind, w, n, k - 1);
      TickDomain(s, kind, before, s.managed[k - 1], w.Offer(s.managed[k - 1]), w.sample)
  }

  function RunTick(s: Setup, kind: Kind, w: World, n: Node): (r: Node)
    requires s.Fits(n.fleet.Keys)
    ensures r.fleet.Keys == n.fleet.Keys
  {
    var after := TickDomains(s, kind, w, n.(decided := []), |s.managed|);
    if s.simMode then after.(fleet := Sim.Resampled(after.fleet, w.utilisation)) else after
  }

  lemma RestrictOne(m: map<int, real>, gpus: seq<int>, g: int)
    ensures Restrict(m, gpus + [g]) == if g in m then Restrict(m, gpus)[g := m[g]] else Restrict(m, gpus)
  {
  }

  lemma NotBefore(gpus: seq<int>, i: nat)
    requires NoDup(gpus) && i < |gpus|
    ensures gpus[i] !in gpus[..i]
  {
  }

  lemma PushNothing(fleet: Sim.FleetView, caps: map<int, real>)
    ensures Pushed(fleet, [], caps) == fleet
  {
  }

  lemma PushOne(fleet: Sim.FleetView, gpus: seq<int>, g: int, caps: map<int, real>)
    requires g in fleet && g !in gpus
    ensures g in Pushed(fleet, gpus, caps) && Pushed(fleet, gpus, caps)[g] == fleet[g]
    ensures Pushed(fleet, gpus + [g], caps) ==
            if g in caps then Pushed(fleet, gpus, caps)[g := fleet[g].WithCap(caps[g])] else Pushed(fleet, gpus, caps)
  {
    hide Sim.Enforced;
  }

  class StandaloneController {
    const setup: Setup
    const topology: Topology
    const brain: Brain
    const backend: Sim.SimBackend
    const store: Coordinator.InMemoryStore
    const nodeId: string

    constructor (setup: Setup, topology: Topology, brain: Brain, backend: Sim.SimBackend,
                 store: Coordinator.InMemoryStore, nodeId: string)
      requires brain.On(topology) && topology.pdn == setup.pdn && brain.Inner().cfg == setup.cfg
      requires backend.Valid() && setup.Fits(backend.gpus.Keys)
      ensures this.setup == setup && this.topology == topology && this.brain == brain
      ensures this.backend == backend && this.store == store && this.nodeId == nodeId && Valid()
    {
      this.setup, this.topology, this.brain, this.backend, this.store, this.nodeId :=
        setup, topology, brain, backend, store, nodeId;
    }

    ghost predicate Valid() {
      && brain.On(topology) && topology.pdn == setup.pdn && brain.Inner().cfg == setup.cfg
      && backend.Valid() && setup.Fits(backend.gpus.Keys)
    }

    ghost function Contents(decided: seq<map<int, real>>): (n: Node)
      reads topology, brain.Inner(), backend.gpus.Values
      ensures n.fleet == backend.View() && n.decided == decided
    {
      Node(topology.adopted, map d | d in setup.managed :: brain.Inner().Memory(d), backend.View(), decided)
    }

    /** What the store offers this node's domains; reading it fails for some of them. */
    ghost function WorldOf(unreadable: set<string>, sample: Sample, utilisation: map<int, real>): World
      reads store
    {
      World(map d | d in setup.managed && d !in unreadable && (nodeId, d) in store.adopted :: store.adopted[(nodeId, d)],
            sample, utilisation)
    }

    method RunOnce(unreadable: set<string>, sample: Sample, utilisation: map<int, real>)
        returns (decisions: seq<map<int, real>>)
      requires Valid()
      modifies topology, brain.Inner(), backend.gpus.Values
      ensures Contents(decisions) ==
              RunTick(setup, old(brain.Kind()), old(WorldOf(unreadable, sample, utilisation)), old(Contents([])))
    {
      hide Decide, TickFor, PrsConfig.Valid, Sim.Resampled, TickDomain, StandaloneController.WorldOf, Brain.On, World.Offer;
      ghost var kind, world, start := brain.Kind(), WorldOf(unreadable, sample, utilisation), Contents([]);
      decisions := [];
      for k := 0 to |setup.managed|
        invariant brain.Kind() == kind && WorldOf(unreadable, sample, utilisation) == world
        invariant Contents(decisions) == TickDomains(setup, kind, world, start, k)
      {
        var caps := ControlDomain(setup.managed[k], unreadable, sample, utilisation, decisions);
        decisions := decisions + [caps];
      }
      if setup.simMode {
        AdvanceSimulation(utilisation, decisions);
      }
      WorldCarries(unreadable, sample, utilisation);
    }

    lemma WorldCarries(unreadable: set<string>, sample: Sample, utilisation: map<int, real>)
      ensures WorldOf(unreadable, sample, utilisation).sample == sample
      ensures WorldOf(unreadable, sample, utilisation).utilisation == utilisation
    {
    }

    method AdvanceSimulation(utilisation: map<int, real>, ghost decided: seq<map<int, real>>)
      requires Valid()
      modifies backend.gpus.Values
      ensures Contents(decided) == old(Contents(decided)).(fleet := Sim.Resampled(old(backend.View()), utilisation))
    {
      hide Brain.On, Sim.Resampled, PRSBrain.Memory;
      backend.Tick(utilisation);
    }

    method ControlDomain(domain: string, unreadable: set<string>, sample: Sample,
                         ghost utilisation: map<int, real>, ghost decided: seq<map<int, real>>) returns (caps: map<int, real>)
      requires Valid() && domain in setup.managed
      modifies topology, brain.Inner(), backend.gpus.Values
      ensures Contents(decided + [caps]) ==
              TickDomain(setup, old(brain.Kind()), old(Contents(decided)), domain,
                         old(WorldOf(unreadable, sample, utilisation)).Offer(domain),
                         old(WorldOf(unreadable, sample, utilisation)).sample)
      ensures brain.Kind() == old(brain.Kind())
    {
      hide Decide, TickFor, WithOffer, Pushed, StandaloneController.Contents, StandaloneController.WorldOf, Brain.On;
      hide World.Offer;
      WorldCarries(unreadable, sample, utilisation);
      AdoptOffer(domain, unreadable, sample, utilisation, decided);
      var st := Observe(domain, sample, decided);
      caps := DecideFor(domain, st, sample, decided);
      if !setup.dryRun {
        PushCaps(setup.pdn.domains[domain].gpus, caps, decided + [caps]);
      }
    }

    /** A store that cannot be read counts as one without an offer. */
    method AdoptOffer(domain: string, unreadable: set<string>, ghost sample: Sample,
                      ghost utilisation: map<int, real>, ghost decided: seq<map<int, real>>)
      requires Valid() && domain in setup.managed
      modifies topology
      ensures Contents(decided) ==
              WithOffer(setup, old(Contents(decided)), domain, WorldOf(unreadable, sample, utilisation).Offer(domain))
    {
      hide Brain.On, PRSBrain.Memory;
      if setup.usesStore {
        var offer := if domain in unreadable then None else store.GetAdoptedBudget(nodeId, domain);
        assert offer == WorldOf(unreadable, sample, utilisation).Offer(domain);
        if offer.Some? && offer.value >= setup.adoptedMin {
          topology.AdoptBudget(domain, offer.value);
        } else {
          topology.ReleaseBudget(domain);
        }
      }
    }

    method DecideFor(domain: string, st: DomainState, ghost sample: Sample, ghost decided: seq<map<int, real>>)
        returns (caps: map<int, real>)
      requires Valid() && domain in setup.managed
      requires st == TickFor(setup, Contents(decided), domain, sample).st && st.Valid()
      modifies brain.Inner()
      ensures var before := old(Contents(decided));
              var d := Decide(old(brain.Kind()), TickFor(setup, before, domain, sample));
              && caps == d.caps
              && Contents(decided + [caps]) ==
                 before.(memory := before.memory[domain := d.memory], decided := decided + [caps])
      ensures brain.Kind() == old(brain.Kind())
    {
      hide Decide, Observed, PrsConfig.Valid, PRSBrain.Memory;
      ghost var before := Contents(decided);
      assert brain.Inner().TickOf(domain, st) == TickFor(setup, before, domain, sample);
      caps := brain.DecideFor(topology, domain, st);
      assert Contents(decided + [caps]).memory
          == before.memory[domain := Decide(old(brain.Kind()), TickFor(setup, before, domain, sample)).memory];
    }

    method Observe(domain: string, sample: Sample, ghost decided: seq<map<int, real>>) returns (st: DomainState)
      requires Valid() && domain in setup.managed
      ensures st == TickFor(setup, Contents(decided), domain, sample).st && st.Valid()
    {
      hide FromActuator, FromSample, Brain.On, PRSBrain.Memory, Quotient;
      var gpus := setup.pdn.domains[domain].gpus;
      ObservedIsValid(setup, topology.DomainBudget(domain), gpus, backend.View(), sample);
      var fallback := Quotient(topology.DomainBudget(domain), |gpus|);
      if setup.ReadsActuator() {
        st := ReadActuator(gpus, fallback);
      } else {
        st := ReadSample(gpus, sample, fallback);
      }
    }

    method ReadActuator(gpus: seq<int>, fallback: real) returns (st: DomainState)
      requires forall g :: g in gpus ==> g in backend.gpus
      ensures st == FromActuator(gpus, backend.View(), setup.throttled, setup.knowsMaxima, fallback)
    {
      hide Restrict, Sim.DrawAt;
      var draws: map<int, real>, caps: map<int, real>, maxCaps: map<int, real> := map[], map[], map[];
      ghost var fleet := backend.View();
      ghost var allDraws, allCaps, allMaxCaps := DrawsOf(fleet), CapsOf(fleet), MaxCapsOf(fleet, setup.knowsMaxima, fallback);
      RestrictNothing(allDraws);
      RestrictNothing(allCaps);
      RestrictNothing(allMaxCaps);
      for i := 0 to |gpus|
        invariant draws == Restrict(allDraws, gpus[..i])
        invariant caps == Restrict(allCaps, gpus[..i])
        invariant maxCaps == Restrict(allMaxCaps, gpus[..i])
      {
        var g := gpus[i];
        assert g in gpus && gpus[..i + 1] == gpus[..i] + [g];
        RestrictOne(allDraws, gpus[..i], g);
        RestrictOne(allCaps, gpus[..i], g);
        RestrictOne(allMaxCaps, gpus[..i], g);
        var draw := backend.PowerDraw(g);
        var cap := backend.PowerCap(g);
        var maxCap := fallback;
        if setup.knowsMaxima {
          maxCap := backend.MaxCap(g);
        }
        draws, caps, maxCaps := draws[g := draw], caps[g := cap], maxCaps[g := maxCap];
      }
      assert gpus[..|gpus|] == gpus;
      st := DomainState(gpus, draws, caps, maxCaps, set g | g in gpus && g in setup.throttled);
    }

    method ReadSample(gpus: seq<int>, sample: Sample, fallback: real) returns (st: DomainState)
      ensures st == FromSample(gpus, sample, fallback, setup.throttled, setup.throttleTemperature)
    {
      hide Restrict, Hot;
      var found: seq<int>, draws: map<int, real>, caps: map<int, real>, maxCaps: map<int, real> := [], map[], map[], map[];
      ghost var allDraws, allCaps, allMaxCaps :=
        SampleDraws(sample), SampleCaps(sample, fallback), SampleMaxCaps(sample, fallback);
      RestrictNothing(allDraws);
      RestrictNothing(allCaps);
      RestrictNothing(allMaxCaps);
      for i := 0 to |gpus|
        invariant found == Inside(gpus[..i], sample.Keys)
        invariant draws == Restrict(allDraws, gpus[..i])
        invariant caps == Restrict(allCaps, gpus[..i])
        invariant maxCaps == Restrict(allMaxCaps, gpus[..i])
      {
        var g := gpus[i];
        assert gpus[..i + 1] == gpus[..i] + [g] && gpus[..i + 1][..i] == gpus[..i];
        RestrictOne(allDraws, gpus[..i], g);
        RestrictOne(allCaps, gpus[..i], g);
        RestrictOne(allMaxCaps, gpus[..i], g);
        if g !in sample {
          continue;
        }
        found := found + [g];
        draws := draws[g := sample[g].draw.GetOr(0.0)];
        caps := caps[g := sample[g].limit.GetOr(fallback)];
        maxCaps := maxCaps[g := sample[g].maxLimit.GetOr(fallback)];
      }
      assert gpus[..|gpus|] == gpus;
      st := DomainState(found, draws, caps, maxCaps,
        set g | g in gpus && g in sample && (g in setup.throttled || Hot(sample, g, setup.throttleTemperature)));
    }

    method PushCaps(gpus: seq<int>, caps: map<int, real>, ghost decided: seq<map<int, real>>)
      requires Valid() && NoDup(gpus) && forall g :: g in gpus ==> g in backend.gpus
      modifies backend.gpus.Values
      ensures Contents(decided) == old(Contents(decided)).(fleet := Pushed(old(backend.View()), gpus, caps))
    {
      hide Pushed, NoDup, Brain.On, PRSBrain.Memory;
      ghost var fleet := backend.View();
      PushNothing(fleet, caps);
      for i := 0 to |gpus|
        invariant backend.View() == Pushed(fleet, gpus[..i], caps)
      {
        var g := gpus[i];
        NotBefore(gpus, i);
        assert g in gpus && gpus[..i + 1] == gpus[..i] + [g];
        PushOne(fleet, gpus[..i], g, caps);
        if g in caps {
          backend.SetPowerCap(g, caps[g]);
        }
      }
      assert gpus[..|gpus|] == gpus;
    }
  }

  lemma RestrictNothing(m: map<int, real>)
    ensures Restrict(m, []) == map[]
  {
  }
}
