/** Priority preemption: between GPUs drawing near their caps, the surplus over a common floor is split
    by draw times tier weight. */
module Priority {
  import opened Options
  import opened Sums
  import opened Tiers
  import opened PdnModel
  import opened Prs
  import PrsBudget

  function Demand(draw: real, weight: real): real {
    draw * weight
  }

  function Demands(contended: seq<int>, st: DomainState, tiers: map<int, Tier>): map<int, real> {
    map g | g in contended :: Demand(At(st.draws, g), Weight(Get(tiers, g, Normal)))
  }

  /** The contended GPUs' parts of the surplus. */
  function Surpluses(contended: seq<int>, demands: map<int, real>, surplus: real): map<int, real> {
    var sum := Sum(contended, demands);
    var total := if sum == 0.0 then 1.0 else sum;
    map g | g in contended :: ProRata(At(demands, g), surplus, total)
  }

  /** Floor plus part of the surplus for the contended GPUs, up to the hardware maximum; PRS caps for the rest. */
  function LiftAll(prs: map<int, real>, contended: seq<int>, parts: map<int, real>, floor: real,
      st: DomainState): (r: map<int, real>)
    ensures r.Keys == prs.Keys
  {
    map g | g in prs :: if g in contended then Min(floor + At(parts, g), Get(st.maxCaps, g, prs[g])) else prs[g]
  }

  function ScaleAll(caps: map<int, real>, limit: real, total: real): map<int, real>
    requires total != 0.0
  {
    map g | g in caps :: ProRata(caps[g], limit, total)
  }

  /** One decision, given what the wrapped PRS proposed. */
  datatype PriorityTick = PriorityTick(
    prs: map<int, real>, budget: real, threshold: real, floor: real, tiers: map<int, Tier>, st: DomainState) {

    ghost predicate Valid() {
      && st.Valid() && budget >= 0.0
      && (forall g :: g in prs <==> g in st.gpus)
    }

    function ContendedSet(): set<int> {
      set g | g in prs && AtLeastFraction(At(st.draws, g), At(st.caps, g), threshold)
    }

    function Contended(): (r: seq<int>)
      ensures forall g :: g in r ==> g in st.gpus
    {
      Inside(st.gpus, ContendedSet())
    }

    function Uncontended(): seq<int> {
      Outside(st.gpus, ContendedSet())
    }

    predicate Preempts() {
      |Contended()| >= 2 && budget != 0.0
    }

    /** What the uncontended caps and the floors take out of the budget. */
    function Committed(): real {
      Sum(Uncontended(), prs) + Times(floor, |Contended()|)
    }

    function Surplus(): real {
      Max(0.0, budget - Committed())
    }

    function Parts(): map<int, real> {
      Surpluses(Contended(), Demands(Contended(), st, tiers), Surplus())
    }

    function Unscaled(): map<int, real> {
      LiftAll(prs, Contended(), Parts(), floor, st)
    }

    function Caps(): map<int, real> {
      if !Preempts() then prs
      else
        var total := Sum(st.gpus, Unscaled());
        if total > budget && total != 0.0 then ScaleAll(Unscaled(), budget, total) else Unscaled()
    }
  }

  class PriorityTieredPRSBrain {
    const topology: Topology
    const prs: PRSBrain
    const threshold: real
    const minCap: real
    var tiers: map<int, Tier>

    constructor (topology: Topology, tiers: map<int, Tier>, threshold: real, minCap: real, cfg: PrsConfig)
      requires cfg.Valid()
      ensures this.topology == topology && this.tiers == tiers && this.threshold == threshold && this.minCap == minCap
      ensures fresh(prs) && prs.topology == topology && prs.cfg == cfg
      ensures prs.ewma == map[] && prs.lastCaps == map[]
    {
      this.topology := topology;
      this.tiers := tiers;
      this.threshold := threshold;
      this.minCap := minCap;
      prs := new PRSBrain(topology, cfg);
    }

    /** Replaces the whole mapping, or leaves it alone when a tier name is unknown. */
    method SetTiers(names: map<int, string>) returns (ok: bool)
      modifies this
      ensures ok <==> forall g :: g in names ==> ParseTier(names[g]).Some?
      ensures ok ==> tiers.Keys == names.Keys && forall g :: g in names ==> ParseTier(names[g]) == Some(tiers[g])
      ensures !ok ==> tiers == old(tiers)
    {
      ok := forall g :: g in names ==> ParseTier(names[g]).Some?;
      if ok {
        tiers := map g | g in names :: ParseTier(names[g]).value;
      }
    }

    ghost function TickOf(domain: string, st: DomainState): PriorityTick
      requires domain in topology.pdn.domains && prs.topology == topology
      reads this, prs, topology
    {
      PriorityTick(prs.TickOf(domain, st).Caps(), topology.DomainBudget(domain), threshold, minCap, tiers, st)
    }

    method Decide(domain: string, st: DomainState) returns (caps: map<int, real>)
      requires domain in topology.pdn.domains && st.Valid() && prs.cfg.Valid() && prs.topology == topology
      modifies prs
      ensures caps == old(TickOf(domain, st)).Caps()
      ensures prs.Memory(domain) == PrsMemory(old(prs.TickOf(domain, st)).Ewma(), caps)
      ensures forall d :: d != domain ==> prs.Memory(d) == old(prs.Memory(d))
    {
      hide AtLeastFraction, Inside, Outside, NoDup, PriorityTick.Unscaled;
      hide PdnModel.Topology.DomainBudget, Tick.Caps, Tick.Ewma, Tick.Metrics;
      ghost var p := TickOf(domain, st);
      var budget := topology.DomainBudget(domain);
      var proposed := prs.Decide(domain, st);
      PrsBudget.CapsCoverTelemetry(old(prs.TickOf(domain, st)));
      caps := proposed;
      var contendedSet := set g | g in caps && AtLeastFraction(At(st.draws, g), At(st.caps, g), threshold);
      assert contendedSet == p.ContendedSet();
      var contended := Inside(st.gpus, contendedSet);
      if |contended| < 2 || budget == 0.0 {
        return;
      }
      caps := Preempt(proposed, contendedSet, budget, st);
      prs.NoteAppliedCaps(domain, caps);
    }

    /** Splits the surplus, and scales everything down where even the floors do not fit. */
    method Preempt(proposed: map<int, real>, contendedSet: set<int>, budget: real, st: DomainState) returns (caps: map<int, real>)
      requires st.Valid() && forall g :: g in proposed <==> g in st.gpus
      requires contendedSet == PriorityTick(proposed, budget, threshold, minCap, tiers, st).ContendedSet()
      ensures var p := PriorityTick(proposed, budget, threshold, minCap, tiers, st);
              var total := Sum(st.gpus, p.Unscaled());
              caps == if total > budget && total != 0.0 then ScaleAll(p.Unscaled(), budget, total) else p.Unscaled()
    {
      hide AtLeastFraction, Times, Sum, Inside, Outside, Demands, Surpluses, LiftAll, ScaleAll, NoDup;
      var contended := Inside(st.gpus, contendedSet);
      var reserved := Sum(Outside(st.gpus, contendedSet), proposed);
      var surplus := Max(0.0, budget - (reserved + Times(minCap, |contended|)));
      caps := SplitSurplus(proposed, contended, surplus, st);
      var total := Sum(st.gpus, caps);
      if total > budget && total != 0.0 {
        caps := ScaleDown(caps, st.gpus, budget, total);
      }
    }

    method SplitSurplus(proposed: map<int, real>, contended: seq<int>, surplus: real,
        st: DomainState) returns (caps: map<int, real>)
      requires NoDup(contended) && forall g :: g in contended ==> g in proposed
      ensures caps == LiftAll(proposed, contended, Surpluses(contended, Demands(contended, st, tiers), surplus), minCap, st)
    {
      hide Demand, ProRata, Sum;
      var demands := Demands(contended, st, tiers);
      var sum := Sum(contended, demands);
      var total := if sum == 0.0 then 1.0 else sum;
      ghost var parts := Surpluses(contended, demands, surplus);
      caps := proposed;
      for i := 0 to |contended|
        invariant caps.Keys == proposed.Keys
        invariant forall g :: g in proposed ==>
          caps[g] == if g in contended[..i] then Min(minCap + At(parts, g), Get(st.maxCaps, g, proposed[g])) else proposed[g]
      {
        var g := contended[i];
        assert g in contended && g !in contended[..i];
        var hwMax := Get(st.maxCaps, g, caps[g]);
        caps := caps[g := Min(minCap + ProRata(demands[g], surplus, total), hwMax)];
      }
      assert contended[..|contended|] == contended;
      assert forall g :: g in caps ==> caps[g] == LiftAll(proposed, contended, parts, minCap, st)[g];
    }

    method ScaleDown(caps: map<int, real>, gpus: seq<int>, limit: real, total: real) returns (scaled: map<int, real>)
      requires total != 0.0 && NoDup(gpus) && forall g :: g in gpus <==> g in caps
      ensures scaled == ScaleAll(caps, limit, total)
    {
      hide ProRata;
      scaled := caps;
      for i := 0 to |gpus|
        invariant scaled.Keys == caps.Keys
        invariant forall g :: g in caps ==> scaled[g] == if g in gpus[..i] then ProRata(caps[g], limit, total) else caps[g]
      {
        var g := gpus[i];
        assert g in gpus && g !in gpus[..i];
        scaled := scaled[g := ProRata(scaled[g], limit, total)];
      }
      assert gpus[..|gpus|] == gpus;
      assert forall g :: g in caps ==> scaled[g] == ScaleAll(caps, limit, total)[g];
    }
  }
}
