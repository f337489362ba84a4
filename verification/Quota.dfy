/** Per-tenant quotas: every tenant runs its own PRS over its own slice of the raw domain budget. */
module Quota {
  import opened Options
  import opened Sums
  import opened PdnModel
  import opened Prs
  import PrsBudget

  datatype TenantQuota = TenantQuota(id: string, domain: string, gpus: seq<int>, pct: real) {
    predicate Valid() {
      0.0 < pct <= 1.0
    }
  }

  function SumPct(tenants: seq<TenantQuota>): real {
    if tenants == [] then 0.0 else SumPct(tenants[..|tenants| - 1]) + tenants[|tenants| - 1].pct
  }

  predicate Disjoint(a: seq<int>, b: seq<int>) {
    forall g :: g in a ==> g !in b
  }

  datatype QuotaConfig = QuotaConfig(domain: string, tenants: seq<TenantQuota>) {
    ghost predicate Valid() {
      && (forall i :: 0 <= i < |tenants| ==> tenants[i].domain == domain)
      && SumPct(tenants) <= 1.000001
      && (forall i, j :: 0 <= i < j < |tenants| ==> Disjoint(tenants[i].gpus, tenants[j].gpus))
    }

    /** Rejects stray domains, more than 100 percent, and GPUs owned twice. */
    method Validate() returns (ok: bool)
      ensures ok <==> Valid()
    {
      if exists i :: 0 <= i < |tenants| && tenants[i].domain != domain {
        return false;
      }
      if SumPct(tenants) > 1.000001 {
        return false;
      }
      var seen: set<int> := {};
      for k := 0 to |tenants|
        invariant forall g :: g in seen <==> exists i :: 0 <= i < k && g in tenants[i].gpus
        invariant forall i, j :: 0 <= i < j < k ==> Disjoint(tenants[i].gpus, tenants[j].gpus)
      {
        var own := set g | g in tenants[k].gpus;
        if exists g :: g in own && g in seen {
          ghost var g :| g in own && g in seen;
          ghost var i :| 0 <= i < k && g in tenants[i].gpus;
          assert !Disjoint(tenants[i].gpus, tenants[k].gpus);
          return false;
        }
        forall i | 0 <= i < k ensures Disjoint(tenants[i].gpus, tenants[k].gpus) {
          forall g | g in tenants[i].gpus ensures g !in tenants[k].gpus {
            assert g in seen;
          }
        }
        seen := seen + own;
      }
      return true;
    }
  }

  /** First occurrences only, as building a dictionary from the list keeps them. */
  function Distinct(gs: seq<int>): (r: seq<int>)
    ensures NoDup(r) && forall g :: g in r <==> g in gs
  {
    if gs == [] then []
    else
      var init, last := Distinct(gs[..|gs| - 1]), gs[|gs| - 1];
      if last in init then init else init + [last]
  }

  function Slice(pct: real, budget: real): real {
    pct * budget
  }

  /** A tenant's own brain: the slice it was built with and what it remembers. */
  datatype SubBrain = SubBrain(slice: real, mem: PrsMemory)

  type Key = (string, seq<int>)

  /** The tenant's GPUs with both a draw and a known maximum. */
  function Active(t: TenantQuota, st: DomainState): (r: seq<int>)
    ensures forall g :: g in r <==> g in t.gpus && g in st.draws && g in st.maxCaps
  {
    Inside(t.gpus, st.draws.Keys * st.maxCaps.Keys)
  }

  function Present(t: TenantQuota, st: DomainState): set<int> {
    set g | g in t.gpus && g in st.draws
  }

  function SubState(active: seq<int>, st: DomainState): (r: DomainState)
    requires forall g :: g in active ==> g in st.draws && g in st.maxCaps
    ensures r.Valid() && r.gpus == Distinct(active)
  {
    DomainState(Distinct(active),
                map g | g in active :: st.draws[g],
                map g | g in active :: Get(st.caps, g, st.maxCaps[g]),
                map g | g in active :: st.maxCaps[g],
                {})
  }

  /** The brain for this tenant and GPU set: the cached one, or a new one over the slice. */
  function BrainFor(brains: map<Key, SubBrain>, key: Key, slice: real): SubBrain {
    Get(brains, key, SubBrain(Max(0.0, slice), PrsMemory(map[], map[])))
  }

  function TenantTick(cfg: PrsConfig, brain: SubBrain, active: seq<int>, st: DomainState): Tick
    requires forall g :: g in active ==> g in st.draws && g in st.maxCaps
  {
    Tick(cfg, brain.slice, brain.mem, SubState(active, st))
  }

  function Renormalised(gpus: seq<int>, caps: map<int, real>, slice: real): (r: map<int, real>)
    ensures r.Keys == caps.Keys
  {
    var total := Sum(gpus, caps);
    if slice > 0.0 && total > slice then map g | g in caps :: ProRata(caps[g], slice, total) else caps
  }

  /** What the tenant loop has produced so far; `keys` lists the capped GPUs in insertion order. */
  datatype Progress = Progress(
    brains: map<Key, SubBrain>, caps: map<int, real>, keys: seq<int>, claimed: set<int>, used: real)

  function TenantStep(cfg: PrsConfig, domain: string, budget: real, p: Progress, t: TenantQuota,
      st: DomainState): Progress {
    if t.domain != domain then p
    else
      var slice, active := Slice(t.pct, budget), Active(t, st);
      var claimed := p.claimed + Present(t, st);
      if active == [] then p.(claimed := claimed)
      else
        var brain := BrainFor(p.brains, (t.id, active), slice);
        var tick := TenantTick(cfg, brain, active, st);
        var caps := Renormalised(Distinct(active), tick.Caps(), slice);
        Progress(p.brains[(t.id, active) := SubBrain(brain.slice, tick.Next())],
                 p.caps + caps, p.keys + Distinct(active), claimed, p.used + Sum(Distinct(active), caps))
  }

  function RunTenants(cfg: PrsConfig, domain: string, budget: real, brains: map<Key, SubBrain>,
      tenants: seq<TenantQuota>, st: DomainState): Progress {
    if tenants == [] then Progress(brains, map[], [], {}, 0.0)
    else
      TenantStep(cfg, domain, budget, RunTenants(cfg, domain, budget, brains, tenants[..|tenants| - 1], st), tenants[|tenants| - 1], st)
  }

  function Unassigned(p: Progress, st: DomainState): seq<int> {
    Outside(st.gpus, p.claimed)
  }

  /** The rest of the budget in equal parts, each cut to a known hardware maximum. */
  function ShareRest(unassigned: seq<int>, rest: real, st: DomainState): map<int, real> {
    var share := Quotient(rest, |unassigned|);
    map g | g in unassigned :: Min(share, Get(st.maxCaps, g, share))
  }

  datatype Decision = Decision(brains: map<Key, SubBrain>, caps: map<int, real>, keys: seq<int>)

  function Allocate(cfg: PrsConfig, quota: QuotaConfig, domain: string, budget: real, brains: map<Key, SubBrain>,
      st: DomainState): Decision {
    var p := RunTenants(cfg, domain, budget, brains, quota.tenants, st);
    var rest := ShareRest(Unassigned(p, st), Max(0.0, budget - p.used), st);
    Decision(p.brains, p.caps + rest, p.keys + Unassigned(p, st))
  }

  /** The one-domain topology a tenant's brain is built over. */
  function SlicePdn(name: string, slice: real, gpus: seq<int>): Pdn {
    Pdn([name], map[name := PowerDomain(name, slice, gpus, "_virtual", 0.0, None)], map[], map[])
  }

  lemma SliceBudget(topo: Topology, name: string, slice: real, gpus: seq<int>)
    requires topo.pdn == SlicePdn(name, slice, gpus) && topo.adopted == map[]
    ensures name in topo.pdn.domains && topo.DomainBudget(name) == Max(0.0, slice)
  {
  }

  class QuotaAwarePRSBrain {
    const topology: Topology
    const quota: QuotaConfig
    const cfg: PrsConfig
    var tenantBrains: map<Key, PRSBrain>

    constructor (topology: Topology, quota: QuotaConfig, cfg: PrsConfig)
      requires quota.Valid() && cfg.Valid()
      ensures this.topology == topology && this.quota == quota && this.cfg == cfg && tenantBrains == map[]
      ensures Valid()
    {
      this.topology, this.quota, this.cfg := topology, quota, cfg;
      tenantBrains := map[];
    }

    function SubName(id: string): string {
      quota.domain + "/" + id
    }

    ghost predicate Valid()
      reads this, tenantBrains.Values
    {
      && cfg.Valid() && quota.Valid()
      && (forall k :: k in tenantBrains ==> tenantBrains[k].cfg == cfg && SubName(k.0) in tenantBrains[k].topology.pdn.domains)
      && (forall k, l :: k in tenantBrains && l in tenantBrains && k != l ==> tenantBrains[k] != tenantBrains[l])
    }

    ghost function SubBrainOf(key: Key): SubBrain
      requires key in tenantBrains && SubName(key.0) in tenantBrains[key].topology.pdn.domains
      reads this, tenantBrains.Values, set b | b in tenantBrains.Values :: b.topology
    {
      SubBrain(tenantBrains[key].topology.DomainBudget(SubName(key.0)), tenantBrains[key].Memory(SubName(key.0)))
    }

    /** The cache as values. */
    ghost function Brains(): map<Key, SubBrain>
      requires Valid()
      reads this, tenantBrains.Values, set b | b in tenantBrains.Values :: b.topology
    {
      map k | k in tenantBrains :: SubBrainOf(k)
    }

    method Decide(domain: string, st: DomainState) returns (caps: map<int, real>, ghost keys: seq<int>)
      requires Valid() && domain in topology.pdn.domains && st.Valid()
      modifies this, tenantBrains.Values
      ensures Valid() && fresh(tenantBrains.Values - old(tenantBrains.Values))
      ensures var d := Allocate(cfg, quota, domain, topology.pdn.domains[domain].budget, old(Brains()), st);
              Brains() == d.brains && caps == d.caps && keys == d.keys
    {
      hide Slice, Quotient, Active, Present, TenantStep, Sum, Outside, ShareRest, QuotaConfig.Valid;
      hide QuotaAwarePRSBrain.Brains, QuotaAwarePRSBrain.SubBrainOf, QuotaAwarePRSBrain.SubName;
      var budget := topology.pdn.domains[domain].budget;
      var claimed, used := {}, 0.0;
      ghost var brains := Brains();
      caps, keys := map[], [];
      for i := 0 to |quota.tenants|
        invariant Valid() && fresh(tenantBrains.Values - old(tenantBrains.Values))
        invariant Progress(Brains(), caps, keys, claimed, used) == RunTenants(cfg, domain, budget, brains, quota.tenants[..i], st)
      {
        ghost var before := Progress(Brains(), caps, keys, claimed, used);
        assert quota.tenants[..i + 1][..i] == quota.tenants[..i];
        caps, keys, claimed, used := RunTenant(domain, budget, quota.tenants[i], caps, keys, claimed, used, st);
        assert Progress(Brains(), caps, keys, claimed, used)
            == TenantStep(cfg, domain, budget, before, quota.tenants[i], st);
      }
      assert quota.tenants[..|quota.tenants|] == quota.tenants;
      var unassigned := Outside(st.gpus, claimed);
      var rest := SplitRest(unassigned, Max(0.0, budget - used), st);
      caps := caps + rest;
      keys := keys + unassigned;
    }

    method RunTenant(domain: string, budget: real, t: TenantQuota, caps: map<int, real>, ghost keys: seq<int>,
        claimed: set<int>, used: real, st: DomainState)
        returns (caps': map<int, real>, ghost keys': seq<int>, claimed': set<int>, used': real)
      requires Valid() && st.Valid() && t in quota.tenants
      modifies this, tenantBrains.Values
      ensures Valid() && fresh(tenantBrains.Values - old(tenantBrains.Values))
      ensures Progress(Brains(), caps', keys', claimed', used')
           == TenantStep(cfg, domain, budget, Progress(old(Brains()), caps, keys, claimed, used), t, st)
    {
      hide Slice, Sum, Distinct, Active, Present, SubState, BrainFor, Renormalised, Tick.Caps, Tick.Ewma, Tick.Metrics;
      hide PdnModel.Topology.DomainBudget;
      caps', keys', claimed', used' := caps, keys, claimed, used;
      if t.domain != domain {
        return;
      }
      var slice := Slice(t.pct, budget);
      claimed' := claimed + Present(t, st);
      var active := Active(t, st);
      if active == [] {
        return;
      }
      var own := CapTenant(t, slice, active, st);
      caps' := caps + own;
      keys' := keys + Distinct(active);
      used' := used + Sum(Distinct(active), own);
    }

    method CapTenant(t: TenantQuota, slice: real, active: seq<int>, st: DomainState) returns (caps: map<int, real>)
      requires Valid() && forall g :: g in active ==> g in st.draws && g in st.maxCaps
      modifies this, tenantBrains.Values
      ensures Valid() && fresh(tenantBrains.Values - old(tenantBrains.Values))
      ensures var brain := BrainFor(old(Brains()), (t.id, active), slice);
              var tick := TenantTick(cfg, brain, active, st);
              && caps == Renormalised(Distinct(active), tick.Caps(), slice)
              && Brains() == old(Brains())[(t.id, active) := SubBrain(brain.slice, tick.Next())]
    {
      hide Sum, Distinct, SubState, BrainFor, Renormalised, Tick.Caps, Tick.Ewma, Tick.Metrics, SubName;
      hide PdnModel.Topology.DomainBudget, SubBrainOf, Brains, QuotaConfig.Valid, NoDup;
      var key := (t.id, active);
      ghost var tick := TenantTick(cfg, BrainFor(Brains(), key, slice), active, st);
      FindBrain(key, slice);
      caps := RunBrain(key, SubState(active, st));
      PrsBudget.CapsCoverTelemetry(tick);
      caps := FitToSlice(Distinct(active), caps, slice);
    }

    /** Looks the key up and builds a brain over a one-domain topology on a miss. */
    method FindBrain(key: Key, slice: real)
      requires Valid()
      modifies this
      ensures Valid() && fresh(tenantBrains.Values - old(tenantBrains.Values))
      ensures key in tenantBrains
      ensures Brains() == old(Brains())[key := BrainFor(old(Brains()), key, slice)]
    {
      hide SubName, QuotaConfig.Valid, PrsConfig.Valid, QuotaAwarePRSBrain.SubBrainOf;
      ghost var before := Brains();
      if key in tenantBrains {
        assert before[key := before[key]] == before;
        return;
      }
      AddBrain(key, slice);
      ghost var after := before[key := SubBrain(Max(0.0, slice), PrsMemory(map[], map[]))];
      assert forall k :: k in Brains() <==> k in after;
      assert forall k :: k in after ==> Brains()[k] == after[k];
    }

    method AddBrain(key: Key, slice: real)
      requires Valid() && key !in tenantBrains
      modifies this
      ensures Valid() && key in tenantBrains
      ensures tenantBrains == old(tenantBrains)[key := tenantBrains[key]] && fresh(tenantBrains[key])
      ensures SubBrainOf(key) == SubBrain(Max(0.0, slice), PrsMemory(map[], map[]))
      ensures forall l :: l in old(tenantBrains) ==> SubBrainOf(l) == old(SubBrainOf(l))
    {
      hide PdnModel.Topology.DomainBudget, SubName, PRSBrain.Memory, QuotaConfig.Valid;
      var brain := BuildBrain(SubName(key.0), slice, key.1);
      tenantBrains := tenantBrains[key := brain];
    }

    method BuildBrain(name: string, slice: real, gpus: seq<int>) returns (brain: PRSBrain)
      requires cfg.Valid()
      ensures fresh(brain) && fresh(brain.topology) && brain.cfg == cfg
      ensures name in brain.topology.pdn.domains && brain.topology.DomainBudget(name) == Max(0.0, slice)
      ensures brain.Memory(name) == PrsMemory(map[], map[])
    {
      var topo := new Topology(SlicePdn(name, slice, gpus));
      brain := new PRSBrain(topo, cfg);
      SliceBudget(topo, name, slice, gpus);
    }

    /** Lets one cached brain decide; the others are left alone. */
    method RunBrain(key: Key, sub: DomainState) returns (caps: map<int, real>)
      requires Valid() && key in tenantBrains && sub.Valid()
      modifies tenantBrains.Values
      ensures Valid()
      ensures var tick := Tick(cfg, old(Brains())[key].slice, old(Brains())[key].mem, sub);
              caps == tick.Caps() && Brains() == old(Brains())[key := SubBrain(tick.budget, tick.Next())]
    {
      hide PdnModel.Topology.DomainBudget, Tick.Caps, Tick.Ewma, Tick.Metrics;
      ghost var before := Brains();
      var brain := tenantBrains[key];
      ghost var tick := brain.TickOf(SubName(key.0), sub);
      assert tick == Tick(cfg, before[key].slice, before[key].mem, sub);
      caps := brain.Decide(SubName(key.0), sub);
      assert brain.Memory(SubName(key.0)) == tick.Next();
      assert SubBrainOf(key) == SubBrain(tick.budget, tick.Next());
      forall l | l in before && l != key ensures SubBrainOf(l) == before[l] {
      }
      assert Brains() == before[key := SubBrain(tick.budget, tick.Next())];
    }

    /** PRS floors can add up to more than a small slice; the slice wins. */
    method FitToSlice(gpus: seq<int>, caps: map<int, real>, slice: real) returns (fitted: map<int, real>)
      requires NoDup(gpus) && forall g :: g in gpus <==> g in caps
      ensures fitted == Renormalised(gpus, caps, slice)
    {
      hide ProRata, Sum;
      fitted := caps;
      var total := Sum(gpus, caps);
      if slice > 0.0 && total > slice {
        for i := 0 to |gpus|
          invariant fitted.Keys == caps.Keys
          invariant forall g :: g in caps ==> fitted[g] == if g in gpus[..i] then ProRata(caps[g], slice, total) else caps[g]
        {
          var g := gpus[i];
          assert g in gpus && g !in gpus[..i];
          fitted := fitted[g := ProRata(fitted[g], slice, total)];
        }
        assert gpus[..|gpus|] == gpus;
        assert forall g :: g in fitted ==> fitted[g] == Renormalised(gpus, caps, slice)[g];
      }
    }

    method SplitRest(unassigned: seq<int>, rest: real, st: DomainState) returns (caps: map<int, real>)
      ensures caps == ShareRest(unassigned, rest, st)
    {
      hide Quotient;
      caps := map[];
      var share := Quotient(rest, |unassigned|);
      for i := 0 to |unassigned|
        invariant forall g :: g in caps <==> g in unassigned[..i]
        invariant forall g :: g in caps ==> caps[g] == Min(share, Get(st.maxCaps, g, share))
      {
        var g := unassigned[i];
        caps := caps[g := Min(share, Get(st.maxCaps, g, share))];
      }
      assert unassigned[..|unassigned|] == unassigned;
      assert forall g :: g in caps ==> caps[g] == ShareRest(unassigned, rest, st)[g];
      assert forall g :: g in caps <==> g in ShareRest(unassigned, rest, st);
    }
  }
}
