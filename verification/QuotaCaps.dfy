/** What a tenant gets is what its own PRS, run over its own slice, would give it; what nobody owns shares the rest. */
module QuotaCaps {
  import opened Sums
  import opened Prs
  import opened PrsRuns
  import opened Quota
  import opened QuotaProofs
  import opened QuotaIsolation
  import PrsBudget

  // ----- One tenant among others -----

  const NOTHING_YET := Progress(map[], map[], [], {}, 0.0)

  /** The tenant's step as if it were the only one. */
  ghost function Alone(cfg: PrsConfig, budget: real, brains: map<Key, SubBrain>, t: TenantQuota, st: DomainState): Progress {
    TenantStep(cfg, t.domain, budget, NOTHING_YET.(brains := brains), t, st)
  }

  lemma {:induction false} NotYetServed(cfg: PrsConfig, domain: string, budget: real, brains: map<Key, SubBrain>,
      tenants: seq<TenantQuota>, t: TenantQuota, st: DomainState)
    requires cfg.Valid() && forall j :: 0 <= j < |tenants| ==> Disjoint(t.gpus, tenants[j].gpus)
    ensures var p := RunTenants(cfg, domain, budget, brains, tenants, st);
            SameBrains(t, p.brains, brains) && SameCaps(t.gpus, p.caps, map[])
  {
    hide TenantStep, Disjoint;
    if tenants == [] {
    } else {
      var before, last := tenants[..|tenants| - 1], tenants[|tenants| - 1];
      NotYetServed(cfg, domain, budget, brains, before, t, st);
      OtherStepIsInvisible(cfg, domain, budget, RunTenants(cfg, domain, budget, brains, before, st), t, last, st);
    }
  }

  lemma SameAsItself(t: TenantQuota, st: DomainState)
    ensures SameTelemetry(t, st, st)
  {
  }

  lemma {:induction false} OnlyOwnStepCounts(cfg: PrsConfig, domain: string, budget: real, brains: map<Key, SubBrain>,
      tenants: seq<TenantQuota>, st: DomainState, i: nat)
    requires cfg.Valid() && Sound(tenants, domain) && i < |tenants|
    ensures var p, alone := RunTenants(cfg, domain, budget, brains, tenants, st), Alone(cfg, budget, brains, tenants[i], st);
            SameBrains(tenants[i], p.brains, alone.brains) && SameCaps(tenants[i].gpus, p.caps, alone.caps)
  {
    hide TenantStep, SameTelemetry, TenantQuota.Valid;
    var before, last, t := tenants[..|tenants| - 1], tenants[|tenants| - 1], tenants[i];
    var p := RunTenants(cfg, domain, budget, brains, before, st);
    if i == |tenants| - 1 {
      forall j | 0 <= j < |before| ensures Disjoint(t.gpus, before[j].gpus) {
        assert Disjoint(tenants[j].gpus, tenants[i].gpus);
      }
      NotYetServed(cfg, domain, budget, brains, before, t, st);
      SameAsItself(t, st);
      OwnStepAgrees(cfg, domain, budget, p, NOTHING_YET.(brains := brains), t, st, st);
    } else {
      SoundPrefix(tenants, domain);
      OnlyOwnStepCounts(cfg, domain, budget, brains, before, st, i);
      OtherStepIsInvisible(cfg, domain, budget, p, t, last, st);
    }
  }

  lemma AllocatedAlone(cfg: PrsConfig, quota: QuotaConfig, budget: real, brains: map<Key, SubBrain>, st: DomainState, i: nat)
    requires cfg.Valid() && quota.Valid() && Sound(quota.tenants, quota.domain) && st.Valid() && i < |quota.tenants|
    ensures var d, alone := Allocate(cfg, quota, quota.domain, budget, brains, st), Alone(cfg, budget, brains, quota.tenants[i], st);
            SameBrains(quota.tenants[i], d.brains, alone.brains) && SameCaps(quota.tenants[i].gpus, d.caps, alone.caps)
  {
    hide RunTenants, ShareRest, TenantStep, Sum, Quotient, Unassigned;
    OnlyOwnStepCounts(cfg, quota.domain, budget, brains, quota.tenants, st, i);
    RestAvoidsTenants(cfg, quota, budget, brains, st, i);
  }

  // ----- Its caps -----

  /** The brain is told of the tenant's GPUs with a draw and a maximum, of each the draw and the maximum, and the cap if one is
      reported. */
  lemma ToldOfOwn(t: TenantQuota, st: DomainState, g: int)
    ensures g in Active(t, st) <==> g in t.gpus && g in st.draws && g in st.maxCaps
    ensures g in Active(t, st) ==>
              var sub := SubState(Active(t, st), st);
              && g in sub.gpus && g in sub.draws && sub.draws[g] == st.draws[g] && g in sub.maxCaps && sub.maxCaps[g] == st.maxCaps[g]
              && g in sub.caps && sub.caps[g] == (if g in st.caps then st.caps[g] else st.maxCaps[g]) && sub.throttled == {}
  {
    hide Distinct;
  }

  ghost function OwnSlice(t: TenantQuota, budget: real): real {
    if t.pct * budget >= 0.0 then t.pct * budget else 0.0
  }

  /** The tick that the tenant's brain makes: over the slice and the memory of the brain cached for these GPUs, or over the
      tenant's slice and no memory. */
  ghost function OwnTick(cfg: PrsConfig, budget: real, brains: map<Key, SubBrain>, t: TenantQuota, st: DomainState): Tick {
    var active := Active(t, st);
    if (t.id, active) in brains then Tick(cfg, brains[(t.id, active)].slice, brains[(t.id, active)].mem, SubState(active, st))
    else Tick(cfg, OwnSlice(t, budget), PrsMemory(map[], map[]), SubState(active, st))
  }

  lemma AloneExactly(cfg: PrsConfig, budget: real, brains: map<Key, SubBrain>, t: TenantQuota, st: DomainState)
    requires Active(t, st) != []
    ensures var tick, alone := OwnTick(cfg, budget, brains, t, st), Alone(cfg, budget, brains, t, st);
            && alone.caps == Renormalised(Distinct(Active(t, st)), tick.Caps(), t.pct * budget)
            && alone.brains == brains[(t.id, Active(t, st)) := SubBrain(tick.budget, tick.Next())]
  {
    hide Active, Distinct, SubState, Renormalised, Tick.Caps, Tick.Ewma, Sum, Present;
    var slice, active, tick := Slice(t.pct, budget), Active(t, st), OwnTick(cfg, budget, brains, t, st);
    assert slice == t.pct * budget;
    assert TenantTick(cfg, BrainFor(brains, (t.id, active), slice), active, st) == tick;
    hide Slice, BrainFor, OwnTick;
    var caps := Renormalised(Distinct(active), tick.Caps(), slice);
    assert map[] + caps == caps;
  }

  lemma RenormalisedCap(gpus: seq<int>, caps: map<int, real>, slice: real, g: int)
    requires slice > 0.0 && g in caps
    ensures var after, total := Renormalised(gpus, caps, slice), Sum(gpus, caps);
            && g in after && (total <= slice ==> after[g] == caps[g])
            && (total > slice ==> after[g] * total == caps[g] * slice)
  {
    hide ProRata, Sum;
    if Sum(gpus, caps) > slice {
      ProRataProduct(caps[g], slice, Sum(gpus, caps));
    }
  }

  /** Each of its GPUs gets what its own PRS decides, or that in proportion when it comes to more than the slice. */
  lemma TenantCapExactly(cfg: PrsConfig, quota: QuotaConfig, budget: real, brains: map<Key, SubBrain>, st: DomainState, i: nat,
      g: int)
    requires cfg.Valid() && quota.Valid() && Sound(quota.tenants, quota.domain) && st.Valid() && budget > 0.0
    requires i < |quota.tenants| && g in Active(quota.tenants[i], st)
    ensures var t, caps := quota.tenants[i], Allocate(cfg, quota, quota.domain, budget, brains, st).caps;
            var own, slice := OwnTick(cfg, budget, brains, t, st).Caps(), t.pct * budget;
            var total := Sum(Distinct(Active(t, st)), own);
            && g in caps && g in own
            && (total <= slice ==> caps[g] == own[g]) && (total > slice ==> caps[g] * total == own[g] * slice)
  {
    hide Allocate, Active, Distinct, SubState, Renormalised, Tick.Caps, Sum, Alone, QuotaConfig.Valid, DomainState.Valid;
    var t := quota.tenants[i];
    assert t.pct > 0.0;
    SlicePositive(t.pct, budget);
    AllocatedAlone(cfg, quota, budget, brains, st, i);
    AloneExactly(cfg, budget, brains, t, st);
    var tick := OwnTick(cfg, budget, brains, t, st);
    assert tick.st == SubState(Active(t, st), st);
    OwnTickCovers(cfg, budget, brains, t, st);
    RenormalisedCap(Distinct(Active(t, st)), tick.Caps(), t.pct * budget, g);
    assert g in t.gpus;
  }

  lemma OwnTickCovers(cfg: PrsConfig, budget: real, brains: map<Key, SubBrain>, t: TenantQuota, st: DomainState)
    requires cfg.Valid()
    ensures forall g :: g in OwnTick(cfg, budget, brains, t, st).Caps() <==> g in Active(t, st)
  {
    hide Active, Tick.Caps, Distinct;
    PrsBudget.CapsCoverTelemetry(OwnTick(cfg, budget, brains, t, st));
  }

  // ----- Runs -----

  /** The ticks in which exactly these GPUs of the tenant report, as inputs of one PRS over the slice. */
  ghost function OwnInputs(t: TenantQuota, budget: real, run: seq<DomainState>, active: seq<int>): seq<Input> {
    if run == [] then []
    else
      var before, last := OwnInputs(t, budget, run[..|run| - 1], active), run[|run| - 1];
      if Active(t, last) == active then before + [Input(OwnSlice(t, budget), SubState(Active(t, last), last))] else before
  }

  /** The cache has, for these GPUs, the memory of that PRS, or nothing before its first tick. */
  ghost predicate Remembers(
      cfg: PrsConfig, t: TenantQuota, budget: real, brains: map<Key, SubBrain>, run: seq<DomainState>, active: seq<int>)
  {
    var inputs := OwnInputs(t, budget, run, active);
    && ((t.id, active) in brains <==> inputs != [])
    && (inputs != [] ==>
          brains[(t.id, active)] == SubBrain(OwnSlice(t, budget), MemoryAfter(cfg, PrsMemory(map[], map[]), inputs)))
  }

  lemma OneMoreInput(cfg: PrsConfig, t: TenantQuota, budget: real, brains: map<Key, SubBrain>, run: seq<DomainState>)
    requires run != [] && Remembers(cfg, t, budget, brains, run[..|run| - 1], Active(t, run[|run| - 1]))
    ensures var inputs := OwnInputs(t, budget, run, Active(t, run[|run| - 1]));
            && inputs != []
            && OwnTick(cfg, budget, brains, t, run[|run| - 1]) == LastTick(cfg, PrsMemory(map[], map[]), inputs)
  {
    hide Active, SubState, Tick.Caps, Tick.Ewma;
    var active := Active(t, run[|run| - 1]);
    var before, inputs := OwnInputs(t, budget, run[..|run| - 1], active), OwnInputs(t, budget, run, active);
    assert inputs[..|inputs| - 1] == before;
    EmptyRun(cfg, PrsMemory(map[], map[]));
  }

  lemma {:induction false} BrainsRemember(cfg: PrsConfig, quota: QuotaConfig, budget: real, run: seq<DomainState>, i: nat,
      active: seq<int>)
    requires cfg.Valid() && quota.Valid() && Sound(quota.tenants, quota.domain) && i < |quota.tenants|
    requires (forall k :: 0 <= k < |run| ==> run[k].Valid()) && OwnKey(quota.tenants[i], (quota.tenants[i].id, active))
    ensures Remembers(cfg, quota.tenants[i], budget, BrainsAfter(cfg, quota, budget, map[], run), run, active)
  {
    hide Allocate, Active, Alone, QuotaConfig.Valid, DomainState.Valid, OwnTick, MemoryAfter, LastTick, SameCaps, Sound, SubState;
    if run == [] {
    } else {
      var t, init, last := quota.tenants[i], run[..|run| - 1], run[|run| - 1];
      var brains := BrainsAfter(cfg, quota, budget, map[], init);
      BrainsRemember(cfg, quota, budget, init, i, active);
      AllocatedAlone(cfg, quota, budget, brains, last, i);
      if Active(t, last) == active {
        AloneExactly(cfg, budget, brains, t, last);
        OneMoreInput(cfg, t, budget, brains, run);
        LastMemory(cfg, OwnInputs(t, budget, run, active));
        OwnTickBudget(cfg, t, budget, brains, init, last);
      } else {
        OtherActive(cfg, budget, brains, t, last, active);
      }
    }
  }

  lemma LastMemory(cfg: PrsConfig, inputs: seq<Input>)
    requires inputs != []
    ensures MemoryAfter(cfg, PrsMemory(map[], map[]), inputs) == LastTick(cfg, PrsMemory(map[], map[]), inputs).Next()
  {
    hide Tick.Caps, Tick.Ewma;
  }

  lemma OwnTickBudget(cfg: PrsConfig, t: TenantQuota, budget: real, brains: map<Key, SubBrain>, run: seq<DomainState>,
      last: DomainState)
    requires Remembers(cfg, t, budget, brains, run, Active(t, last))
    ensures OwnTick(cfg, budget, brains, t, last).budget == OwnSlice(t, budget)
  {
    hide Active, SubState, MemoryAfter;
  }

  lemma OtherActive(cfg: PrsConfig, budget: real, brains: map<Key, SubBrain>, t: TenantQuota, st: DomainState, active: seq<int>)
    requires Active(t, st) != active
    ensures var after := Alone(cfg, budget, brains, t, st).brains;
            && ((t.id, active) in after <==> (t.id, active) in brains)
            && ((t.id, active) in brains ==> after[(t.id, active)] == brains[(t.id, active)])
  {
    hide Active, Distinct, SubState, Renormalised, Tick.Caps, Tick.Ewma, Sum, Present;
  }

  /**
   * Over any run, whatever the other tenants do, a tenant's GPUs get what one PRS gives that has run over the tenant's slice
   * and these GPUs in all ticks in which they were the ones that reported, or that in proportion when it exceeds the slice.
   */
  lemma TenantRunsItsOwnPrs(cfg: PrsConfig, quota: QuotaConfig, budget: real, run: seq<DomainState>, i: nat, g: int)
    requires cfg.Valid() && quota.Valid() && Sound(quota.tenants, quota.domain) && i < |quota.tenants| && budget > 0.0
    requires run != [] && forall k :: 0 <= k < |run| ==> run[k].Valid()
    requires g in Active(quota.tenants[i], run[|run| - 1])
    ensures var t, active := quota.tenants[i], Active(quota.tenants[i], run[|run| - 1]);
            var inputs, caps := OwnInputs(t, budget, run, active), CapsAfter(cfg, quota, budget, map[], run);
            && inputs != []
            && var own := LastTick(cfg, PrsMemory(map[], map[]), inputs).Caps();
               var total, slice := Sum(Distinct(active), own), t.pct * budget;
            && g in caps && g in own
            && (total <= slice ==> caps[g] == own[g]) && (total > slice ==> caps[g] * total == own[g] * slice)
  {
    hide Allocate, Active, QuotaConfig.Valid, DomainState.Valid, OwnTick, Sum, Distinct, Tick.Caps, Remembers, LastTick, OwnInputs;
    var t, init, last := quota.tenants[i], run[..|run| - 1], run[|run| - 1];
    ActiveKey(t, last, g);
    BrainsRemember(cfg, quota, budget, init, i, Active(t, last));
    OneMoreInput(cfg, t, budget, BrainsAfter(cfg, quota, budget, map[], init), run);
    TenantCapExactly(cfg, quota, budget, BrainsAfter(cfg, quota, budget, map[], init), last, i, g);
  }

  lemma ActiveKey(t: TenantQuota, st: DomainState, g: int)
    requires g in Active(t, st)
    ensures OwnKey(t, (t.id, Active(t, st)))
  {
  }

  // ----- The rest -----

  /** The reporting GPUs that no tenant owns. */
  ghost function Free(tenants: seq<TenantQuota>, st: DomainState): seq<int> {
    Outside(st.gpus, set g | g in st.gpus && Owned(tenants, g))
  }

  lemma {:induction false} OutsideAgrees(gs: seq<int>, s: set<int>, s': set<int>)
    requires forall g :: g in gs ==> (g in s <==> g in s')
    ensures Outside(gs, s) == Outside(gs, s')
  {
    if gs == [] {
    } else {
      OutsideAgrees(gs[..|gs| - 1], s, s');
      var last := gs[|gs| - 1];
      assert last in gs;
    }
  }

  lemma FreeIsUnassigned(p: Progress, tenants: seq<TenantQuota>, st: DomainState)
    requires st.Valid() && Claims(p, tenants, st)
    ensures Unassigned(p, st) == Free(tenants, st)
  {
    hide Owned;
    OutsideAgrees(st.gpus, p.claimed, set g | g in st.gpus && Owned(tenants, g));
  }

  /** What is left of the raw budget beside the tenants' caps. */
  ghost function LeftOver(quota: QuotaConfig, budget: real, d: Decision, st: DomainState): real {
    Max(0.0, budget - (Sum(d.keys, d.caps) - Sum(Free(quota.tenants, st), d.caps)))
  }

  lemma UsedByTenants(cfg: PrsConfig, quota: QuotaConfig, budget: real, brains: map<Key, SubBrain>, st: DomainState)
    requires cfg.Valid() && quota.Valid() && Sound(quota.tenants, quota.domain) && st.Valid()
    ensures var p, d := RunTenants(cfg, quota.domain, budget, brains, quota.tenants, st), Allocate(cfg, quota, quota.domain, budget, brains, st);
            Max(0.0, budget - p.used) == LeftOver(quota, budget, d, st) && Unassigned(p, st) == Free(quota.tenants, st)
  {
    hide RunTenants, Sum, Quotient, ShareRest, Unassigned, NoDup, Free;
    AllocationClaims(cfg, quota, budget, brains, st);
    var p, d := RunTenants(cfg, quota.domain, budget, brains, quota.tenants, st), Allocate(cfg, quota, quota.domain, budget, brains, st);
    FreeIsUnassigned(p, quota.tenants, st);
    assert d.keys == p.keys + Free(quota.tenants, st);
    SumAppend(p.keys, Free(quota.tenants, st), d.caps);
    forall g | g in p.keys ensures At(d.caps, g) == At(p.caps, g) {
    }
    SumSame(p.keys, d.caps, p.caps);
  }

  lemma ShareProduct(rest: real, n: nat)
    requires n > 0
    ensures Quotient(rest, n) * n as real == rest
  {
  }

  lemma ShareOfRest(cfg: PrsConfig, quota: QuotaConfig, budget: real, brains: map<Key, SubBrain>, st: DomainState, g: int)
    requires cfg.Valid() && quota.Valid() && Sound(quota.tenants, quota.domain) && st.Valid() && g in Free(quota.tenants, st)
    ensures var d := Allocate(cfg, quota, quota.domain, budget, brains, st);
            var share := Quotient(LeftOver(quota, budget, d, st), |Free(quota.tenants, st)|);
            g in d.caps && d.caps[g] == Min(share, Get(st.maxCaps, g, share))
  {
    hide RunTenants, Sum, Quotient, Unassigned, LeftOver, Free, ShareRest;
    UsedByTenants(cfg, quota, budget, brains, st);
    var p := RunTenants(cfg, quota.domain, budget, brains, quota.tenants, st);
    RestCap(Unassigned(p, st), Max(0.0, budget - p.used), st, g);
  }

  lemma RestCap(unassigned: seq<int>, rest: real, st: DomainState, g: int)
    requires g in unassigned
    ensures var share := Quotient(rest, |unassigned|);
            g in ShareRest(unassigned, rest, st) && ShareRest(unassigned, rest, st)[g] == Min(share, Get(st.maxCaps, g, share))
  {
    hide Quotient;
  }

  /** The GPUs that nobody owns get equal parts of what the tenants leave, each cut at its maximum where it is known. */
  lemma RestExactly(cfg: PrsConfig, quota: QuotaConfig, budget: real, brains: map<Key, SubBrain>, st: DomainState, g: int)
    requires cfg.Valid() && quota.Valid() && Sound(quota.tenants, quota.domain) && st.Valid() && g in Free(quota.tenants, st)
    ensures var d, n := Allocate(cfg, quota, quota.domain, budget, brains, st), |Free(quota.tenants, st)| as real;
            var left := LeftOver(quota, budget, d, st);
            && g in d.caps
            && (g in st.maxCaps && st.maxCaps[g] * n <= left ==> d.caps[g] == st.maxCaps[g])
            && (!(g in st.maxCaps && st.maxCaps[g] * n <= left) ==> d.caps[g] * n == left)
  {
    hide Allocate, Quotient, LeftOver, Free;
    ShareOfRest(cfg, quota, budget, brains, st, g);
    var free, left := Free(quota.tenants, st), LeftOver(quota, budget, Allocate(cfg, quota, quota.domain, budget, brains, st), st);
    assert |free| > 0;
    var share := Quotient(left, |free|);
    ShareProduct(left, |free|);
    if g in st.maxCaps {
      ScaleOrderExactly(st.maxCaps[g], share, |free| as real);
    }
  }
}
