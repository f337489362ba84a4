/** Slices against floors: when a tenant keeps its PRS caps, and what an infeasible slice does. */
module QuotaFloors {
  import opened Sums
  import opened Prs
  import opened Quota
  import opened QuotaProofs
  import PrsBudget

  /** Renormalising leaves the caps as they are exactly when they fit. */
  lemma UnscaledExactly(gpus: seq<int>, caps: map<int, real>, slice: real)
    requires slice > 0.0 && forall g :: g in gpus ==> g in caps
    ensures Renormalised(gpus, caps, slice) == caps <==> Sum(gpus, caps) <= slice
  {
    hide ProRata, Sum;
    RenormalisedFits(gpus, caps, slice);
  }

  /** A tenant gets what PRS decided for it if and only if that fits its slice. */
  lemma TenantKeepsPrsCapsExactly(cfg: PrsConfig, budget: real, brains: map<Key, SubBrain>, t: TenantQuota, st: DomainState)
    requires cfg.Valid() && t.Valid() && budget > 0.0 && Active(t, st) != []
    ensures var tick := TenantTick(cfg, BrainFor(brains, (t.id, Active(t, st)), Slice(t.pct, budget)), Active(t, st), st);
            OwnCaps(cfg, budget, brains, t, st) == tick.Caps()
            <==> Sum(Distinct(Active(t, st)), tick.Caps()) <= Slice(t.pct, budget)
  {
    hide Active, SubState, BrainFor, Tick.Caps, Renormalised, Slice, Sum, Distinct;
    SlicePositive(t.pct, budget);
    var slice := Slice(t.pct, budget);
    var tick := TenantTick(cfg, BrainFor(brains, (t.id, Active(t, st)), slice), Active(t, st), st);
    PrsBudget.CapsCoverTelemetry(tick);
    UnscaledExactly(Distinct(Active(t, st)), tick.Caps(), slice);
  }

  lemma SomeBelow(gpus: seq<int>, caps: map<int, real>, floor: real)
    requires Sum(gpus, caps) < Times(floor, |gpus|)
    ensures exists g :: g in gpus && At(caps, g) < floor
  {
    hide Sum, Times;
    if forall g :: g in gpus ==> At(caps, g) >= floor {
      var floors := map g | g in gpus :: floor;
      SumConstant(gpus, floors, floor);
      forall g | g in gpus ensures At(floors, g) <= At(caps, g) {
      }
      SumMonotone(gpus, floors, caps);
    }
  }

  /** Every GPU with a draw and a maximum that a tenant owns gets a cap. */
  lemma {:induction false} ActiveIsCapped(cfg: PrsConfig, domain: string, budget: real, brains: map<Key, SubBrain>,
      tenants: seq<TenantQuota>, st: DomainState, i: nat)
    requires cfg.Valid() && i < |tenants| && forall j :: 0 <= j < |tenants| ==> tenants[j].domain == domain
    ensures forall g :: g in Active(tenants[i], st) ==> g in RunTenants(cfg, domain, budget, brains, tenants, st).caps
  {
    hide Active, Slice, Sum, Distinct, Present, OwnCaps, TenantStep;
    var before, last := tenants[..|tenants| - 1], tenants[|tenants| - 1];
    var p := RunTenants(cfg, domain, budget, brains, before, st);
    StepShape(cfg, domain, budget, p, last, st);
    if i == |tenants| - 1 {
      OwnCapsCover(cfg, budget, p.brains, last, st);
    } else {
      ActiveIsCapped(cfg, domain, budget, brains, before, st, i);
    }
  }

  /** A slice below the floors of the tenant's GPUs always leaves one of them below the floor. */
  lemma InfeasibleSliceBreaksFloor(cfg: PrsConfig, quota: QuotaConfig, budget: real, brains: map<Key, SubBrain>,
      st: DomainState, i: nat)
    requires cfg.Valid() && quota.Valid() && Sound(quota.tenants, quota.domain) && budget > 0.0 && st.Valid()
    requires i < |quota.tenants|
    requires Slice(quota.tenants[i].pct, budget) < Times(cfg.minCap, |Distinct(Active(quota.tenants[i], st))|)
    ensures var caps := Allocate(cfg, quota, quota.domain, budget, brains, st).caps;
            exists g :: g in Active(quota.tenants[i], st) && g in caps && At(caps, g) < cfg.minCap
  {
    ActiveIsCapped(cfg, quota.domain, budget, brains, quota.tenants, st, i);
    AllocateKeepsKeys(cfg, quota, budget, brains, st);
    hide Allocate, RunTenants, Active, Distinct, Slice, Sum, Times;
    TenantWithinSlice(cfg, quota, budget, brains, st, i);
    SomeBelow(Distinct(Active(quota.tenants[i], st)), Allocate(cfg, quota, quota.domain, budget, brains, st).caps, cfg.minCap);
  }

  lemma AllocateKeepsKeys(cfg: PrsConfig, quota: QuotaConfig, budget: real, brains: map<Key, SubBrain>, st: DomainState)
    ensures RunTenants(cfg, quota.domain, budget, brains, quota.tenants, st).caps.Keys
         <= Allocate(cfg, quota, quota.domain, budget, brains, st).caps.Keys
  {
    hide RunTenants, ShareRest;
  }

  /** One tenant with a tenth of 1000 W and one busy GPU. */
  ghost function SmallTenant(): TenantQuota {
    TenantQuota("t", "d", [0], 0.1)
  }

  /** PRS asks for the floor of 200 W, and the tenant gets 100 W at most: the slice wins. */
  lemma FloorDoesNotWin()
    ensures var busy := PrsBudget.LoneBusyGpu();
            var quota := QuotaConfig("d", [SmallTenant()]);
            && quota.Valid() && Slice(0.1, 1000.0) == 100.0
            && TenantTick(busy.cfg, BrainFor(map[], ("t", [0]), 100.0), [0], busy.st) == busy
            && Sum([0], busy.Caps()) == 200.0
            && 0 in Allocate(busy.cfg, quota, "d", 1000.0, map[], busy.st).caps
            && At(Allocate(busy.cfg, quota, "d", 1000.0, map[], busy.st).caps, 0) <= 100.0 < busy.cfg.minCap
  {
    hide Tick.Caps, Allocate, RunTenants, Sum;
    var busy, t := PrsBudget.LoneBusyGpu(), SmallTenant();
    PrsBudget.ByConstructionFails();
    var quota := QuotaConfig("d", [t]);
    assert quota.tenants[..0] == [];
    assert SumPct(quota.tenants) == SumPct([]) + 0.1;
    OneGpu(busy.st);
    ActiveIsCapped(busy.cfg, "d", 1000.0, map[], quota.tenants, busy.st, 0);
    AllocateKeepsKeys(busy.cfg, quota, 1000.0, map[], busy.st);
    TenantWithinSlice(busy.cfg, quota, 1000.0, map[], busy.st, 0);
    SumOne(0, Allocate(busy.cfg, quota, "d", 1000.0, map[], busy.st).caps);
  }

  lemma OneGpu(st: DomainState)
    requires st == PrsBudget.LoneBusyGpu().st
    ensures Active(SmallTenant(), st) == [0] && Distinct([0]) == [0]
    ensures SubState([0], st) == st
  {
    assert [0][..0] == [];
    assert Distinct([0][..0]) == [];
    assert Inside([0][..0], {0}) == [];
    assert st.draws.Keys * st.maxCaps.Keys == {0};
    var sub := SubState([0], st);
    assert sub.draws == st.draws && sub.caps == st.caps && sub.maxCaps == st.maxCaps;
  }
}
