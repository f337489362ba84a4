/** Tenants do not interfere: what a tenant's GPUs get depends on that tenant's telemetry alone. */
module QuotaIsolation {
  import opened Sums
  import opened Prs
  import opened Quota
  import opened QuotaProofs

  ghost predicate SameEntry<V>(m: map<int, V>, m': map<int, V>, g: int) {
    (g in m <==> g in m') && (g in m ==> m[g] == m'[g])
  }

  ghost predicate SameTelemetry(t: TenantQuota, st: DomainState, st': DomainState) {
    forall g :: g in t.gpus ==>
      SameEntry(st.draws, st'.draws, g) && SameEntry(st.caps, st'.caps, g) && SameEntry(st.maxCaps, st'.maxCaps, g)
  }

  ghost predicate SameCaps(gpus: seq<int>, caps: map<int, real>, caps': map<int, real>) {
    forall g :: g in gpus ==> SameEntry(caps, caps', g)
  }

  /** A cache key only `t` can produce, its GPU set being non-empty and its own. */
  ghost predicate OwnKey(t: TenantQuota, key: Key) {
    key.0 == t.id && key.1 != [] && forall g :: g in key.1 ==> g in t.gpus
  }

  ghost predicate SameBrains(t: TenantQuota, brains: map<Key, SubBrain>, brains': map<Key, SubBrain>) {
    forall key :: OwnKey(t, key) ==> (key in brains <==> key in brains') && (key in brains ==> brains[key] == brains'[key])
  }

  lemma {:induction false} InsideAgrees(gs: seq<int>, s: set<int>, s': set<int>)
    requires forall g :: g in gs ==> (g in s <==> g in s')
    ensures Inside(gs, s) == Inside(gs, s')
  {
    if gs == [] {
    } else {
      InsideAgrees(gs[..|gs| - 1], s, s');
      var last := gs[|gs| - 1];
      assert last in gs;
    }
  }

  lemma SameActive(t: TenantQuota, st: DomainState, st': DomainState)
    requires SameTelemetry(t, st, st')
    ensures Active(t, st) == Active(t, st')
  {
    InsideAgrees(t.gpus, st.draws.Keys * st.maxCaps.Keys, st'.draws.Keys * st'.maxCaps.Keys);
  }

  lemma SameSubState(t: TenantQuota, st: DomainState, st': DomainState)
    requires SameTelemetry(t, st, st')
    ensures Active(t, st) == Active(t, st') && SubState(Active(t, st), st) == SubState(Active(t, st'), st')
  {
    hide Active, Distinct;
    SameActive(t, st, st');
    var active := Active(t, st);
    var sub, sub' := SubState(active, st), SubState(active, st');
    forall g | g in active
      ensures sub.draws[g] == sub'.draws[g] && sub.caps[g] == sub'.caps[g] && sub.maxCaps[g] == sub'.maxCaps[g]
    {
      assert SameEntry(st.draws, st'.draws, g) && SameEntry(st.maxCaps, st'.maxCaps, g) && SameEntry(st.caps, st'.caps, g);
    }
    assert sub.draws == sub'.draws && sub.caps == sub'.caps && sub.maxCaps == sub'.maxCaps;
  }

  /** The tenant's own step does the same in both runs. */
  lemma OwnStepAgrees(cfg: PrsConfig, domain: string, budget: real, p: Progress, p': Progress, t: TenantQuota,
      st: DomainState, st': DomainState)
    requires SameTelemetry(t, st, st') && SameBrains(t, p.brains, p'.brains) && SameCaps(t.gpus, p.caps, p'.caps)
    ensures var q, q' := TenantStep(cfg, domain, budget, p, t, st), TenantStep(cfg, domain, budget, p', t, st');
            SameBrains(t, q.brains, q'.brains) && SameCaps(t.gpus, q.caps, q'.caps)
  {
    hide Active, Distinct, Slice, Renormalised, SubState, Tick.Caps, Tick.Ewma, Sum;
    SameSubState(t, st, st');
    var key := (t.id, Active(t, st));
    if t.domain == domain && Active(t, st) != [] {
      assert OwnKey(t, key);
    }
  }

  /** Another tenant's step touches neither the tenant's brains nor its caps. */
  lemma OtherStepIsInvisible(cfg: PrsConfig, domain: string, budget: real, p: Progress, t: TenantQuota,
      u: TenantQuota, st: DomainState)
    requires cfg.Valid() && Disjoint(t.gpus, u.gpus)
    ensures var q := TenantStep(cfg, domain, budget, p, u, st);
            SameBrains(t, q.brains, p.brains) && SameCaps(t.gpus, q.caps, p.caps)
  {
    hide Active, Distinct, Slice, Renormalised, SubState, Tick.Caps, Tick.Ewma, Sum, Present;
    if u.domain == domain && Active(u, st) != [] {
      var g := Active(u, st)[0];
      assert g in Active(u, st);
      assert !OwnKey(t, (u.id, Active(u, st)));
      StepShape(cfg, domain, budget, p, u, st);
      OwnCapsCover(cfg, budget, p.brains, u, st);
    }
  }

  lemma {:induction false} TenantLoopAgrees(cfg: PrsConfig, domain: string, budget: real,
      brains: map<Key, SubBrain>, brains': map<Key, SubBrain>,
      tenants: seq<TenantQuota>, st: DomainState, st': DomainState, t: TenantQuota)
    requires cfg.Valid() && SameTelemetry(t, st, st') && SameBrains(t, brains, brains')
    requires forall i :: 0 <= i < |tenants| ==> tenants[i] == t || Disjoint(t.gpus, tenants[i].gpus)
    ensures var p, p' := RunTenants(cfg, domain, budget, brains, tenants, st), RunTenants(cfg, domain, budget, brains', tenants, st');
            SameBrains(t, p.brains, p'.brains) && SameCaps(t.gpus, p.caps, p'.caps)
  {
    hide TenantStep;
    if tenants == [] {
    } else {
      var before, last := tenants[..|tenants| - 1], tenants[|tenants| - 1];
      TenantLoopAgrees(cfg, domain, budget, brains, brains', before, st, st', t);
      var p, p' := RunTenants(cfg, domain, budget, brains, before, st), RunTenants(cfg, domain, budget, brains', before, st');
      if last == t {
        OwnStepAgrees(cfg, domain, budget, p, p', t, st, st');
      } else {
        OtherStepIsInvisible(cfg, domain, budget, p, t, last, st);
        OtherStepIsInvisible(cfg, domain, budget, p', t, last, st');
      }
    }
  }

  /** Leftover budget never reaches a tenant's GPU. */
  lemma RestAvoidsTenants(cfg: PrsConfig, quota: QuotaConfig, budget: real, brains: map<Key, SubBrain>,
      st: DomainState, i: nat)
    requires cfg.Valid() && quota.Valid() && Sound(quota.tenants, quota.domain) && st.Valid() && i < |quota.tenants|
    ensures SameCaps(quota.tenants[i].gpus, Allocate(cfg, quota, quota.domain, budget, brains, st).caps,
                     RunTenants(cfg, quota.domain, budget, brains, quota.tenants, st).caps)
  {
    hide RunTenants, Slice, Sum, Quotient, ShareRest;
    AllocationClaims(cfg, quota, budget, brains, st);
    var p := RunTenants(cfg, quota.domain, budget, brains, quota.tenants, st);
    RestKeys(Unassigned(p, st), Max(0.0, budget - p.used), st);
    forall g | g in quota.tenants[i].gpus
      ensures SameEntry(Allocate(cfg, quota, quota.domain, budget, brains, st).caps, p.caps, g)
    {
      assert Owned(quota.tenants, g);
    }
  }

  // ----- Runs -----

  ghost function BrainsAfter(cfg: PrsConfig, quota: QuotaConfig, budget: real, brains: map<Key, SubBrain>,
      run: seq<DomainState>): map<Key, SubBrain> {
    if run == [] then brains
    else Allocate(cfg, quota, quota.domain, budget, BrainsAfter(cfg, quota, budget, brains, run[..|run| - 1]), run[|run| - 1]).brains
  }

  /** The caps of the last tick of a run. */
  ghost function CapsAfter(cfg: PrsConfig, quota: QuotaConfig, budget: real, brains: map<Key, SubBrain>,
      run: seq<DomainState>): map<int, real>
    requires run != []
  {
    Allocate(cfg, quota, quota.domain, budget, BrainsAfter(cfg, quota, budget, brains, run[..|run| - 1]), run[|run| - 1]).caps
  }

  ghost predicate RunsAgreeOn(t: TenantQuota, run: seq<DomainState>, run': seq<DomainState>) {
    && |run| == |run'|
    && forall k :: 0 <= k < |run| ==> run[k].Valid() && run'[k].Valid() && SameTelemetry(t, run[k], run'[k])
  }

  lemma {:induction false} BrainsAgree(cfg: PrsConfig, quota: QuotaConfig, budget: real,
      brains: map<Key, SubBrain>, i: nat, run: seq<DomainState>, run': seq<DomainState>)
    requires cfg.Valid() && quota.Valid() && Sound(quota.tenants, quota.domain) && i < |quota.tenants|
    requires RunsAgreeOn(quota.tenants[i], run, run')
    ensures SameBrains(quota.tenants[i], BrainsAfter(cfg, quota, budget, brains, run), BrainsAfter(cfg, quota, budget, brains, run'))
  {
    hide RunTenants, Quotient, ShareRest, SameTelemetry;
    if run == [] {
    } else {
      var k := |run| - 1;
      BrainsAgree(cfg, quota, budget, brains, i, run[..k], run'[..k]);
      OthersAreDisjoint(quota, i);
      TenantLoopAgrees(cfg, quota.domain, budget, BrainsAfter(cfg, quota, budget, brains, run[..k]),
        BrainsAfter(cfg, quota, budget, brains, run'[..k]), quota.tenants, run[k], run'[k], quota.tenants[i]);
    }
  }

  lemma OthersAreDisjoint(quota: QuotaConfig, i: nat)
    requires quota.Valid() && i < |quota.tenants|
    ensures forall j :: 0 <= j < |quota.tenants| ==>
      quota.tenants[j] == quota.tenants[i] || Disjoint(quota.tenants[i].gpus, quota.tenants[j].gpus)
  {
    forall j | 0 <= j < |quota.tenants| && j != i ensures Disjoint(quota.tenants[i].gpus, quota.tenants[j].gpus) {
      if j < i {
        assert Disjoint(quota.tenants[j].gpus, quota.tenants[i].gpus);
      }
    }
  }

  /** Tenant non-interference: if two runs agree on one tenant's telemetry at every tick, its GPUs get
      identical caps at the last tick (so, taking prefixes, at every tick), whatever the others did. */
  lemma TenantsDoNotInterfere(cfg: PrsConfig, quota: QuotaConfig, budget: real, brains: map<Key, SubBrain>, i: nat,
      run: seq<DomainState>, run': seq<DomainState>)
    requires cfg.Valid() && quota.Valid() && Sound(quota.tenants, quota.domain) && i < |quota.tenants|
    requires run != [] && RunsAgreeOn(quota.tenants[i], run, run')
    ensures SameCaps(quota.tenants[i].gpus, CapsAfter(cfg, quota, budget, brains, run), CapsAfter(cfg, quota, budget, brains, run'))
  {
    hide RunTenants, Quotient, ShareRest, SameTelemetry, Allocate;
    var k := |run| - 1;
    var b, b' := BrainsAfter(cfg, quota, budget, brains, run[..k]), BrainsAfter(cfg, quota, budget, brains, run'[..k]);
    BrainsAgree(cfg, quota, budget, brains, i, run[..k], run'[..k]);
    OthersAreDisjoint(quota, i);
    TenantLoopAgrees(cfg, quota.domain, budget, b, b', quota.tenants, run[k], run'[k], quota.tenants[i]);
    RestAvoidsTenants(cfg, quota, budget, b, run[k], i);
    RestAvoidsTenants(cfg, quota, budget, b', run'[k], i);
  }

  // ----- Cached slices -----

  /** Every cached brain was built with the slice its tenant has now. */
  ghost predicate SlicesCurrent(quota: QuotaConfig, budget: real, brains: map<Key, SubBrain>) {
    forall i, key :: 0 <= i < |quota.tenants| && key in brains && OwnKey(quota.tenants[i], key) ==>
      brains[key].slice == Max(0.0, Slice(quota.tenants[i].pct, budget))
  }

  lemma StepKeepsSlicesCurrent(cfg: PrsConfig, quota: QuotaConfig, budget: real, p: Progress, st: DomainState, i: nat)
    requires cfg.Valid() && quota.Valid() && i < |quota.tenants| && SlicesCurrent(quota, budget, p.brains)
    ensures SlicesCurrent(quota, budget, TenantStep(cfg, quota.domain, budget, p, quota.tenants[i], st).brains)
  {
    hide Active, Distinct, Slice, Renormalised, SubState, Tick.Caps, Tick.Ewma, Sum, Present;
    var t := quota.tenants[i];
    var key := (t.id, Active(t, st));
    if Active(t, st) != [] {
      assert OwnKey(t, key);
      var g := key.1[0];
      assert g in key.1;
      forall j | 0 <= j < |quota.tenants| && OwnKey(quota.tenants[j], key) ensures quota.tenants[j] == t {
        OthersAreDisjoint(quota, j);
        assert g in quota.tenants[j].gpus && g in t.gpus;
      }
    }
  }

  lemma {:induction false} LoopKeepsSlicesCurrent(cfg: PrsConfig, quota: QuotaConfig, budget: real,
      brains: map<Key, SubBrain>, k: nat, st: DomainState)
    requires cfg.Valid() && quota.Valid() && k <= |quota.tenants| && SlicesCurrent(quota, budget, brains)
    ensures SlicesCurrent(quota, budget, RunTenants(cfg, quota.domain, budget, brains, quota.tenants[..k], st).brains)
  {
    hide TenantStep, SlicesCurrent;
    if k == 0 {
    } else {
      LoopKeepsSlicesCurrent(cfg, quota, budget, brains, k - 1, st);
      assert quota.tenants[..k][..k - 1] == quota.tenants[..k - 1];
      StepKeepsSlicesCurrent(cfg, quota, budget, RunTenants(cfg, quota.domain, budget, brains, quota.tenants[..k - 1], st), st, k - 1);
    }
  }

  /** Starting from an empty cache, no run ever leaves a stale slice behind. */
  lemma {:induction false} SlicesNeverGoStale(cfg: PrsConfig, quota: QuotaConfig, budget: real, run: seq<DomainState>)
    requires cfg.Valid() && quota.Valid()
    ensures SlicesCurrent(quota, budget, BrainsAfter(cfg, quota, budget, map[], run))
  {
    hide RunTenants;
    if run == [] {
    } else {
      SlicesNeverGoStale(cfg, quota, budget, run[..|run| - 1]);
      LoopKeepsSlicesCurrent(cfg, quota, budget, BrainsAfter(cfg, quota, budget, map[], run[..|run| - 1]), |quota.tenants|, run[|run| - 1]);
      assert quota.tenants[..|quota.tenants|] == quota.tenants;
    }
  }
}
