/** Slice bounds and tenant isolation of the quota brain. */
module QuotaProofs {
  import opened Sums
  import opened Prs
  import opened Quota
  import PrsBudget

  /** A validated configuration whose tenants all belong to `domain`. */
  ghost predicate Sound(tenants: seq<TenantQuota>, domain: string) {
    && (forall i :: 0 <= i < |tenants| ==> tenants[i].Valid() && tenants[i].domain == domain)
    && (forall i, j :: 0 <= i < j < |tenants| ==> Disjoint(tenants[i].gpus, tenants[j].gpus))
  }

  lemma SoundPrefix(tenants: seq<TenantQuota>, domain: string)
    requires Sound(tenants, domain) && tenants != []
    ensures Sound(tenants[..|tenants| - 1], domain)
  {
  }

  lemma LastIsSound(tenants: seq<TenantQuota>, domain: string)
    requires Sound(tenants, domain) && tenants != []
    ensures tenants[|tenants| - 1].Valid() && tenants[|tenants| - 1].domain == domain
  {
  }

  /** What one tenant adds in one tick, when it has active GPUs. */
  ghost function OwnCaps(cfg: PrsConfig, budget: real, brains: map<Key, SubBrain>, t: TenantQuota,
      st: DomainState): map<int, real> {
    var active, slice := Active(t, st), Slice(t.pct, budget);
    if active == [] then map[]
    else Renormalised(Distinct(active), TenantTick(cfg, BrainFor(brains, (t.id, active), slice), active, st).Caps(), slice)
  }

  lemma OwnCapsCover(cfg: PrsConfig, budget: real, brains: map<Key, SubBrain>, t: TenantQuota, st: DomainState)
    requires cfg.Valid()
    ensures forall g :: g in OwnCaps(cfg, budget, brains, t, st) <==> g in Active(t, st)
  {
    hide Active, SubState, BrainFor, Tick.Caps, Slice, Sum, Distinct;
    var active, slice := Active(t, st), Slice(t.pct, budget);
    if active != [] {
      PrsBudget.CapsCoverTelemetry(TenantTick(cfg, BrainFor(brains, (t.id, active), slice), active, st));
    }
  }

  lemma RenormalisedFits(gpus: seq<int>, caps: map<int, real>, slice: real)
    requires slice > 0.0 && forall g :: g in gpus ==> g in caps
    ensures Sum(gpus, Renormalised(gpus, caps, slice)) <= slice
  {
    hide ProRata;
    if Sum(gpus, caps) > slice {
      forall g | g in gpus ensures At(Renormalised(gpus, caps, slice), g) == ProRata(At(caps, g), slice, Sum(gpus, caps)) {
      }
      SumProRata(gpus, caps, Renormalised(gpus, caps, slice), slice);
    }
  }

  lemma OwnCapsFit(cfg: PrsConfig, budget: real, brains: map<Key, SubBrain>, t: TenantQuota, st: DomainState)
    requires cfg.Valid() && t.Valid() && budget > 0.0
    ensures Slice(t.pct, budget) > 0.0
    ensures Sum(Distinct(Active(t, st)), OwnCaps(cfg, budget, brains, t, st)) <= Slice(t.pct, budget)
  {
    hide Active, SubState, BrainFor, Tick.Caps, Renormalised;
    SlicePositive(t.pct, budget);
    var active, slice := Active(t, st), Slice(t.pct, budget);
    if active != [] {
      var tick := TenantTick(cfg, BrainFor(brains, (t.id, active), slice), active, st);
      PrsBudget.CapsCoverTelemetry(tick);
      RenormalisedFits(Distinct(active), tick.Caps(), slice);
    }
  }

  lemma SlicePositive(pct: real, budget: real)
    requires pct > 0.0 && budget > 0.0
    ensures Slice(pct, budget) > 0.0
  {
  }

  lemma SliceAdds(a: real, b: real, budget: real)
    ensures Slice(a + b, budget) == Slice(a, budget) + Slice(b, budget)
  {
  }

  ghost predicate Owned(tenants: seq<TenantQuota>, g: int) {
    exists j :: 0 <= j < |tenants| && g in tenants[j].gpus
  }

  /** The tenant loop claims exactly the tenants' reporting GPUs, caps some of them, and has used what it capped. */
  ghost predicate Claims(p: Progress, tenants: seq<TenantQuota>, st: DomainState) {
    && NoDup(p.keys) && (forall g :: g in p.keys <==> g in p.caps)
    && (forall g :: g in p.caps ==> g in st.maxCaps && g in p.claimed)
    && (forall g :: g in p.claimed <==> g in st.draws && Owned(tenants, g))
    && p.used == Sum(p.keys, p.caps)
  }

  /** It keeps its books: what it has used stays within the slices handed out. */
  ghost predicate Books(p: Progress, tenants: seq<TenantQuota>, budget: real, st: DomainState) {
    Claims(p, tenants, st) && p.used <= Slice(SumPct(tenants), budget)
  }

  lemma NoDupAppend(ks: seq<int>, ls: seq<int>)
    requires NoDup(ks) && NoDup(ls) && forall g :: g in ls ==> g !in ks
    ensures NoDup(ks + ls)
    ensures forall g :: g in ks + ls <==> g in ks || g in ls
  {
    var all := ks + ls;
    forall i, j | 0 <= i < j < |all| ensures all[i] != all[j] {
      if i < |ks| <= j {
        assert all[j] in ls;
      }
    }
  }

  lemma MergeCaps(keys: seq<int>, caps: map<int, real>, gpus: seq<int>, own: map<int, real>)
    requires NoDup(keys) && NoDup(gpus) && forall g :: g in gpus ==> g !in keys
    requires (forall g :: g in keys <==> g in caps) && forall g :: g in gpus <==> g in own
    ensures NoDup(keys + gpus) && forall g :: g in keys + gpus <==> g in caps + own
    ensures Sum(keys + gpus, caps + own) == Sum(keys, caps) + Sum(gpus, own)
  {
    NoDupAppend(keys, gpus);
    SumAppend(keys, gpus, caps + own);
    forall g | g in keys ensures At(caps + own, g) == At(caps, g) {
    }
    SumSame(keys, caps + own, caps);
    forall g | g in gpus ensures At(caps + own, g) == At(own, g) {
    }
    SumSame(gpus, caps + own, own);
  }

  lemma StepClaims(p: Progress, tenants: seq<TenantQuota>, st: DomainState, domain: string)
    requires tenants != [] && Sound(tenants, domain) && Claims(p, tenants[..|tenants| - 1], st)
    ensures forall g ::
      g in p.claimed + Present(tenants[|tenants| - 1], st) <==> g in st.draws && Owned(tenants, g)
    ensures forall g :: g in tenants[|tenants| - 1].gpus ==> g !in p.claimed
  {
    hide Slice, Sum;
    var before, t := tenants[..|tenants| - 1], tenants[|tenants| - 1];
    forall g ensures g in p.claimed + Present(t, st) <==> g in st.draws && Owned(tenants, g) {
      assert tenants == before + [t];
      ClaimedBy(before, t, g);
    }
  }

  /** What one step adds, in a form that covers the tenant without active GPUs too. */
  lemma StepShape(cfg: PrsConfig, domain: string, budget: real, p: Progress, t: TenantQuota, st: DomainState)
    requires t.domain == domain
    ensures var q, own := TenantStep(cfg, domain, budget, p, t, st), OwnCaps(cfg, budget, p.brains, t, st);
            && q.claimed == p.claimed + Present(t, st)
            && q.caps == p.caps + own
            && q.keys == p.keys + Distinct(Active(t, st))
            && q.used == p.used + Sum(Distinct(Active(t, st)), own)
  {
    hide Slice, Renormalised, TenantTick, Present, BrainFor, Inside;
    if Active(t, st) == [] {
      assert p.caps + map[] == p.caps;
      assert Distinct([]) == [] && p.keys + [] == p.keys;
    }
  }

  lemma StepKeepsClaims(cfg: PrsConfig, domain: string, budget: real, p: Progress, tenants: seq<TenantQuota>,
      st: DomainState)
    requires cfg.Valid() && tenants != [] && Sound(tenants, domain) && Claims(p, tenants[..|tenants| - 1], st)
    ensures Claims(TenantStep(cfg, domain, budget, p, tenants[|tenants| - 1], st), tenants, st)
  {
    hide Active, Slice, Sum, Distinct, Present, NoDup, Owned, Sound, OwnCaps, TenantStep;
    var t := tenants[|tenants| - 1];
    LastIsSound(tenants, domain);
    StepShape(cfg, domain, budget, p, t, st);
    OwnCapsCover(cfg, budget, p.brains, t, st);
    StepClaims(p, tenants, st, domain);
    MergeCaps(p.keys, p.caps, Distinct(Active(t, st)), OwnCaps(cfg, budget, p.brains, t, st));
    ActivePresent(t, st);
  }

  lemma StepBooks(cfg: PrsConfig, domain: string, budget: real, p: Progress, tenants: seq<TenantQuota>, st: DomainState)
    requires cfg.Valid() && budget > 0.0 && tenants != [] && Sound(tenants, domain)
    requires Books(p, tenants[..|tenants| - 1], budget, st)
    ensures Books(TenantStep(cfg, domain, budget, p, tenants[|tenants| - 1], st), tenants, budget, st)
  {
    hide Active, Slice, Sum, Distinct, Present, Claims, Sound, OwnCaps, TenantStep;
    var t := tenants[|tenants| - 1];
    LastIsSound(tenants, domain);
    StepKeepsClaims(cfg, domain, budget, p, tenants, st);
    StepShape(cfg, domain, budget, p, t, st);
    OwnCapsFit(cfg, budget, p.brains, t, st);
    SliceAdds(SumPct(tenants[..|tenants| - 1]), t.pct, budget);
  }

  lemma ActivePresent(t: TenantQuota, st: DomainState)
    ensures forall g :: g in Active(t, st) ==> g in Present(t, st)
  {
  }

  lemma ClaimedBy(before: seq<TenantQuota>, t: TenantQuota, g: int)
    ensures Owned(before + [t], g) <==> g in t.gpus || Owned(before, g)
  {
    var all := before + [t];
    if g in t.gpus {
      assert g in all[|before|].gpus;
    } else if j :| 0 <= j < |before| && g in before[j].gpus {
      assert g in all[j].gpus;
    }
  }

  lemma {:induction false} LoopClaims(cfg: PrsConfig, domain: string, budget: real, brains: map<Key, SubBrain>,
      tenants: seq<TenantQuota>, st: DomainState)
    requires cfg.Valid() && Sound(tenants, domain)
    ensures Claims(RunTenants(cfg, domain, budget, brains, tenants, st), tenants, st)
  {
    hide TenantStep, Sound;
    if tenants == [] {
    } else {
      SoundPrefix(tenants, domain);
      LoopClaims(cfg, domain, budget, brains, tenants[..|tenants| - 1], st);
      StepKeepsClaims(cfg, domain, budget, RunTenants(cfg, domain, budget, brains, tenants[..|tenants| - 1], st), tenants, st);
    }
  }

  lemma {:induction false} BooksBalance(cfg: PrsConfig, domain: string, budget: real, brains: map<Key, SubBrain>,
      tenants: seq<TenantQuota>, st: DomainState)
    requires cfg.Valid() && budget > 0.0 && Sound(tenants, domain)
    ensures Books(RunTenants(cfg, domain, budget, brains, tenants, st), tenants, budget, st)
  {
    if tenants == [] {
      assert SumPct(tenants) == 0.0;
    } else {
      SoundPrefix(tenants, domain);
      BooksBalance(cfg, domain, budget, brains, tenants[..|tenants| - 1], st);
      StepBooks(cfg, domain, budget, RunTenants(cfg, domain, budget, brains, tenants[..|tenants| - 1], st), tenants, st);
    }
  }

  // ----- Slices -----

  /** The caps a tenant got in its own step survive the rest of the loop. */
  lemma {:induction false} OwnCapsSurvive(cfg: PrsConfig, domain: string, budget: real, brains: map<Key, SubBrain>,
      tenants: seq<TenantQuota>, st: DomainState, i: nat)
    requires cfg.Valid() && budget > 0.0 && Sound(tenants, domain) && i < |tenants|
    ensures Sum(Distinct(Active(tenants[i], st)), RunTenants(cfg, domain, budget, brains, tenants, st).caps)
            <= Slice(tenants[i].pct, budget)
  {
    hide Slice, Sum, Distinct, Renormalised, TenantTick, Active;
    var before, last := tenants[..|tenants| - 1], tenants[|tenants| - 1];
    var p := RunTenants(cfg, domain, budget, brains, before, st);
    var q := RunTenants(cfg, domain, budget, brains, tenants, st);
    var own, gpus := OwnCaps(cfg, budget, p.brains, last, st), Distinct(Active(tenants[i], st));
    assert q == TenantStep(cfg, domain, budget, p, last, st);
    OwnCapsCover(cfg, budget, p.brains, last, st);
    if i == |tenants| - 1 {
      OwnCapsFit(cfg, budget, p.brains, last, st);
      forall g | g in gpus ensures At(q.caps, g) == At(own, g) {
      }
      SumSame(gpus, q.caps, own);
    } else {
      SoundPrefix(tenants, domain);
      OwnCapsSurvive(cfg, domain, budget, brains, before, st, i);
      assert Disjoint(tenants[i].gpus, last.gpus);
      forall g | g in gpus ensures At(q.caps, g) == At(p.caps, g) {
        assert g in tenants[i].gpus;
      }
      SumSame(gpus, q.caps, p.caps);
    }
  }

  lemma RestFits(unassigned: seq<int>, rest: real, st: DomainState)
    requires rest >= 0.0
    ensures Sum(unassigned, ShareRest(unassigned, rest, st)) <= rest
  {
    hide Quotient;
    if unassigned == [] {
    } else {
      var share := Quotient(rest, |unassigned|);
      var shares := map g | g in unassigned :: share;
      SumConstant(unassigned, shares, share);
      QuotientTimes(rest, |unassigned|);
      forall g | g in unassigned ensures At(ShareRest(unassigned, rest, st), g) <= At(shares, g) {
      }
      SumMonotone(unassigned, ShareRest(unassigned, rest, st), shares);
    }
  }

  lemma QuotientTimes(total: real, n: nat)
    requires n > 0
    ensures Times(Quotient(total, n), n) == total
  {
  }

  lemma AllocationClaims(cfg: PrsConfig, quota: QuotaConfig, budget: real, brains: map<Key, SubBrain>, st: DomainState)
    requires cfg.Valid() && quota.Valid() && Sound(quota.tenants, quota.domain) && st.Valid()
    ensures var p, d := RunTenants(cfg, quota.domain, budget, brains, quota.tenants, st), Allocate(cfg, quota, quota.domain, budget, brains, st);
            && Claims(p, quota.tenants, st) && NoDup(d.keys)
            && (forall g :: g in d.keys <==> g in d.caps)
            && (forall g :: g in p.claimed ==> g !in Unassigned(p, st) && (g in p.caps <==> g in d.caps) && At(d.caps, g) == At(p.caps, g))
  {
    hide RunTenants, Slice, Quotient;
    LoopClaims(cfg, quota.domain, budget, brains, quota.tenants, st);
    var p := RunTenants(cfg, quota.domain, budget, brains, quota.tenants, st);
    forall g | g in Unassigned(p, st) ensures g !in p.keys {
      assert g !in p.claimed;
    }
    NoDupAppend(p.keys, Unassigned(p, st));
    RestKeys(Unassigned(p, st), Max(0.0, budget - p.used), st);
  }

  /** Every tenant stays within its slice, whatever PRS floors would ask for. */
  lemma TenantWithinSlice(cfg: PrsConfig, quota: QuotaConfig, budget: real, brains: map<Key, SubBrain>,
      st: DomainState, i: nat)
    requires cfg.Valid() && quota.Valid() && Sound(quota.tenants, quota.domain) && budget > 0.0 && st.Valid()
    requires i < |quota.tenants|
    ensures Sum(Distinct(Active(quota.tenants[i], st)), Allocate(cfg, quota, quota.domain, budget, brains, st).caps)
            <= Slice(quota.tenants[i].pct, budget)
  {
    hide RunTenants, Slice, Sum, Quotient, Distinct, ShareRest;
    AllocationClaims(cfg, quota, budget, brains, st);
    OwnCapsSurvive(cfg, quota.domain, budget, brains, quota.tenants, st, i);
    var p, d := RunTenants(cfg, quota.domain, budget, brains, quota.tenants, st), Allocate(cfg, quota, quota.domain, budget, brains, st);
    var gpus := Distinct(Active(quota.tenants[i], st));
    forall g | g in gpus ensures At(d.caps, g) == At(p.caps, g) {
      assert g in p.claimed;
    }
    SumSame(gpus, d.caps, p.caps);
  }

  /** All caps of the domain together, unassigned GPUs included, stay within the raw budget,
      up to the tolerance of the quota check. */
  lemma DomainWithinBudget(cfg: PrsConfig, quota: QuotaConfig, budget: real, brains: map<Key, SubBrain>,
      st: DomainState)
    requires cfg.Valid() && quota.Valid() && Sound(quota.tenants, quota.domain) && budget > 0.0 && st.Valid()
    ensures var d := Allocate(cfg, quota, quota.domain, budget, brains, st);
            && NoDup(d.keys) && (forall g :: g in d.keys <==> g in d.caps)
            && Sum(d.keys, d.caps) <= Slice(1.000001, budget)
  {
    hide RunTenants, Sum, Quotient, ShareRest, Slice, Unassigned, NoDup, SumPct;
    AllocationClaims(cfg, quota, budget, brains, st);
    BooksBalance(cfg, quota.domain, budget, brains, quota.tenants, st);
    var p, d := RunTenants(cfg, quota.domain, budget, brains, quota.tenants, st), Allocate(cfg, quota, quota.domain, budget, brains, st);
    var unassigned := Unassigned(p, st);
    var rest := ShareRest(unassigned, Max(0.0, budget - p.used), st);
    RestKeys(unassigned, Max(0.0, budget - p.used), st);
    UnassignedUnclaimed(p, st);
    forall g | g in unassigned ensures g !in p.keys {
      assert g !in p.claimed;
    }
    MergeCaps(p.keys, p.caps, unassigned, rest);
    RestFits(unassigned, Max(0.0, budget - p.used), st);
    SliceOrder(SumPct(quota.tenants), 1.000001, budget);
    SliceOrder(1.0, 1.000001, budget);
    WholeSlice(budget);
  }

  lemma UnassignedUnclaimed(p: Progress, st: DomainState)
    requires st.Valid()
    ensures NoDup(Unassigned(p, st)) && forall g :: g in Unassigned(p, st) ==> g !in p.claimed
  {
  }

  lemma SliceOrder(x: real, y: real, budget: real)
    requires x <= y && budget >= 0.0
    ensures Slice(x, budget) <= Slice(y, budget)
  {
  }

  lemma WholeSlice(budget: real)
    ensures Slice(1.0, budget) == budget
  {
  }

  lemma RestKeys(unassigned: seq<int>, rest: real, st: DomainState)
    ensures forall g :: g in ShareRest(unassigned, rest, st) <==> g in unassigned
  {
  }

  /** A tenant's GPU that reports a draw but no maximum gets no cap at all, so it cannot draw on leftover budget. */
  lemma PartialTelemetryGetsNoCap(cfg: PrsConfig, quota: QuotaConfig, budget: real, brains: map<Key, SubBrain>,
      st: DomainState, i: nat, g: int)
    requires cfg.Valid() && quota.Valid() && Sound(quota.tenants, quota.domain) && st.Valid()
    requires i < |quota.tenants| && g in quota.tenants[i].gpus && g in st.draws && g !in st.maxCaps
    ensures g !in Allocate(cfg, quota, quota.domain, budget, brains, st).caps
    ensures g !in Unassigned(RunTenants(cfg, quota.domain, budget, brains, quota.tenants, st), st)
  {
    hide RunTenants, Slice, Sum, Quotient, ShareRest;
    AllocationClaims(cfg, quota, budget, brains, st);
    assert g in RunTenants(cfg, quota.domain, budget, brains, quota.tenants, st).claimed;
  }
}
