/** How far the caps of one PRS tick can miss the budget. */
module PrsBudget {
  import opened Sums
  import opened Prs

  /** What the clamp up to `minCap` adds to each share. */
  ghost function LiftOf(minCap: real, shares: map<int, real>): map<int, real> {
    map g | g in shares :: Max(0.0, minCap - shares[g])
  }

  /** What the hardware maximum takes from each share. */
  ghost function CutOf(minCap: real, fallback: real, shares: map<int, real>, st: DomainState): map<int, real> {
    map g | g in shares :: Max(0.0, shares[g] - Max(minCap, st.HwMax(g, fallback)))
  }

  ghost function Lift(t: Tick): real {
    Sum(t.Hot(), LiftOf(t.cfg.minCap, t.Shares()))
  }

  ghost function Cut(t: Tick): real {
    Sum(t.Hot(), CutOf(t.cfg.minCap, t.Fallback(), t.Shares(), t.st))
  }

  lemma EqualParts(n: nat, limit: real)
    requires n > 0
    ensures Times(EqualPart(n, limit), n) == limit
  {
    assert 1.0 / n as real * n as real == 1.0;
    assert (1.0 / n as real * n as real) * limit == limit;
  }

  /** The unclamped shares use up the hot budget exactly. */
  lemma SharesUseHotBudget(ewma: map<int, real>, hot: seq<int>, hotBudget: real)
    requires hot != []
    ensures Sum(hot, ShareAll(ewma, hot, hotBudget)) == hotBudget
  {
    hide ProRata, EqualPart;
    var shares := ShareAll(ewma, hot, hotBudget);
    if Sum(hot, ewma) > 0.0 {
      forall g | g in hot ensures At(shares, g) == ProRata(At(ewma, g), hotBudget, Sum(hot, ewma)) {
      }
      SumProRata(hot, ewma, shares, hotBudget);
    } else {
      forall g | g in hot ensures At(shares, g) == EqualPart(|hot|, hotBudget) {
      }
      SumConstant(hot, shares, EqualPart(|hot|, hotBudget));
      EqualParts(|hot|, hotBudget);
    }
  }

  lemma TargetsSplit(t: Tick)
    ensures Sum(t.st.gpus, t.Targets()) == t.IdleTotal() + Sum(t.Hot(), t.HotCaps())
  {
    hide HotSet, FloorAll, ShareAll, ClampAll, SmoothAll, Quotient;
    var hotSet := HotSet(t.cfg.threshold, t.Fallback(), t.Ewma(), t.st);
    SumPartition(t.st.gpus, hotSet, t.Targets());
    forall g | g in t.Idle() ensures At(t.Targets(), g) == At(t.IdleCaps(), g) {
      assert g !in t.Hot();
    }
    SumSame(t.Idle(), t.Targets(), t.IdleCaps());
    forall g | g in t.Hot() ensures At(t.Targets(), g) == At(t.HotCaps(), g) {
      assert g in t.HotCaps();
    }
    SumSame(t.Hot(), t.Targets(), t.HotCaps());
  }

  lemma ClampIdentity(minCap: real, hwMax: real, share: real)
    ensures Max(minCap, Min(hwMax, share)) + Max(0.0, share - Max(minCap, hwMax)) == share + Max(0.0, minCap - share)
  {
  }

  lemma ClampBalance(cfg: PrsConfig, fallback: real, hot: seq<int>, shares: map<int, real>, st: DomainState)
    requires forall g :: g in hot ==> g in shares
    ensures Sum(hot, ClampAll(cfg, fallback, shares, st))
            == Sum(hot, shares) + Sum(hot, LiftOf(cfg.minCap, shares)) - Sum(hot, CutOf(cfg.minCap, fallback, shares, st))
  {
    var caps, lift, cut := ClampAll(cfg, fallback, shares, st), LiftOf(cfg.minCap, shares), CutOf(cfg.minCap, fallback, shares, st);
    hide Min, Max, Sum;
    var raised := map g | g in shares :: shares[g] + lift[g];
    forall g | g in hot
      ensures At(raised, g) == At(shares, g) + At(lift, g)
      ensures At(raised, g) == At(caps, g) + At(cut, g)
    {
      ClampIdentity(cfg.minCap, st.HwMax(g, fallback), shares[g]);
    }
    SumPlus(hot, shares, lift, raised);
    SumPlus(hot, caps, cut, raised);
  }

  lemma LiftAndCutNonNegative(t: Tick)
    ensures Lift(t) >= 0.0 && Cut(t) >= 0.0
  {
    hide Tick.Hot, Tick.Shares;
    forall g | g in t.Hot()
      ensures At(LiftOf(t.cfg.minCap, t.Shares()), g) >= 0.0
      ensures At(CutOf(t.cfg.minCap, t.Fallback(), t.Shares(), t.st), g) >= 0.0
    {
    }
    SumNonNegative(t.Hot(), LiftOf(t.cfg.minCap, t.Shares()));
    SumNonNegative(t.Hot(), CutOf(t.cfg.minCap, t.Fallback(), t.Shares(), t.st));
  }

  /** The account of one tick before the raise limiter. With a hot GPU present, the caps come to the budget,
      or to the idle floors if those alone exceed it, plus everything the floor lifts, minus everything the
      hardware maxima cut. */
  lemma TargetsBalance(t: Tick)
    requires t.Hot() != []
    ensures Sum(t.st.gpus, t.Targets())
            == Max(t.budget, t.IdleTotal()) + Lift(t) - Cut(t)
  {
    hide HotSet, FloorAll, ShareAll, ClampAll, SmoothAll, Quotient, LiftOf, CutOf;
    TargetsSplit(t);
    ClampBalance(t.cfg, t.Fallback(), t.Hot(), t.Shares(), t.st);
    SharesUseHotBudget(t.Ewma(), t.Hot(), t.HotBudget());
  }

  lemma AllIdle(t: Tick)
    requires t.Hot() == []
    ensures Sum(t.st.gpus, t.Targets()) == t.IdleTotal()
  {
    TargetsSplit(t);
  }

  /** The raise limiter only ever lowers a target. */
  lemma LimiterLowers(t: Tick)
    ensures t.Caps().Keys == t.Targets().Keys
    ensures forall g :: g in t.Caps() ==> t.Caps()[g] <= t.Targets()[g]
    ensures Sum(t.st.gpus, t.Caps()) <= Sum(t.st.gpus, t.Targets())
  {
    hide HotSet, FloorAll, ShareAll, ClampAll, SmoothAll, Quotient;
    forall g | g in t.st.gpus ensures At(t.Caps(), g) <= At(t.Targets(), g) {
    }
    SumMonotone(t.st.gpus, t.Caps(), t.Targets());
  }

  /** Every GPU with a draw gets a cap, and nothing else does. */
  lemma CapsCoverTelemetry(t: Tick)
    requires t.Valid()
    ensures forall g :: g in t.Caps() <==> g in t.st.gpus
    ensures t.Caps().Keys == t.st.draws.Keys
  {
    hide HotSet, FloorAll, ShareAll, ClampAll, SmoothAll, Quotient;
    hide Inside, Outside, LimitAll;
    var hotSet := HotSet(t.cfg.threshold, t.Fallback(), t.Ewma(), t.st);
    assert forall g :: g in t.Caps() <==> g in t.Targets();
    assert forall g :: g in t.Targets() <==> g in Inside(t.st.gpus, hotSet) || g in Outside(t.st.gpus, hotSet);
    assert forall g :: g in t.Caps().Keys <==> g in t.st.draws.Keys;
  }

  lemma EwmaCoversTelemetry(t: Tick)
    ensures forall g :: g in t.st.draws ==> g in t.Ewma()
  {
  }

  /** The caps exceed the larger of budget and idle floors by at most what the floor lifts hot GPUs. */
  lemma BudgetBound(t: Tick)
    ensures Sum(t.st.gpus, t.Caps()) <= Max(t.budget, t.IdleTotal()) + Lift(t)
  {
    hide HotSet, FloorAll, ShareAll, ClampAll, SmoothAll, Quotient, LimitAll, LiftOf, CutOf;
    LimiterLowers(t);
    LiftAndCutNonNegative(t);
    if t.Hot() == [] {
      AllIdle(t);
    } else {
      TargetsBalance(t);
    }
  }

  lemma NothingLifted(hot: seq<int>, minCap: real, shares: map<int, real>)
    requires forall g :: g in hot ==> g in shares && At(shares, g) >= minCap
    ensures Sum(hot, LiftOf(minCap, shares)) == 0.0
  {
    forall g | g in hot ensures At(LiftOf(minCap, shares), g) == 0.0 {
      assert At(shares, g) == shares[g];
    }
    SumConstant(hot, LiftOf(minCap, shares), 0.0);
  }

  /** The caps fit when the idle floors fit and no hot share is below the floor. */
  lemma WithinBudget(t: Tick)
    requires t.IdleTotal() <= t.budget
    requires forall g :: g in t.Hot() ==> At(t.Shares(), g) >= t.cfg.minCap
    ensures Sum(t.st.gpus, t.Caps()) <= t.budget
  {
    hide HotSet, FloorAll, ShareAll, ClampAll, SmoothAll, Quotient, LimitAll;
    BudgetBound(t);
    NothingLifted(t.Hot(), t.cfg.minCap, t.Shares());
  }

  /** What the raise limiter holds back of each target. */
  ghost function HeldOf(rate: real, last: map<int, real>, st: DomainState, targets: map<int, real>): map<int, real> {
    map g | g in targets ::
      if rate > 0.0 && Previous(last, st, g).Some? then Max(0.0, targets[g] - (Previous(last, st, g).value + rate)) else 0.0
  }

  ghost function Held(t: Tick): real {
    Sum(t.st.gpus, HeldOf(t.cfg.raiseRate, t.mem.lastCaps, t.st, t.Targets()))
  }

  lemma LimiterBalance(t: Tick)
    requires t.cfg.Valid()
    ensures Sum(t.st.gpus, t.Targets()) == Sum(t.st.gpus, t.Caps()) + Held(t)
    ensures Held(t) >= 0.0
  {
    hide Tick.Targets;
    var held := HeldOf(t.cfg.raiseRate, t.mem.lastCaps, t.st, t.Targets());
    forall g | g in t.st.gpus
      ensures At(t.Targets(), g) == At(t.Caps(), g) + At(held, g)
      ensures At(held, g) >= 0.0
    {
    }
    SumPlus(t.st.gpus, t.Caps(), held, t.Targets());
    SumNonNegative(t.st.gpus, held);
  }

  /** How far the caps overrun the budget: idle overdraft and lifted floors, less what hardware maxima and the raise
      limiter take back. */
  ghost function Excess(t: Tick): real {
    Max(0.0, t.IdleTotal() - t.budget) + Lift(t) - Cut(t) - Held(t)
  }

  lemma ExcessOverBudget(t: Tick)
    requires t.cfg.Valid()
    ensures Sum(t.st.gpus, t.Caps()) <= t.budget + Excess(t)
    ensures t.Hot() != [] || t.IdleTotal() >= t.budget ==> Sum(t.st.gpus, t.Caps()) == t.budget + Excess(t)
    ensures t.Hot() == [] ==> Lift(t) == Cut(t) == 0.0
  {
    hide HotSet, FloorAll, ShareAll, ClampAll, SmoothAll, Quotient, LimitAll, LiftOf, CutOf, HeldOf;
    LimiterBalance(t);
    if t.Hot() == [] {
      AllIdle(t);
    } else {
      TargetsBalance(t);
    }
  }

  /** Exactly when a tick stays within `slack` of its budget; with no slack, when it keeps it: the hardware maxima and
      the limiter must take back the idle overdraft and everything the floor lifts. */
  lemma WithinSlackExactly(t: Tick, slack: real)
    requires t.cfg.Valid() && slack >= 0.0
    ensures Sum(t.st.gpus, t.Caps()) <= t.budget + slack <==> Excess(t) <= slack
  {
    hide Lift, Cut, Held, Tick.IdleTotal, Tick.Hot, Tick.Caps;
    ExcessOverBudget(t);
    LimiterBalance(t);
  }

  lemma WithinBudgetExactly(t: Tick)
    requires t.cfg.Valid()
    ensures Sum(t.st.gpus, t.Caps()) <= t.budget
            <==> Max(0.0, t.IdleTotal() - t.budget) + Lift(t) <= Cut(t) + Held(t)
  {
    hide Lift, Cut, Held, Tick.IdleTotal, Tick.Hot, Tick.Caps;
    WithinSlackExactly(t, 0.0);
  }

  /** The comment on the caps' total, "within budget by construction", fails: a lone hot GPU is lifted to the floor
      above any budget smaller than it. */
  lemma FloorBreaksSmallBudgets(t: Tick, g: int)
    requires t.Valid() && t.st.gpus == [g] && t.Hot() == [g]
    requires t.cfg.raiseRate == 0.0 && t.budget < t.cfg.minCap
    requires 0.0 <= t.budget && t.cfg.minCap <= t.st.HwMax(g, t.Fallback())
    ensures Sum(t.st.gpus, t.Caps()) == t.cfg.minCap > t.budget
  {
    hide HotSet, FloorAll, ClampAll, SmoothAll, Quotient;
    assert t.st.gpus[..0] == [];
    var shares := t.Shares();
    SharesUseHotBudget(t.Ewma(), t.Hot(), t.HotBudget());
    assert t.Hot()[..0] == [];
    assert At(shares, g) == t.budget;
    CapOfLoneShare(t, g);
  }

  lemma CapOfLoneShare(t: Tick, g: int)
    requires t.Hot() == [g] && At(t.Shares(), g) < t.cfg.minCap <= t.st.HwMax(g, t.Fallback())
    requires t.cfg.raiseRate == 0.0
    ensures At(t.Caps(), g) == t.cfg.minCap
  {
    hide HotSet, FloorAll, ShareAll, SmoothAll, Quotient;
    assert g in t.Hot() && g in t.Shares();
  }

  /** One 100 W GPU at full draw under a 100 W budget, with the default floor of 200 W. */
  ghost function LoneBusyGpu(): Tick {
    Tick(PrsConfig(200.0, 0.3, 0.6, 0.3, 0.0), 100.0, PrsMemory(map[], map[]),
         DomainState([0], map[0 := 100.0], map[0 := 100.0], map[0 := 700.0], {}))
  }

  lemma ByConstructionFails()
    ensures LoneBusyGpu().Valid() && Sum(LoneBusyGpu().st.gpus, LoneBusyGpu().Caps()) == 200.0 > LoneBusyGpu().budget
  {
    LoneBusyGpuIsHot();
    hide Tick.Hot, Tick.Caps;
    FloorBreaksSmallBudgets(LoneBusyGpu(), 0);
  }

  lemma LoneBusyGpuIsHot()
    ensures LoneBusyGpu().Hot() == [0]
  {
    var t := LoneBusyGpu();
    assert At(t.Ewma(), 0) == 100.0;
    var hotSet := HotSet(t.cfg.threshold, t.Fallback(), t.Ewma(), t.st);
    assert 0 in hotSet;
    hide HotSet, SmoothAll;
    assert t.st.gpus[..0] == [];
    assert t.Hot() == Inside([], hotSet) + [0] == [0];
  }
}
