/** What every brain promises about the caps it decides: their sum against the budget, and their sign. */
module BrainBudgets {
  import opened Sums
  import opened Prs
  import opened PrsBudget
  import opened Priority
  import opened Thermal
  import opened Controller
  import PriorityProofs
  import Tiers

  function TierTick(kind: Kind, t: Tick): PriorityTick
    requires kind.Tiered?
  {
    PriorityTick(t.Caps(), t.budget, kind.threshold, kind.floor, kind.tiers, t.st)
  }

  function HeatTick(kind: Kind, t: Tick): ThermalTick
    requires kind.Cooled?
  {
    ThermalTick(t.Caps(), kind.derate, kind.coolFloor, t.st)
  }

  ghost predicate Sensible(kind: Kind) {
    match kind
    case Plain => true
    case Tiered(_, _, floor) => floor >= 0.0
    case Cooled(derate, floor) => 0.0 <= derate < 1.0 && floor >= 0.0
  }

  /** Every GPU with a draw gets a cap, whichever brain decides. */
  lemma DecisionCovers(kind: Kind, t: Tick, g: int)
    requires t.Valid()
    ensures g in Decide(kind, t).caps <==> g in t.st.gpus
  {
    hide Tick.Caps, Tick.Ewma, LiftAll, ProRata, BackOffAll, HandOut, AtLeastFraction, Drops, Rooms, Surpluses;
    CapsCoverTelemetry(t);
  }

  // ----- The budget, exactly -----

  /** When the caps fit the budget: PRS does not overrun it, or priority preempts, or throttled GPUs give back the overrun. */
  ghost predicate Fits(kind: Kind, t: Tick) {
    match kind
    case Plain => Excess(t) <= 0.0
    case Tiered(_, _, _) => TierTick(kind, t).Preempts() || Excess(t) <= 0.0
    case Cooled(_, _) => Excess(t) <= HeatTick(kind, t).Freed() - HeatTick(kind, t).Given()
  }

  /** The priority brain keeps its budget exactly when it preempts or the PRS tick does not overrun it. */
  lemma PriorityFitsExactly(kind: Kind, t: Tick)
    requires t.Valid() && t.budget >= 0.0 && kind.Tiered?
    ensures Sum(t.st.gpus, TierTick(kind, t).Caps()) <= t.budget
            <==> || TierTick(kind, t).Preempts()
                 || Max(0.0, t.IdleTotal() - t.budget) + Lift(t) <= Cut(t) + Held(t)
  {
    hide Tick.Caps, PriorityTick.Unscaled, Excess, PriorityTick.Preempts, Lift, Cut, Held, Tick.IdleTotal, Sum;
    CapsCoverTelemetry(t);
    WithinBudgetExactly(t);
    PriorityProofs.WithinBudgetExactly(TierTick(kind, t));
  }

  /** The thermal brain keeps its budget exactly when what the throttled GPUs free and nobody takes covers the overrun. */
  lemma ThermalFitsExactly(kind: Kind, t: Tick)
    requires t.Valid() && kind.Cooled? && Sensible(kind)
    ensures Sum(t.st.gpus, HeatTick(kind, t).Caps()) <= t.budget
            <==> Max(0.0, t.IdleTotal() - t.budget) + Lift(t) - Cut(t) - Held(t)
                 <= HeatTick(kind, t).Freed() - HeatTick(kind, t).Given()
  {
    hide Tick.Caps, ThermalTick.Caps, ThermalTick.Freed, ThermalTick.Given, Lift, Cut, Held, Tick.IdleTotal, Sum;
    CapsCoverTelemetry(t);
    var h := HeatTick(kind, t);
    TickTotal(h);
    WithinSlackExactly(t, h.Freed() - h.Given());
  }

  lemma DecisionFitsExactly(kind: Kind, t: Tick)
    requires t.Valid() && t.budget >= 0.0 && Sensible(kind)
    ensures Sum(t.st.gpus, Decide(kind, t).caps) <= t.budget <==> Fits(kind, t)
  {
    hide Tick.Caps, ThermalTick.Caps, ThermalTick.Freed, ThermalTick.Given, Lift, Cut, Held, Tick.IdleTotal, Sum;
    hide PriorityTick.Caps, PriorityTick.Preempts, Tick.Ewma;
    match kind {
      case Plain => WithinBudgetExactly(t);
      case Tiered(_, _, _) => PriorityFitsExactly(kind, t);
      case Cooled(_, _) => ThermalFitsExactly(kind, t);
    }
  }

  /** The sufficient condition on PRS carries over to every brain. */
  lemma DecisionFits(kind: Kind, t: Tick)
    requires t.Valid() && t.budget >= 0.0 && Sensible(kind) && t.IdleTotal() <= t.budget
    requires forall g :: g in t.Hot() ==> At(t.Shares(), g) >= t.cfg.minCap
    ensures Sum(t.st.gpus, Decide(kind, t).caps) <= t.budget
  {
    hide Tick.Caps, ThermalTick.Caps, Lift, Cut, Held, Tick.IdleTotal, Sum, Tick.Hot, Tick.Shares;
    hide PriorityTick.Caps, PriorityTick.Preempts, Tick.Ewma;
    WithinBudget(t);
    WithinBudgetExactly(t);
    OverrunIsCovered(kind, t);
    DecisionFitsExactly(kind, t);
  }

  /** Neither wrapper keeps the budget by itself: with one busy GPU and nothing to preempt or to cool, both pass on
      200 W under a budget of 100 W. */
  lemma WrappersFail(tiers: map<int, Tiers.Tier>)
    ensures Sum([0], Decide(Tiered(tiers, 0.6, 200.0), LoneBusyGpu()).caps) == 200.0 > LoneBusyGpu().budget
    ensures Sum([0], Decide(Cooled(0.15, 200.0), LoneBusyGpu()).caps) == 200.0 > LoneBusyGpu().budget
  {
    var t := LoneBusyGpu();
    ByConstructionFails();
    hide Tick.Caps, Tick.Ewma, Sum;
    var p, h := TierTick(Tiered(tiers, 0.6, 200.0), t), HeatTick(Cooled(0.15, 200.0), t);
    assert |p.Contended()| <= |t.st.gpus| == 1;
    assert p.Caps() == t.Caps();
    assert t.st.gpus[..0] == [];
    assert h.Throttled() == Inside(t.st.gpus[..0], {}) == [];
    assert h.Caps() == t.Caps();
  }

  // ----- The sign -----

  ghost predicate NonNegative(m: map<int, real>) {
    forall g :: g in m ==> m[g] >= 0.0
  }

  /** Watts that a physical node can report, remember and be configured with. */
  ghost predicate PhysicalTick(t: Tick) {
    && t.Valid() && t.budget >= 0.0 && t.cfg.minCap >= 0.0 && NonNegative(t.mem.lastCaps)
    && NonNegative(t.st.draws) && NonNegative(t.st.caps) && NonNegative(t.st.maxCaps)
  }

  lemma FallbackNonNegative(t: Tick)
    requires t.budget >= 0.0
    ensures t.Fallback() >= 0.0
  {
    var n := (if |t.st.gpus| == 0 then 1 else |t.st.gpus|) as real;
    assert n > 0.0;
    QuotientNonNegative(t.budget, n);
  }

  lemma QuotientNonNegative(x: real, n: real)
    requires x >= 0.0 && n > 0.0
    ensures x / n >= 0.0
  {
  }

  lemma FloorsNonNegative(cfg: PrsConfig, fallback: real, ewma: map<int, real>, idle: seq<int>, st: DomainState)
    requires cfg.minCap >= 0.0 && fallback >= 0.0 && NonNegative(st.caps) && NonNegative(st.maxCaps)
    ensures NonNegative(FloorAll(cfg, fallback, ewma, idle, st))
  {
    hide WithMargin;
  }

  lemma ClampedNonNegative(cfg: PrsConfig, fallback: real, shares: map<int, real>, st: DomainState)
    requires cfg.minCap >= 0.0
    ensures NonNegative(ClampAll(cfg, fallback, shares, st))
  {
  }

  lemma TargetsNonNegative(t: Tick)
    requires PhysicalTick(t)
    ensures NonNegative(t.Targets())
  {
    hide Tick.Idle, Tick.Hot, Tick.Fallback, Tick.Ewma, Tick.Shares, FloorAll, ClampAll;
    FallbackNonNegative(t);
    FloorsNonNegative(t.cfg, t.Fallback(), t.Ewma(), t.Idle(), t.st);
    ClampedNonNegative(t.cfg, t.Fallback(), t.Shares(), t.st);
  }

  lemma PrsNonNegative(t: Tick)
    requires PhysicalTick(t)
    ensures NonNegative(t.Caps())
  {
    hide Tick.Targets;
    TargetsNonNegative(t);
  }

  lemma PriorityNonNegative(kind: Kind, t: Tick)
    requires PhysicalTick(t) && kind.Tiered? && Sensible(kind)
    ensures NonNegative(TierTick(kind, t).Caps())
  {
    hide Tick.Caps, Tick.Valid, AtLeastFraction, Times, ProRata, PriorityTick.Contended;
    PrsNonNegative(t);
    var p := TierTick(kind, t);
    UnscaledNonNegative(p);
    hide PriorityTick.Unscaled;
    var total := Sum(t.st.gpus, p.Unscaled());
    if p.Preempts() && total > p.budget {
      forall g | g in p.Caps() ensures p.Caps()[g] >= 0.0 {
        ProRataNonNegative(p.Unscaled()[g], p.budget, total);
      }
    }
  }

  lemma UnscaledNonNegative(p: PriorityTick)
    requires NonNegative(p.prs) && p.floor >= 0.0 && NonNegative(p.st.draws) && NonNegative(p.st.maxCaps)
    ensures NonNegative(p.Unscaled())
  {
    hide Demands, Surpluses, PriorityTick.Contended, Demand, PriorityTick.Committed;
    var demands := Demands(p.Contended(), p.st, p.tiers);
    forall g | g in p.Contended() ensures At(demands, g) >= 0.0 {
      PriorityProofs.DemandNonNegative(p, g);
    }
    PriorityProofs.PartsNonNegative(p.Contended(), demands, p.Surplus());
  }

  lemma ThermalNonNegative(kind: Kind, t: Tick)
    requires PhysicalTick(t) && kind.Cooled? && Sensible(kind)
    ensures NonNegative(HeatTick(kind, t).Caps())
  {
    hide Tick.Caps, Tick.Ewma, ThermalTick.Caps, BackOff;
    PrsNonNegative(t);
    CapsCoverTelemetry(t);
    var h := HeatTick(kind, t);
    forall g | g in h.Caps() ensures h.Caps()[g] >= 0.0 {
      DecisionCovers(kind, t, g);
      if g in h.Throttled() {
        ThrottledDrops(h, g);
        BackOffNonNegative(h.prs[g], Get(h.st.caps, g, h.prs[g]), h.derate, h.floor);
      } else {
        RecipientBounds(h, g);
      }
    }
  }

  lemma BackOffNonNegative(proposed: real, held: real, derate: real, floor: real)
    requires proposed >= 0.0 && held >= 0.0 && floor >= 0.0
    ensures BackOff(proposed, held, derate, floor) >= 0.0
  {
    hide Derated;
  }

  /** On physical inputs no brain decides a negative cap, nor remembers one. */
  lemma DecisionNonNegative(kind: Kind, t: Tick)
    requires PhysicalTick(t) && Sensible(kind)
    ensures NonNegative(Decide(kind, t).caps) && NonNegative(Decide(kind, t).memory.lastCaps)
  {
    hide Tick.Caps, PriorityTick.Caps, ThermalTick.Caps, Tick.Ewma, PhysicalTick;
    match kind {
      case Plain => PrsNonNegative(t);
      case Tiered(_, _, _) => PriorityNonNegative(kind, t);
      case Cooled(_, _) => ThermalNonNegative(kind, t);
    }
  }

  /** Neither wrapper breaks a budget that PRS keeps, or a sign. */
  lemma WrappersKeepBudget(kind: Kind, t: Tick)
    requires PhysicalTick(t) && Sensible(kind) && Sum(t.st.gpus, t.Caps()) <= t.budget
    ensures Sum(t.st.gpus, Decide(kind, t).caps) <= t.budget && NonNegative(Decide(kind, t).caps)
  {
    hide Tick.Caps, Decide, Sum, Lift, Cut, Held, Tick.IdleTotal;
    DecisionNonNegative(kind, t);
    WithinBudgetExactly(t);
    OverrunIsCovered(kind, t);
    DecisionFitsExactly(kind, t);
  }

  lemma OverrunIsCovered(kind: Kind, t: Tick)
    requires t.Valid() && Sensible(kind) && Excess(t) <= 0.0
    ensures Fits(kind, t)
  {
    hide Tick.Caps, Excess, PriorityTick.Preempts, ThermalTick.Freed, ThermalTick.Given;
    if kind.Cooled? {
      CapsCoverTelemetry(t);
      TickTotal(HeatTick(kind, t));
    }
  }
}
