/** What one PRS tick gives each GPU, said of its caps alone: floors, proportional shares, maxima and limited raises. */
module PrsCaps {
  import opened Sums
  import opened Prs
  import PrsBudget

  /** The reported cap, or an equal part of the budget. */
  ghost function CurrentCap(t: Tick, g: int): real
    requires g in t.st.gpus
  {
    if g in t.st.caps then t.st.caps[g] else t.budget / |t.st.gpus| as real
  }

  /** The reported hardware maximum, or the held cap. */
  ghost function Ceiling(t: Tick, g: int): real
    requires g in t.st.gpus
  {
    if g in t.st.maxCaps then t.st.maxCaps[g] else CurrentCap(t, g)
  }

  lemma CurrentCapAndCeiling(t: Tick, g: int)
    requires g in t.st.gpus
    ensures t.st.CurrentCap(g, t.Fallback()) == CurrentCap(t, g) && t.st.HwMax(g, t.Fallback()) == Ceiling(t, g)
  {
  }

  // ----- Who is hot -----

  lemma FractionByProduct(draw: real, cap: real, threshold: real)
    ensures AtLeastFraction(draw, cap, threshold) <==> cap > 0.0 && draw >= threshold * cap
  {
    if cap > 0.0 {
      var q := draw / cap;
      assert q * cap == draw;
      if q >= threshold {
        ScaleOrder(threshold, q, cap);
      } else {
        StrictScale(q, threshold, cap);
      }
    }
  }

  /** A GPU is hot exactly when it holds a positive cap and its smoothed draw reaches the threshold's part of it. */
  lemma HotExactly(t: Tick, g: int)
    requires t.Valid() && g in t.st.gpus
    ensures g in t.Ewma()
    ensures g in t.Hot() <==> CurrentCap(t, g) > 0.0 && t.Ewma()[g] >= t.cfg.threshold * CurrentCap(t, g)
    ensures g in t.Idle() <==> g !in t.Hot()
  {
    hide AtLeastFraction, Quotient, Smooth;
    CurrentCapAndCeiling(t, g);
    Prs.HotExactly(t.cfg.threshold, t.Fallback(), t.Ewma(), t.st, g);
    FractionByProduct(t.Ewma()[g], CurrentCap(t, g), t.cfg.threshold);
  }

  // ----- Idle GPUs -----

  /** The larger of floor and draw with its margin, up to the ceiling. */
  ghost predicate RoomAbove(cap: real, draw: real, margin: real, floor: real, ceiling: real) {
    var room := draw + margin * draw;
    && cap <= ceiling && (cap <= floor || cap <= room)
    && (cap < ceiling ==> cap >= floor && cap >= room)
  }

  lemma FloorLeavesRoom(cfg: PrsConfig, draw: real, ceiling: real)
    ensures RoomAbove(IdleFloor(cfg, draw, ceiling), draw, cfg.margin, cfg.minCap, ceiling)
  {
  }

  lemma TargetOfIdle(t: Tick, g: int)
    requires g in t.Idle()
    ensures g in t.Targets() && g in t.st.gpus && t.Targets()[g] == IdleFloor(t.cfg, At(t.Ewma(), g), Ceiling(t, g))
  {
    hide AtLeastFraction, Quotient, SmoothAll, ShareAll, ClampAll, HotSet, IdleFloor, DomainState.HwMax;
    CurrentCapAndCeiling(t, g);
    assert g !in t.Hot() && g in t.IdleCaps();
  }

  /** An idle GPU gets the floor or its smoothed draw with the margin on top, whichever is more, up to its maximum. */
  lemma IdleTarget(t: Tick, g: int)
    requires t.Valid() && g in t.Idle()
    ensures g in t.Targets() && g in t.Ewma()
    ensures RoomAbove(t.Targets()[g], t.Ewma()[g], t.cfg.margin, t.cfg.minCap, Ceiling(t, g))
  {
    hide Tick.Targets, Tick.Idle, IdleFloor, RoomAbove, Smooth;
    TargetOfIdle(t, g);
    PrsBudget.EwmaCoversTelemetry(t);
    FloorLeavesRoom(t.cfg, At(t.Ewma(), g), Ceiling(t, g));
  }

  // ----- Hot GPUs -----

  lemma EqualPartProduct(n: nat, limit: real)
    requires n > 0
    ensures EqualPart(n, limit) * n as real == limit
  {
    assert 1.0 / n as real * n as real == 1.0;
    assert (1.0 / n as real * n as real) * limit == limit;
  }

  /** What the idle GPUs leave of the budget. */
  ghost function LeftForHot(t: Tick): real {
    Max(0.0, t.budget - Sum(t.Idle(), t.Targets()))
  }

  lemma HotBudgetIsLeft(t: Tick)
    ensures t.HotBudget() == LeftForHot(t)
  {
    hide HotSet, FloorAll, ShareAll, ClampAll, SmoothAll, Quotient;
    forall g | g in t.Idle() ensures At(t.Targets(), g) == At(t.IdleCaps(), g) {
      assert g !in t.Hot();
    }
    SumSame(t.Idle(), t.Targets(), t.IdleCaps());
  }

  /** The cap that is to `whole` as `parts` is to one, raised to the floor and cut at the ceiling. */
  ghost predicate PartBetween(cap: real, parts: real, whole: real, floor: real, ceiling: real) {
    && (parts <= floor * whole ==> cap == floor)
    && (parts >= ceiling * whole ==> cap == Max(floor, ceiling))
    && (floor * whole < parts < ceiling * whole ==> cap * whole == parts)
  }

  lemma ClampedPart(share: real, parts: real, whole: real, floor: real, ceiling: real)
    requires whole > 0.0 && share * whole == parts
    ensures PartBetween(Max(floor, Min(ceiling, share)), parts, whole, floor, ceiling)
  {
    if share <= floor { ScaleOrder(share, floor, whole); } else { StrictScale(floor, share, whole); }
    if share >= ceiling { ScaleOrder(ceiling, share, whole); } else { StrictScale(share, ceiling, whole); }
  }

  lemma TargetOfHot(t: Tick, g: int)
    requires g in t.Hot()
    ensures g in t.Targets() && g in t.st.gpus
    ensures var total, limit := Sum(t.Hot(), t.Ewma()), LeftForHot(t);
            t.Targets()[g] == Max(t.cfg.minCap, Min(Ceiling(t, g),
              if total > 0.0 then ProRata(At(t.Ewma(), g), limit, total) else EqualPart(|t.Hot()|, limit)))
  {
    hide AtLeastFraction, Quotient, SmoothAll, FloorAll, HotSet, ProRata, EqualPart, Min, Max, Sum, DomainState.HwMax, LeftForHot;
    CurrentCapAndCeiling(t, g);
    HotBudgetIsLeft(t);
    assert g in t.Shares();
  }

  /** The hot GPUs divide what is left in proportion to their smoothed draws, in equal parts when those add up to nothing,
      each between the floor and its maximum. */
  lemma HotTarget(t: Tick, g: int)
    requires t.Valid() && g in t.Hot()
    ensures g in t.Targets() && g in t.Ewma()
    ensures var total := Sum(t.Hot(), t.Ewma());
            && (total > 0.0 ==>
                  PartBetween(t.Targets()[g], t.Ewma()[g] * LeftForHot(t), total, t.cfg.minCap, Ceiling(t, g)))
            && (total <= 0.0 ==>
                  PartBetween(t.Targets()[g], LeftForHot(t), |t.Hot()| as real, t.cfg.minCap, Ceiling(t, g)))
  {
    hide Tick.Targets, Tick.Hot, Smooth, PartBetween, ProRata, EqualPart, Min, Max, Sum, LeftForHot;
    TargetOfHot(t, g);
    PrsBudget.EwmaCoversTelemetry(t);
    var total, limit := Sum(t.Hot(), t.Ewma()), LeftForHot(t);
    hide Tick.Ewma;
    if total > 0.0 {
      var draw := t.Ewma()[g];
      ProRataProduct(draw, limit, total);
      var parts := draw * limit;
      ClampedPart(ProRata(draw, limit, total), parts, total, t.cfg.minCap, Ceiling(t, g));
      assert parts == t.Ewma()[g] * LeftForHot(t);
    } else {
      EqualPartProduct(|t.Hot()|, limit);
      ClampedPart(EqualPart(|t.Hot()|, limit), limit, |t.Hot()| as real, t.cfg.minCap, Ceiling(t, g));
    }
  }

  // ----- The raise limiter -----

  /** Only a raise is limited: from the last cap, or the reported one when there is none, by at most the raise rate. */
  lemma LimitedExactly(t: Tick, g: int)
    requires t.Valid() && g in t.st.gpus
    ensures g in t.Caps() && g in t.Targets()
    ensures var known := g in t.mem.lastCaps || g in t.st.caps;
            var before := if g in t.mem.lastCaps then t.mem.lastCaps[g] else CurrentCap(t, g);
            t.Caps()[g] == if t.cfg.raiseRate > 0.0 && known && t.Targets()[g] > before + t.cfg.raiseRate
                           then before + t.cfg.raiseRate else t.Targets()[g]
  {
    hide Tick.Targets;
    PrsBudget.CapsCoverTelemetry(t);
  }

  // ----- Shares of two GPUs -----

  ghost predicate StrictlyBetween(t: Tick, g: int)
    requires t.Valid() && g in t.st.gpus
  {
    g in t.Caps() && t.cfg.minCap < t.Caps()[g] < Ceiling(t, g)
  }

  lemma CommonRate(capA: real, capB: real, a: real, b: real, total: real, limit: real)
    requires total > 0.0 && capA * total == a * limit && capB * total == b * limit
    ensures capA * b == capB * a
  {
    assert capA * b * total == a * limit * b == capB * a * total;
    Cancel(total, capA * b, capB * a);
  }

  lemma Unclamped(t: Tick, g: int)
    requires t.Valid() && t.cfg.raiseRate == 0.0 && g in t.Hot() && Sum(t.Hot(), t.Ewma()) > 0.0 && StrictlyBetween(t, g)
    ensures g in t.Ewma() && t.Caps()[g] * Sum(t.Hot(), t.Ewma()) == t.Ewma()[g] * LeftForHot(t)
  {
    hide Tick.Targets, Tick.Ewma, Tick.Hot, Tick.Caps, Sum, LeftForHot;
    LimitedExactly(t, g);
    HotTarget(t, g);
  }

  /** Without a raise limiter, hot GPUs that neither the floor nor a maximum touches hold caps in the proportion of their
      smoothed draws. */
  lemma CapsFollowDraws(t: Tick, a: int, b: int)
    requires t.Valid() && t.cfg.raiseRate == 0.0 && a in t.Hot() && b in t.Hot() && Sum(t.Hot(), t.Ewma()) > 0.0
    requires StrictlyBetween(t, a) && StrictlyBetween(t, b)
    ensures t.Caps()[a] * t.Ewma()[b] == t.Caps()[b] * t.Ewma()[a]
  {
    hide Tick.Ewma, Tick.Hot, Tick.Caps, Sum, LeftForHot;
    Unclamped(t, a);
    Unclamped(t, b);
    CommonRate(t.Caps()[a], t.Caps()[b], t.Ewma()[a], t.Ewma()[b], Sum(t.Hot(), t.Ewma()), LeftForHot(t));
  }

  lemma PartIsClamp(cap: real, share: real, parts: real, whole: real, floor: real, ceiling: real)
    requires whole > 0.0 && share * whole == parts && PartBetween(cap, parts, whole, floor, ceiling)
    ensures cap == Max(floor, Min(ceiling, share))
  {
    ScaleOrderExactly(share, floor, whole);
    ScaleOrderExactly(ceiling, share, whole);
    Cancel(whole, cap, share);
  }

  lemma MorePartsMore(capA: real, capB: real, p: real, q: real, whole: real, floor: real, ceiling: real)
    requires whole > 0.0 && p >= q
    requires PartBetween(capA, p, whole, floor, ceiling) && PartBetween(capB, q, whole, floor, ceiling)
    ensures capA >= capB
  {
    hide PartBetween;
    var a, b := p / whole, q / whole;
    assert a * whole == p && b * whole == q;
    ScaleOrderExactly(b, a, whole);
    PartIsClamp(capA, a, p, whole, floor, ceiling);
    PartIsClamp(capB, b, q, whole, floor, ceiling);
  }

  /** Of two hot GPUs with one maximum, the one with the larger smoothed draw never gets less. */
  lemma BusierGetsNoLess(t: Tick, a: int, b: int)
    requires t.Valid() && t.cfg.raiseRate == 0.0 && a in t.Hot() && b in t.Hot() && Ceiling(t, a) == Ceiling(t, b)
    requires At(t.Ewma(), a) >= At(t.Ewma(), b)
    ensures At(t.Caps(), a) >= At(t.Caps(), b)
  {
    hide Tick.Targets, Tick.Ewma, Tick.Hot, Tick.Caps, Sum, LeftForHot, PartBetween;
    LimitedExactly(t, a);
    LimitedExactly(t, b);
    HotTarget(t, a);
    HotTarget(t, b);
    var total := Sum(t.Hot(), t.Ewma());
    assert LeftForHot(t) >= 0.0 by { LeftNonNegative(t); }
    if total > 0.0 {
      ScaleOrder(t.Ewma()[b], t.Ewma()[a], LeftForHot(t));
      MorePartsMore(t.Targets()[a], t.Targets()[b], t.Ewma()[a] * LeftForHot(t), t.Ewma()[b] * LeftForHot(t), total,
                    t.cfg.minCap, Ceiling(t, a));
    } else {
      MorePartsMore(t.Targets()[a], t.Targets()[b], LeftForHot(t), LeftForHot(t), |t.Hot()| as real, t.cfg.minCap, Ceiling(t, a));
    }
  }

  lemma LeftNonNegative(t: Tick)
    ensures LeftForHot(t) >= 0.0
  {
  }

  /** Two busy GPUs, one drawing 600 W and one 200 W, under 800 W. */
  ghost function BusyPair(): Tick {
    Tick(PrsConfig(200.0, 0.3, 0.6, 0.3, 0.0), 800.0, PrsMemory(map[], map[]),
         DomainState([0, 1], map[0 := 600.0, 1 := 200.0], map[0 := 700.0, 1 := 250.0], map[0 := 700.0, 1 := 700.0], {}))
  }

  lemma BusyPairSmoothed()
    ensures BusyPair().Valid() && BusyPair().Ewma() == map[0 := 600.0, 1 := 200.0]
    ensures CurrentCap(BusyPair(), 0) == 700.0 && CurrentCap(BusyPair(), 1) == 250.0
  {
    assert BusyPair().Ewma() == BusyPair().st.draws;
  }

  lemma BusyPairIsHot()
    ensures BusyPair().Hot() == [0, 1] && BusyPair().Idle() == []
  {
    var t := BusyPair();
    BusyPairSmoothed();
    hide Tick.Ewma, CurrentCap;
    HotExactly(t, 0);
    HotExactly(t, 1);
    hide HotSet, Inside, Outside;
    InsideAll([0, 1], HotSet(t.cfg.threshold, t.Fallback(), t.Ewma(), t.st));
  }

  /** They get 600 W and 200 W. */
  lemma BusyPairShares()
    ensures 0 in BusyPair().Caps() && 1 in BusyPair().Caps()
    ensures BusyPair().Caps()[0] == 600.0 && BusyPair().Caps()[1] == 200.0
  {
    var t := BusyPair();
    BusyPairSmoothed();
    BusyPairIsHot();
    hide Tick.Hot, Tick.Idle, Tick.Ewma, Tick.Caps, Tick.Targets;
    SumTwo(0, 1, t.Ewma());
    LimitedExactly(t, 0);
    LimitedExactly(t, 1);
    HotTarget(t, 0);
    HotTarget(t, 1);
  }

  // ----- What is reported -----

  /** The report: who is hot and idle, the idle GPUs' caps beyond their draws, and the domain's draw and cap. */
  lemma MetricsMean(t: Tick)
    requires t.Valid()
    ensures var m := t.Metrics();
            && m.hot == t.Hot() && m.idle == t.Idle() && m.ewma == t.Ewma()
            && m.idleStranded == Max(0.0, Sum(t.Idle(), t.Caps()) - Sum(t.Idle(), t.st.draws))
            && m.domainCap == Sum(t.Hot(), t.Caps()) + Sum(t.Idle(), t.Caps())
            && m.domainDraw == Sum(t.Hot(), t.st.draws) + Sum(t.Idle(), t.st.draws)
  {
    hide HotSet, Tick.Caps, Tick.Ewma;
    PrsBudget.CapsCoverTelemetry(t);
    var hotSet := HotSet(t.cfg.threshold, t.Fallback(), t.Ewma(), t.st);
    SumPartition(t.st.gpus, hotSet, t.Caps());
    SumPartition(t.st.gpus, hotSet, t.st.draws);
    forall g | g in t.Idle() ensures At(t.Caps(), g) == At(t.st.draws, g) + At(Headroom(t.Caps(), t.st.draws), g) {
    }
    SumPlus(t.Idle(), t.st.draws, Headroom(t.Caps(), t.st.draws), t.Caps());
  }
}
