/** What preemption gives each GPU, said of its cap alone: the contended divide what floors and uncontended caps leave of
    the budget in proportion to draw and tier. */
module PriorityCaps {
  import opened Sums
  import opened Tiers
  import opened Prs
  import opened Priority
  import opened PriorityProofs
  import PrsCaps

  /** A GPU is contended exactly when its draw reaches the threshold's part of the positive cap it reports. */
  lemma ContendedExactly(p: PriorityTick, g: int)
    requires p.Valid() && g in p.st.gpus
    ensures g in p.Contended()
            <==> At(p.st.caps, g) > 0.0 && At(p.st.draws, g) >= p.threshold * At(p.st.caps, g)
    ensures g in p.Uncontended() <==> g !in p.Contended()
  {
    hide AtLeastFraction;
    PrsCaps.FractionByProduct(At(p.st.draws, g), At(p.st.caps, g), p.threshold);
  }

  /** With fewer than two contended GPUs, or no budget, the caps are those of PRS. */
  lemma LonelyKeepPrs(p: PriorityTick)
    requires |p.Contended()| < 2 || p.budget == 0.0
    ensures p.Caps() == p.prs
  {
  }

  // ----- Draw and tier -----

  /** A critical GPU's watt of draw counts four times, a high one's twice, and a low one's half. */
  ghost function Claim(draw: real, tier: Tier): real {
    match tier
    case Critical => 4.0 * draw
    case High => 2.0 * draw
    case Normal => draw
    case Low => draw / 2.0
  }

  ghost function Claims(p: PriorityTick): map<int, real> {
    map g | g in p.Contended() :: Claim(At(p.st.draws, g), Get(p.tiers, g, Normal))
  }

  /** What the floors and the uncontended GPUs leave of the budget; negative when they exceed it. */
  ghost function Left(p: PriorityTick): real {
    p.budget - Sum(p.Uncontended(), p.prs) - |p.Contended()| as real * p.floor
  }

  ghost function Maximum(p: PriorityTick, g: int): real {
    if g in p.st.maxCaps then p.st.maxCaps[g] else At(p.prs, g)
  }

  lemma ClaimIsDemand(draw: real, tier: Tier)
    ensures Demand(draw, Weight(tier)) == Claim(draw, tier)
    ensures draw >= 0.0 ==> Claim(draw, tier) >= 0.0
  {
  }

  lemma ClaimsAreDemands(p: PriorityTick)
    ensures Demands(p.Contended(), p.st, p.tiers) == Claims(p)
    ensures Physical(p) ==> forall g :: g in p.Contended() ==> At(Claims(p), g) >= 0.0
  {
    hide Demand, Weight, Claim, PriorityTick.Contended;
    var demands := Demands(p.Contended(), p.st, p.tiers);
    forall g | g in p.Contended()
      ensures demands[g] == Claims(p)[g] && (Physical(p) ==> At(Claims(p), g) >= 0.0)
    {
      ClaimIsDemand(At(p.st.draws, g), Get(p.tiers, g, Normal));
    }
    assert demands == Claims(p);
  }

  lemma LeftIsSurplus(p: PriorityTick)
    ensures p.Surplus() == Max(0.0, Left(p)) && (p.Committed() <= p.budget <==> Left(p) >= 0.0)
  {
    hide Sum, PriorityTick.Contended, PriorityTick.Uncontended;
  }

  lemma UnscaledCap(p: PriorityTick, g: int)
    requires p.Valid() && Physical(p) && g in p.Contended()
    ensures var total, part := Sum(p.Contended(), Claims(p)), At(p.Parts(), g);
            && g in p.Unscaled() && p.Unscaled()[g] == Min(p.floor + part, Maximum(p, g))
            && total >= 0.0 && (total == 0.0 ==> part == 0.0)
            && (total > 0.0 ==> part * total == At(Claims(p), g) * Max(0.0, Left(p)))
  {
    hide Demands, Sum, ProRata, PriorityTick.Contended, Claims, Left, PriorityTick.Surplus;
    ClaimsAreDemands(p);
    LeftIsSurplus(p);
    forall h | h in p.Contended() ensures At(Claims(p), h) >= 0.0 {
    }
    SumNonNegative(p.Contended(), Claims(p));
    var total, claim, surplus := Sum(p.Contended(), Claims(p)), At(Claims(p), g), p.Surplus();
    if total == 0.0 {
      ProRataOfNothing(surplus, 1.0);
    } else {
      ProRataProduct(claim, surplus, total);
    }
  }

  // ----- When the floors fit -----

  /** When floors and uncontended caps fit the budget, a contended GPU gets its floor and the part of the rest that its
      claim is of all claims, up to its maximum, and the uncontended keep what PRS gave them. */
  lemma PreemptedCap(p: PriorityTick, g: int)
    requires p.Valid() && Physical(p) && p.Preempts() && Left(p) >= 0.0 && g in p.st.gpus
    ensures g in p.Caps()
    ensures g in p.Uncontended() ==> p.Caps()[g] == p.prs[g]
    ensures g in p.Contended() ==>
              var total, cap := Sum(p.Contended(), Claims(p)), p.Caps()[g];
              && cap <= Maximum(p, g) && total >= 0.0
              && (total == 0.0 ==> cap == Min(p.floor, Maximum(p, g)))
              && (total > 0.0 && cap < Maximum(p, g) ==> (cap - p.floor) * total == At(Claims(p), g) * Left(p))
              && (total > 0.0 && cap == Maximum(p, g) ==> (cap - p.floor) * total <= At(Claims(p), g) * Left(p))
  {
    hide PriorityTick.Unscaled, PriorityTick.Contended, PriorityTick.Uncontended, PriorityTick.Parts, Sum, Claims, Left;
    hide PriorityTick.Committed, PriorityTick.Preempts, PriorityTick.Caps;
    LeftIsSurplus(p);
    FloorsAreKept(p);
    CapsCover(p);
    if g in p.Contended() {
      UnscaledCap(p, g);
      var total, part := Sum(p.Contended(), Claims(p)), At(p.Parts(), g);
      if total > 0.0 {
        ScaleOrderExactly(p.Caps()[g] - p.floor, part, total);
      }
    }
  }

  lemma CapsCover(p: PriorityTick)
    requires p.Valid()
    ensures forall g :: g in p.Caps() <==> g in p.st.gpus
    ensures forall g :: g in p.Unscaled() <==> g in p.st.gpus
  {
    hide PriorityTick.Contended, PriorityTick.Parts, ProRata, Sum;
  }

  /** Two contended GPUs below their maxima divide the rest as their claims. */
  lemma SurplusFollowsClaims(p: PriorityTick, a: int, b: int)
    requires p.Valid() && Physical(p) && p.Preempts() && Left(p) >= 0.0 && a in p.Contended() && b in p.Contended()
    requires At(p.Caps(), a) < Maximum(p, a) && At(p.Caps(), b) < Maximum(p, b)
    ensures (At(p.Caps(), a) - p.floor) * Claim(At(p.st.draws, b), Get(p.tiers, b, Normal))
         == (At(p.Caps(), b) - p.floor) * Claim(At(p.st.draws, a), Get(p.tiers, a, Normal))
  {
    hide PriorityTick.Caps, PriorityTick.Contended, Sum, Left, Claim, PriorityTick.Preempts;
    PreemptedCap(p, a);
    PreemptedCap(p, b);
    var total, x, y := Sum(p.Contended(), Claims(p)), At(Claims(p), a), At(Claims(p), b);
    if total > 0.0 {
      PrsCaps.CommonRate(At(p.Caps(), a) - p.floor, At(p.Caps(), b) - p.floor, x, y, total, Left(p));
    } else {
      assert At(p.Caps(), a) == p.floor && At(p.Caps(), b) == p.floor;
    }
  }

  /** When somebody contended draws and no maximum is reached, the caps use up the budget. */
  lemma BudgetIsUsedUp(p: PriorityTick)
    requires p.Valid() && Physical(p) && p.Preempts() && Left(p) >= 0.0
    requires exists g :: g in p.Contended() && At(p.st.draws, g) > 0.0
    requires forall g :: g in p.Contended() ==> At(p.Caps(), g) < Maximum(p, g)
    ensures Sum(p.st.gpus, p.Caps()) == p.budget
  {
    hide PriorityTick.Unscaled, PriorityTick.Contended, PriorityTick.Uncontended, PriorityTick.Parts, Sum, Claims, Left;
    hide PriorityTick.Preempts, PriorityTick.Caps, PriorityTick.Surplus, PriorityTick.Committed;
    LeftIsSurplus(p);
    ClaimsPositive(p);
    FloorsAreKept(p);
    PartsTotal(p);
    var contended, floors := p.Contended(), map g | g in p.Contended() :: p.floor;
    forall g | g in contended ensures At(p.Caps(), g) == At(floors, g) + At(p.Parts(), g) {
      UnscaledCap(p, g);
    }
    SumPlus(contended, floors, p.Parts(), p.Caps());
    SumConstant(contended, floors, p.floor);
    forall g | g in p.Uncontended() ensures At(p.Caps(), g) == At(p.prs, g) {
    }
    SumSame(p.Uncontended(), p.Caps(), p.prs);
    SplitByContention(p, p.Caps());
    assert p.Surplus() == Left(p);
    LeftAndFloors(p);
  }

  lemma LeftAndFloors(p: PriorityTick)
    ensures Left(p) == p.budget - Sum(p.Uncontended(), p.prs) - Times(p.floor, |p.Contended()|)
  {
  }

  lemma SplitByContention(p: PriorityTick, m: map<int, real>)
    ensures Sum(p.st.gpus, m) == Sum(p.Contended(), m) + Sum(p.Uncontended(), m)
  {
    SumPartition(p.st.gpus, p.ContendedSet(), m);
  }

  lemma PartsTotal(p: PriorityTick)
    requires p.Valid() && Physical(p) && Sum(p.Contended(), Claims(p)) > 0.0
    ensures Sum(p.Contended(), p.Parts()) == p.Surplus()
  {
    hide Sum, Demands, Surpluses, PriorityTick.Contended, Claims, PriorityTick.Committed;
    ClaimsAreDemands(p);
    PartsUseSurplus(p.Contended(), Demands(p.Contended(), p.st, p.tiers), p.Surplus());
  }

  lemma ClaimsPositive(p: PriorityTick)
    requires Physical(p) && exists g :: g in p.Contended() && At(p.st.draws, g) > 0.0
    ensures Sum(p.Contended(), Claims(p)) > 0.0
  {
    hide Sum, PriorityTick.Contended;
    ClaimsAreDemands(p);
    var g :| g in p.Contended() && At(p.st.draws, g) > 0.0;
    forall h | h in p.Contended() ensures At(Claims(p), h) >= 0.0 {
    }
    SumNonNegative(p.Contended(), Claims(p));
    assert At(Claims(p), g) > 0.0;
  }

  // ----- When they do not -----

  /** Everybody contended at the floor or its maximum, everybody else at what PRS gave. */
  ghost function FloorsOnly(p: PriorityTick): map<int, real> {
    map g | g in p.prs :: if g in p.Contended() then Min(p.floor, Maximum(p, g)) else p.prs[g]
  }

  /** When floors and uncontended caps exceed the budget, tiers and draws do not count: everybody gets those floors and
      caps, in proportion if they total more than the budget. */
  lemma ScaledCap(p: PriorityTick, g: int)
    requires p.Valid() && Physical(p) && p.Preempts() && Left(p) < 0.0 && g in p.st.gpus
    ensures g in p.Caps()
    ensures var total := Sum(p.st.gpus, FloorsOnly(p));
            && (total <= p.budget ==> p.Caps()[g] == FloorsOnly(p)[g])
            && (total > p.budget ==> p.Caps()[g] * total == FloorsOnly(p)[g] * p.budget)
  {
    hide PriorityTick.Contended, PriorityTick.Uncontended, PriorityTick.Parts, Sum, Claims, Left, ProRata;
    hide PriorityTick.Committed, PriorityTick.Preempts;
    CapsCover(p);
    UnscaledIsFloors(p);
    var total := Sum(p.st.gpus, FloorsOnly(p));
    if total > p.budget {
      ProRataProduct(FloorsOnly(p)[g], p.budget, total);
    }
  }

  lemma UnscaledIsFloors(p: PriorityTick)
    requires p.Valid() && Physical(p) && Left(p) < 0.0
    ensures p.Unscaled() == FloorsOnly(p)
  {
    hide PriorityTick.Contended, PriorityTick.Uncontended, PriorityTick.Parts, Sum, Claims, Left, Maximum;
    CapsCover(p);
    forall g | g in p.prs ensures p.Unscaled()[g] == FloorsOnly(p)[g] {
      if g in p.Contended() {
        UnscaledCap(p, g);
        NoPart(At(p.Parts(), g), Sum(p.Contended(), Claims(p)), At(Claims(p), g));
      }
    }
    assert p.Unscaled() == FloorsOnly(p);
  }

  lemma NoPart(part: real, total: real, claim: real)
    requires total >= 0.0 && (total == 0.0 ==> part == 0.0) && (total > 0.0 ==> part * total == claim * 0.0)
    ensures part == 0.0
  {
  }

  // ----- A tier does count -----

  lemma PartRisesStrictly(x: real, x': real, limit: real, total: real, part: real, part': real)
    requires 0.0 < x < x' && x < total && limit > 0.0
    requires part * total == x * limit && part' * (total + (x' - x)) == x' * limit
    ensures part' > part
  {
    var total' := total + (x' - x);
    assert x' * total - x * total' == (x' - x) * (total - x) > 0.0;
    var q, q' := part / limit, part' / limit;
    assert part == q * limit && part' == q' * limit;
    Cancel(limit, q * total, x);
    Cancel(limit, q' * total', x');
    assert q * total == x && q' * total' == x';
    assert x' * total == q' * (total * total') && x * total' == q * (total * total');
    ScaleOrderExactly(q', q, total * total');
    StrictScale(q, q', limit);
  }

  lemma ClaimRises(draw: real, t: Tier, t': Tier)
    requires draw > 0.0 && Rank(t) < Rank(t')
    ensures 0.0 < Claim(draw, t) < Claim(draw, t')
  {
  }

  lemma OtherClaimsStay(p: PriorityTick, i: int, t: Tier)
    ensures RaiseTier(p, i, t).Contended() == p.Contended() && Left(RaiseTier(p, i, t)) == Left(p)
    ensures forall g :: g in p.Contended() && g != i ==> At(Claims(RaiseTier(p, i, t)), g) == At(Claims(p), g)
    ensures i in p.Contended() ==> At(Claims(RaiseTier(p, i, t)), i) == Claim(At(p.st.draws, i), t)
  {
    hide Claim, Sum, PriorityTick.Contended, PriorityTick.Uncontended;
    TiersOnlySplit(p, i, t);
  }

  lemma ClaimsTotalRises(p: PriorityTick, i: int, t: Tier)
    requires p.Valid() && i in p.Contended()
    ensures Sum(p.Contended(), Claims(RaiseTier(p, i, t)))
         == Sum(p.Contended(), Claims(p)) + (At(Claims(RaiseTier(p, i, t)), i) - At(Claims(p), i))
  {
    hide PriorityTick.Contended, Claims, Sum, PriorityTick.Valid;
    OtherClaimsStay(p, i, t);
    ContendedNoDup(p);
    forall g | g in p.Contended() && g != i ensures At(Claims(p), g) == At(Claims(RaiseTier(p, i, t)), g) {
    }
    SumChangeOne(p.Contended(), i, Claims(p), Claims(RaiseTier(p, i, t)));
  }

  /** Somebody else contended draws too, so that the GPU has less than all claims. */
  lemma NotAlone(p: PriorityTick, i: int, j: int)
    requires p.Valid() && Physical(p) && i in p.Contended() && j in p.Contended() && i != j && At(p.st.draws, j) > 0.0
    ensures At(Claims(p), i) < Sum(p.Contended(), Claims(p))
  {
    hide PriorityTick.Contended, Sum, PriorityTick.Valid;
    ClaimsAreDemands(p);
    ContendedNoDup(p);
    var without := Claims(p)[j := 0.0];
    forall g | g in p.Contended() ensures At(without, g) >= 0.0 {
    }
    SumNonNegative(p.Contended(), without);
    forall g | g in p.Contended() && g != j ensures At(without, g) == At(Claims(p), g) {
    }
    SumChangeOne(p.Contended(), j, without, Claims(p));
    assert At(Claims(p), j) > 0.0;
  }

  /** A higher tier means a strictly higher cap, if the GPU draws, is below its maximum, there is something to divide and
      somebody else to take it from. */
  lemma RaisingATierRaises(p: PriorityTick, i: int, j: int, t: Tier)
    requires p.Valid() && Physical(p) && p.Preempts() && Left(p) > 0.0
    requires i in p.Contended() && j in p.Contended() && i != j && At(p.st.draws, i) > 0.0 && At(p.st.draws, j) > 0.0
    requires Rank(Get(p.tiers, i, Normal)) < Rank(t) && At(p.Caps(), i) < Maximum(p, i)
    ensures At(RaiseTier(p, i, t).Caps(), i) > At(p.Caps(), i)
  {
    hide PriorityTick.Contended, Claims, Sum, Left, PriorityTick.Caps, PriorityTick.Preempts, Claim, Rank;
    var p' := RaiseTier(p, i, t);
    TiersOnlySplit(p, i, t);
    OtherClaimsStay(p, i, t);
    ClaimRises(At(p.st.draws, i), Get(p.tiers, i, Normal), t);
    OwnClaim(p, i);
    ClaimsTotalRises(p, i, t);
    NotAlone(p, i, j);
    PreemptedCap(p, i);
    PreemptedCap(p', i);
    assert Maximum(p', i) == Maximum(p, i);
    var total, x, x' := Sum(p.Contended(), Claims(p)), At(Claims(p), i), At(Claims(p'), i);
    var cap, cap' := At(p.Caps(), i), At(p'.Caps(), i);
    if cap' < Maximum(p, i) {
      PartRisesStrictly(x, x', Left(p), total, cap - p.floor, cap' - p.floor);
    }
  }

  lemma OwnClaim(p: PriorityTick, g: int)
    requires g in p.Contended()
    ensures At(Claims(p), g) == Claim(At(p.st.draws, g), Get(p.tiers, g, Normal))
  {
  }

  /** A critical and a low GPU, each drawing 400 W under a 500 W cap, with 400 W to divide over floors of 200 W. */
  ghost function CriticalAndLow(): PriorityTick {
    PriorityTick(map[0 := 400.0, 1 := 400.0], 800.0, 0.6, 200.0, map[0 := Critical, 1 := Low],
      DomainState([0, 1], map[0 := 400.0, 1 := 400.0], map[0 := 500.0, 1 := 500.0], map[0 := 700.0, 1 := 700.0], {}))
  }

  lemma BothContended()
    ensures CriticalAndLow().Valid() && CriticalAndLow().Contended() == [0, 1] && CriticalAndLow().Uncontended() == []
  {
    var p := CriticalAndLow();
    ContendedExactly(p, 0);
    ContendedExactly(p, 1);
    hide AtLeastFraction, PriorityTick.ContendedSet, Inside, Outside;
    InsideAll([0, 1], p.ContendedSet());
  }

  /** They divide it eight to one: five thousand ninths and two thousand two hundred ninths of a watt. */
  lemma EightToOne()
    ensures var p := CriticalAndLow();
            At(p.Caps(), 0) * 9.0 == 5000.0 && At(p.Caps(), 1) * 9.0 == 2200.0
  {
    var p := CriticalAndLow();
    BothContended();
    hide PriorityTick.Contended, PriorityTick.Uncontended, PriorityTick.Caps, Sum;
    SumTwo(0, 1, Claims(p));
    assert Sum([], p.prs) == 0.0 by { EmptySum(p.prs); }
    PreemptedCap(p, 0);
    PreemptedCap(p, 1);
  }

  lemma EmptySum(m: map<int, real>)
    ensures Sum([], m) == 0.0
  {
  }
}
