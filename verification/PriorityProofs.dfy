/** Budget, floor and preemption properties of the priority brain. */
module PriorityProofs {
  import opened Sums
  import opened Tiers
  import opened Prs
  import opened Priority

  /** Draws are never negative. */
  ghost predicate Physical(p: PriorityTick) {
    forall g :: g in p.st.draws ==> p.st.draws[g] >= 0.0
  }

  lemma DemandNonNegative(p: PriorityTick, g: int)
    requires Physical(p) && g in p.Contended()
    ensures At(Demands(p.Contended(), p.st, p.tiers), g) >= 0.0
  {
    DemandGrows(At(p.st.draws, g), At(p.st.draws, g), Get(p.tiers, g, Normal), Get(p.tiers, g, Normal));
  }

  lemma DemandGrows(draw: real, draw': real, t: Tier, t': Tier)
    requires 0.0 <= draw <= draw' && Weight(t) <= Weight(t')
    ensures 0.0 <= Demand(draw, Weight(t)) <= Demand(draw', Weight(t'))
  {
    assert draw * Weight(t) <= draw * Weight(t') <= draw' * Weight(t');
  }

  // ----- Budget and floor -----

  lemma PartsUseSurplus(contended: seq<int>, demands: map<int, real>, surplus: real)
    requires surplus >= 0.0
    requires forall g :: g in contended ==> At(demands, g) >= 0.0
    ensures Sum(contended, Surpluses(contended, demands, surplus)) == if Sum(contended, demands) == 0.0 then 0.0 else surplus
  {
    hide ProRata;
    var sum, parts := Sum(contended, demands), Surpluses(contended, demands, surplus);
    if sum == 0.0 {
      forall g | g in contended ensures At(demands, g) >= 0.0 {}
      SumNonNegative(contended, demands);
      forall g | g in contended ensures At(parts, g) == 0.0 {
        assert At(demands, g) == 0.0;
        ProRataOfNothing(surplus, 1.0);
      }
      SumConstant(contended, parts, 0.0);
    } else {
      forall g | g in contended ensures At(parts, g) == ProRata(At(demands, g), surplus, sum) {
      }
      SumProRata(contended, demands, parts, surplus);
    }
  }

  lemma PartsNonNegative(contended: seq<int>, demands: map<int, real>, surplus: real)
    requires surplus >= 0.0
    requires forall g :: g in contended ==> At(demands, g) >= 0.0
    ensures forall g :: g in contended ==> At(Surpluses(contended, demands, surplus), g) >= 0.0
  {
    hide ProRata;
    var sum := Sum(contended, demands);
    forall g | g in contended ensures At(demands, g) >= 0.0 {}
    SumNonNegative(contended, demands);
    forall g | g in contended ensures At(Surpluses(contended, demands, surplus), g) >= 0.0 {
      ProRataNonNegative(At(demands, g), surplus, if sum == 0.0 then 1.0 else sum);
    }
  }

  /** The lifted caps of the contended GPUs add up to at most their floors and the surplus. */
  lemma LiftedTotal(prs: map<int, real>, contended: seq<int>, parts: map<int, real>, floor: real, st: DomainState)
    requires forall g :: g in contended ==> g in prs
    ensures Sum(contended, LiftAll(prs, contended, parts, floor, st)) <= Times(floor, |contended|) + Sum(contended, parts)
  {
    var floors := map g | g in contended :: floor;
    var lifted := map g | g in contended :: floor + At(parts, g);
    SumConstant(contended, floors, floor);
    SumPlus(contended, floors, parts, lifted);
    forall g | g in contended ensures At(LiftAll(prs, contended, parts, floor, st), g) <= At(lifted, g) {
    }
    SumMonotone(contended, LiftAll(prs, contended, parts, floor, st), lifted);
  }

  /** When reserved caps and floors fit the budget, the unscaled caps fit it too. */
  lemma UnscaledFits(p: PriorityTick)
    requires p.Valid() && Physical(p) && p.Committed() <= p.budget
    ensures Sum(p.st.gpus, p.Unscaled()) <= p.budget
  {
    hide LiftAll, Surpluses, Demand, Demands, Times, AtLeastFraction, Sum, Inside, Outside;
    var demands := Demands(p.Contended(), p.st, p.tiers);
    forall g | g in p.Contended() ensures At(demands, g) >= 0.0 {
      DemandNonNegative(p, g);
    }
    SumPartition(p.st.gpus, p.ContendedSet(), p.Unscaled());
    PartsUseSurplus(p.Contended(), demands, p.Surplus());
    LiftedTotal(p.prs, p.Contended(), p.Parts(), p.floor, p.st);
    UncontendedKeep(p);
    forall g | g in p.Uncontended() ensures At(p.Unscaled(), g) == At(p.prs, g) {}
    SumSame(p.Uncontended(), p.Unscaled(), p.prs);
  }

  lemma UncontendedKeep(p: PriorityTick)
    ensures forall g :: g in p.Uncontended() ==> At(p.Unscaled(), g) == At(p.prs, g)
  {
  }

  /** With at least two contended GPUs the caps never exceed a positive budget, feasible floors or not. */
  lemma PreemptionWithinBudget(p: PriorityTick)
    requires p.Valid() && p.Preempts()
    ensures Sum(p.st.gpus, p.Caps()) <= p.budget
  {
    hide LiftAll, Surpluses, Demand, Demands, Times, ProRata, AtLeastFraction;
    var unscaled := p.Unscaled();
    var total := Sum(p.st.gpus, unscaled);
    if total > p.budget {
      forall g | g in p.st.gpus ensures At(p.Caps(), g) == ProRata(At(unscaled, g), p.budget, total) {
      }
      SumProRata(p.st.gpus, unscaled, p.Caps(), p.budget);
    }
  }

  /** The claim that the caps always fit the budget holds exactly when preemption happens or PRS itself fits. */
  lemma WithinBudgetExactly(p: PriorityTick)
    requires p.Valid()
    ensures Sum(p.st.gpus, p.Caps()) <= p.budget <==> p.Preempts() || Sum(p.st.gpus, p.prs) <= p.budget
  {
    hide PriorityTick.Unscaled;
    if p.Preempts() {
      PreemptionWithinBudget(p);
    }
  }

  /** When reserved caps and floors fit, nobody is scaled: contended GPUs get their floor or their hardware maximum,
      uncontended ones keep what PRS gave them. */
  lemma FloorsAreKept(p: PriorityTick)
    requires p.Valid() && Physical(p) && p.Preempts() && p.Committed() <= p.budget
    ensures p.Caps() == p.Unscaled()
    ensures forall g :: g in p.Contended() ==> At(p.Caps(), g) >= Min(p.floor, Get(p.st.maxCaps, g, p.prs[g]))
    ensures forall g :: g in p.Uncontended() ==> At(p.Caps(), g) == At(p.prs, g)
  {
    hide Surpluses, Demand, Times, AtLeastFraction;
    UnscaledFits(p);
    var demands := Demands(p.Contended(), p.st, p.tiers);
    forall g | g in p.Contended() ensures At(demands, g) >= 0.0 {
      DemandNonNegative(p, g);
    }
    PartsNonNegative(p.Contended(), demands, p.Surplus());
    UncontendedKeep(p);
  }

  // ----- Comparative statics -----

  lemma ProRataRisesWithTotal(x: real, x': real, limit: real, total: real)
    requires 0.0 <= x <= x' && x <= total && limit >= 0.0 && total > 0.0
    ensures total + (x' - x) > 0.0
    ensures ProRata(x', limit, total + (x' - x)) >= ProRata(x, limit, total)
  {
    var total' := total + (x' - x);
    assert x' * total >= x * total' by {
      assert x' * total - x * total' == (x' - x) * (total - x);
      assert (x' - x) * (total - x) >= 0.0;
    }
    CrossMultiply(x, x', total, total', limit);
  }

  lemma ProRataFallsWithTotal(y: real, limit: real, total: real, total': real)
    requires y >= 0.0 && limit >= 0.0 && 0.0 < total <= total'
    ensures ProRata(y, limit, total') <= ProRata(y, limit, total)
  {
    assert y * total' >= y * total;
    CrossMultiply(y, y, total', total, limit);
  }

  lemma CrossMultiply(x: real, x': real, total: real, total': real, limit: real)
    requires total > 0.0 && total' > 0.0 && limit >= 0.0 && x' * total >= x * total'
    ensures ProRata(x', limit, total') >= ProRata(x, limit, total)
  {
    QuotientOrder(x, x', total, total');
    ProRataIsScaling(x, limit, total, limit / total);
    ProRataIsScaling(x', limit, total', limit / total');
    var a, b := x / total, x' / total';
    assert b * limit >= a * limit;
  }

  lemma QuotientOrder(x: real, x': real, total: real, total': real)
    requires total > 0.0 && total' > 0.0 && x' * total >= x * total'
    ensures x' / total' >= x / total
  {
    var a, b := x / total, x' / total';
    assert a * total == x && b * total' == x';
  }

  /** Raising the demand of one GPU raises its part and lowers everybody else's. */
  lemma PartsShift(contended: seq<int>, demands: map<int, real>, demands': map<int, real>, surplus: real, i: int)
    requires NoDup(contended) && i in contended && surplus >= 0.0
    requires forall g :: g in contended ==> At(demands, g) >= 0.0
    requires forall g :: g in contended && g != i ==> At(demands, g) == At(demands', g)
    requires At(demands, i) <= At(demands', i) && (At(demands, i) == 0.0 ==> At(demands', i) == 0.0)
    ensures forall g :: g in contended && g != i ==>
      At(Surpluses(contended, demands', surplus), g) <= At(Surpluses(contended, demands, surplus), g)
    ensures At(Surpluses(contended, demands', surplus), i) >= At(Surpluses(contended, demands, surplus), i)
  {
    hide ProRata, Sum;
    var sum, sum' := Sum(contended, demands), Sum(contended, demands');
    forall g | g in contended ensures At(demands, g) >= 0.0 {}
    SumNonNegative(contended, demands);
    forall g | g in contended && g != i ensures At(demands, g) == At(demands', g) {}
    SumChangeOne(contended, i, demands, demands');
    if sum == 0.0 {
      assert At(demands, i) == 0.0;
      assert sum' == 0.0;
    } else {
      ProRataRisesWithTotal(At(demands, i), At(demands', i), surplus, sum);
      forall g | g in contended && g != i
        ensures ProRata(At(demands', g), surplus, sum') <= ProRata(At(demands, g), surplus, sum)
      {
        ProRataFallsWithTotal(At(demands, g), surplus, sum, sum');
      }
    }
  }

  ghost function RaiseTier(p: PriorityTick, i: int, t: Tier): PriorityTick {
    p.(tiers := p.tiers[i := t])
  }

  lemma RaisedDemands(p: PriorityTick, i: int, t: Tier)
    requires p.Valid() && Physical(p) && i in p.Contended() && Weight(Get(p.tiers, i, Normal)) <= Weight(t)
    ensures var d, d' := Demands(p.Contended(), p.st, p.tiers), Demands(p.Contended(), p.st, p.tiers[i := t]);
            && (forall g :: g in p.Contended() ==> At(d, g) >= 0.0)
            && (forall g :: g in p.Contended() && g != i ==> At(d, g) == At(d', g))
            && At(d, i) <= At(d', i) && (At(d, i) == 0.0 ==> At(d', i) == 0.0)
  {
    hide PriorityTick.Contended;
    var d, d' := Demands(p.Contended(), p.st, p.tiers), Demands(p.Contended(), p.st, p.tiers[i := t]);
    forall g | g in p.Contended() ensures At(d, g) >= 0.0 {
      DemandNonNegative(p, g);
    }
    DemandGrows(At(p.st.draws, i), At(p.st.draws, i), Get(p.tiers, i, Normal), t);
    if At(d, i) == 0.0 {
      assert At(p.st.draws, i) == 0.0;
    }
  }

  /** Without a surplus tiers do not matter: everybody contended gets the floor or the hardware maximum. */
  lemma NoSurplusNoTiers(contended: seq<int>, demands: map<int, real>)
    ensures forall g :: g in contended ==> At(Surpluses(contended, demands, 0.0), g) == 0.0
  {
    var sum := Sum(contended, demands);
    forall g | g in contended ensures At(Surpluses(contended, demands, 0.0), g) == 0.0 {
      ProRataOfNothing(At(demands, g), if sum == 0.0 then 1.0 else sum);
    }
  }

  /** Tiers decide neither who is contended nor how much is left to split. */
  lemma TiersOnlySplit(p: PriorityTick, i: int, t: Tier)
    ensures var p' := RaiseTier(p, i, t);
            && p'.Contended() == p.Contended() && p'.Uncontended() == p.Uncontended()
            && p'.Surplus() == p.Surplus() && p'.Committed() == p.Committed() && p'.Preempts() == p.Preempts()
  {
    hide Times, AtLeastFraction, Sum, Inside, Outside;
  }

  lemma RaisingWithoutSurplus(p: PriorityTick, i: int, t: Tier)
    requires p.Surplus() == 0.0
    ensures RaiseTier(p, i, t).Unscaled() == p.Unscaled()
  {
    hide Surpluses, Demands, PriorityTick.Contended, PriorityTick.Surplus;
    var p' := RaiseTier(p, i, t);
    TiersOnlySplit(p, i, t);
    NoSurplusNoTiers(p.Contended(), Demands(p.Contended(), p.st, p.tiers));
    NoSurplusNoTiers(p.Contended(), Demands(p.Contended(), p.st, p'.tiers));
    assert forall g :: g in p.prs ==> p'.Unscaled()[g] == p.Unscaled()[g];
  }

  lemma ContendedNoDup(p: PriorityTick)
    requires p.Valid()
    ensures NoDup(p.Contended())
  {
  }

  lemma RaisingWithSurplus(p: PriorityTick, i: int, t: Tier)
    requires p.Valid() && Physical(p) && i in p.Contended() && Weight(Get(p.tiers, i, Normal)) <= Weight(t)
    ensures var before, after := p.Unscaled(), RaiseTier(p, i, t).Unscaled();
            && At(after, i) >= At(before, i)
            && (forall g :: g in p.Contended() && g != i ==> At(after, g) <= At(before, g))
            && (forall g :: g in p.Uncontended() ==> At(after, g) == At(before, g))
  {
    hide Surpluses, Demands, PriorityTick.Contended, PriorityTick.Uncontended, Weight, Sum;
    var p' := RaiseTier(p, i, t);
    TiersOnlySplit(p, i, t);
    assert p.Surplus() >= 0.0;
    ContendedNoDup(p);
    hide PriorityTick.Surplus;
    RaisedDemands(p, i, t);
    PartsShift(p.Contended(), Demands(p.Contended(), p.st, p.tiers), Demands(p.Contended(), p.st, p'.tiers), p.Surplus(), i);
    UncontendedKeep(p);
    UncontendedKeep(p');
  }

  /** Raising the tier of one contended GPU never lowers its cap, never raises another contended GPU's cap,
      and leaves the uncontended alone. */
  lemma RaisingATier(p: PriorityTick, i: int, t: Tier)
    requires p.Valid() && Physical(p) && i in p.Contended() && Weight(Get(p.tiers, i, Normal)) <= Weight(t)
    ensures At(RaiseTier(p, i, t).Caps(), i) >= At(p.Caps(), i)
    ensures forall g :: g in p.Contended() && g != i ==> At(RaiseTier(p, i, t).Caps(), g) <= At(p.Caps(), g)
    ensures forall g :: g in p.Uncontended() ==> At(RaiseTier(p, i, t).Caps(), g) == At(p.Caps(), g)
  {
    hide PriorityTick.Unscaled, PriorityTick.Contended, PriorityTick.Uncontended, PriorityTick.Preempts, Weight, ScaleAll, Sum;
    var p' := RaiseTier(p, i, t);
    TiersOnlySplit(p, i, t);
    if p.Surplus() == 0.0 {
      RaisingWithoutSurplus(p, i, t);
    } else {
      RaisingWithSurplus(p, i, t);
      UnscaledFits(p);
      UnscaledFits(p');
    }
  }

  lemma ProRataOrder(x: real, y: real, limit: real, total: real)
    requires x <= y && limit >= 0.0 && total > 0.0
    ensures ProRata(x, limit, total) <= ProRata(y, limit, total)
  {
    assert x * total <= y * total;
    CrossMultiply(x, y, total, total, limit);
  }

  lemma PartsOrder(contended: seq<int>, demands: map<int, real>, surplus: real, a: int, b: int)
    requires surplus >= 0.0 && a in contended && b in contended
    requires forall g :: g in contended ==> At(demands, g) >= 0.0
    requires At(demands, a) >= At(demands, b)
    ensures At(Surpluses(contended, demands, surplus), a) >= At(Surpluses(contended, demands, surplus), b)
  {
    hide ProRata, Sum;
    var sum := Sum(contended, demands);
    forall g | g in contended ensures At(demands, g) >= 0.0 {}
    SumNonNegative(contended, demands);
    ProRataOrder(At(demands, b), At(demands, a), surplus, if sum == 0.0 then 1.0 else sum);
  }

  /** Of two contended GPUs, the one with at least the other's draw, tier weight and hardware maximum
      gets at least its cap, scaled or not. */
  lemma StrongerClaimGetsMore(p: PriorityTick, a: int, b: int)
    requires p.Valid() && Physical(p) && p.Preempts() && a in p.Contended() && b in p.Contended()
    requires At(p.st.draws, a) >= At(p.st.draws, b)
    requires Weight(Get(p.tiers, a, Normal)) >= Weight(Get(p.tiers, b, Normal))
    requires Get(p.st.maxCaps, a, p.prs[a]) >= Get(p.st.maxCaps, b, p.prs[b])
    ensures At(p.Caps(), a) >= At(p.Caps(), b)
  {
    hide Surpluses, Demand, Times, AtLeastFraction, ProRata;
    var demands := Demands(p.Contended(), p.st, p.tiers);
    forall g | g in p.Contended() ensures At(demands, g) >= 0.0 {
      DemandNonNegative(p, g);
    }
    DemandGrows(At(p.st.draws, b), At(p.st.draws, a), Get(p.tiers, b, Normal), Get(p.tiers, a, Normal));
    PartsOrder(p.Contended(), demands, p.Surplus(), a, b);
    assert p.Unscaled()[a] >= p.Unscaled()[b];
    var total := Sum(p.st.gpus, p.Unscaled());
    if total > p.budget {
      ProRataOrder(p.Unscaled()[b], p.Unscaled()[a], p.budget, total);
    }
  }
}
