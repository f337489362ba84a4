/** What the thermal brain gives each GPU, said of its cap alone: how far a throttled GPU is backed off, from above and
    from below, and who gets the watts. */
module ThermalCaps {
  import opened Sums
  import opened Prs
  import opened Thermal
  import PrsCaps
  import Sim

  /** The lower of the PRS proposal and the cap held. */
  ghost function Base(t: ThermalTick, g: int): real {
    if g in t.st.caps && t.st.caps[g] < At(t.prs, g) then t.st.caps[g] else At(t.prs, g)
  }

  /** A base backed off by the derated part of it, but not below the floor; one below the floor, or below zero, stays. */
  ghost predicate BackedOff(cap: real, base: real, derate: real, floor: real) {
    var rest := base - derate * base;
    && (base < floor || base < 0.0 ==> cap == base)
    && (base >= floor && base >= 0.0 && rest >= floor ==> cap == rest)
    && (base >= floor && base >= 0.0 && rest <= floor ==> cap == floor)
  }

  /** What a throttled GPU gets; in particular nothing below the floor when its base reaches it. */
  lemma ThrottledCap(t: ThermalTick, g: int)
    requires t.Valid() && g in t.Throttled()
    ensures g in t.Caps() && BackedOff(t.Caps()[g], Base(t, g), t.derate, t.floor)
    ensures Base(t, g) >= t.floor ==> t.Caps()[g] >= t.floor
  {
    hide ThermalTick.Caps, BackOff, BackedOff;
    ThrottledDrops(t, g);
    BackOffExactly(Base(t, g), t.prs[g], Get(t.st.caps, g, t.prs[g]), t.derate, t.floor);
  }

  lemma BackOffExactly(base: real, proposed: real, held: real, derate: real, floor: real)
    requires 0.0 <= derate < 1.0 && base == Min(proposed, held)
    ensures BackedOff(BackOff(proposed, held, derate, floor), base, derate, floor)
    ensures base >= floor ==> BackOff(proposed, held, derate, floor) >= floor
  {
    var rest := base - derate * base;
    assert Derated(base, derate) == rest;
    hide Derated;
    DeratedIsLess(base, derate);
  }

  lemma DeratedIsLess(base: real, derate: real)
    requires 0.0 <= derate < 1.0
    ensures base >= 0.0 ==> 0.0 <= base - derate * base <= base
    ensures base <= 0.0 ==> base <= base - derate * base
  {
    if base >= 0.0 {
      ScaleOrder(0.0, base, derate);
      ScaleOrder(0.0, base, 1.0 - derate);
    } else {
      ScaleOrder(base, 0.0, derate);
    }
  }

  // ----- The others -----

  /** How far each other GPU's cap is below its maximum. */
  ghost function Headrooms(t: ThermalTick): map<int, real> {
    map g | g in t.Recipients() :: if g in t.st.maxCaps && t.st.maxCaps[g] > At(t.prs, g) then t.st.maxCaps[g] - At(t.prs, g) else 0.0
  }

  /** What the throttled GPUs get less than PRS proposed. */
  ghost function TakenBack(t: ThermalTick): real {
    Sum(t.Throttled(), t.prs) - Sum(t.Throttled(), t.Caps())
  }

  lemma FreedIsTakenBack(t: ThermalTick)
    requires t.Valid()
    ensures t.Freed() == TakenBack(t) && t.Freed() >= 0.0
  {
    hide ThermalTick.Caps, ThermalTick.Reduced, Inside, Outside, Sum;
    FreedNonNegative(t);
    forall g | g in t.Throttled() ensures At(t.prs, g) == At(t.Caps(), g) + At(Drops(t.prs, t.Reduced()), g) {
      ReducedIsFinal(t, g);
    }
    SumPlus(t.Throttled(), t.Caps(), Drops(t.prs, t.Reduced()), t.prs);
  }

  lemma ReducedIsFinal(t: ThermalTick, g: int)
    requires t.Valid() && g in t.Throttled()
    ensures g in t.prs && At(t.prs, g) == At(t.Caps(), g) + At(Drops(t.prs, t.Reduced()), g)
  {
    hide BackOff, Inside, Outside, Sum, ProRata;
    ThrottledDrops(t, g);
  }

  lemma RoomsAreHeadrooms(t: ThermalTick)
    ensures Rooms(t.prs, t.Recipients(), t.st) == Headrooms(t)
    ensures forall g :: g in t.Recipients() ==> At(Headrooms(t), g) >= 0.0
  {
    hide Inside, Outside;
    var rooms := Rooms(t.prs, t.Recipients(), t.st);
    forall g | g in t.Recipients() ensures rooms[g] == Headrooms(t)[g] {
    }
    assert rooms == Headrooms(t);
  }

  /** The watts taken back go to the others in proportion to their headrooms, as far as those reach. */
  lemma RecipientCap(t: ThermalTick, g: int)
    requires t.Valid() && g in t.Recipients()
    ensures g in t.Caps() && TakenBack(t) >= 0.0
    ensures var total := Sum(t.Recipients(), Headrooms(t));
            && total >= 0.0 && (total == 0.0 ==> t.Caps()[g] == t.prs[g])
            && (t.Caps()[g] - t.prs[g]) * total == At(Headrooms(t), g) * Min(TakenBack(t), total)
  {
    hide Rooms, Headrooms, ThermalTick.Reduced, Sum, ProRata, Inside, Outside, TakenBack;
    FreedIsTakenBack(t);
    RoomsAreHeadrooms(t);
    forall h | h in t.Recipients() ensures At(Headrooms(t), h) >= 0.0 {
    }
    SumNonNegative(t.Recipients(), Headrooms(t));
    var total, room := Sum(t.Recipients(), Headrooms(t)), At(Headrooms(t), g);
    NoneThrottled(t);
    UnthrottledIsKept(t, g);
    if t.Freed() > 0.0 && total > 0.0 {
      ProRataProduct(room, Min(t.Freed(), total), total);
    }
  }

  lemma NoneThrottled(t: ThermalTick)
    ensures t.Throttled() == [] ==> t.Freed() == 0.0
  {
  }

  lemma UnthrottledIsKept(t: ThermalTick, g: int)
    requires t.Valid() && g in t.Recipients()
    ensures g in t.prs && g in t.Reduced() && t.Reduced()[g] == t.prs[g]
  {
    hide BackOff, Inside, Outside;
    assert At(t.Reduced(), g) == At(t.prs, g);
  }

  // ----- Runs, from below -----

  /** A GPU whose proposal and held cap reach the floor is not taken below it. */
  lemma FloorIsKept(t: ThermalTick, g: int, floor: real)
    requires t.Valid() && g in t.st.gpus && floor <= t.floor
    requires At(t.prs, g) >= floor && (g in t.st.caps ==> t.st.caps[g] >= floor)
    ensures g in t.Caps() && t.Caps()[g] >= floor
  {
    hide ThermalTick.Caps;
    if g in t.Throttled() {
      ThrottledCap(t, g);
    } else {
      RecipientBounds(t, g);
    }
  }

  /** The cap of a GPU that is throttled throughout never falls below the floor, if it starts there and PRS never asks for
      less. */
  lemma {:induction false} ThrottledKeepsFloor(run: seq<ThermalTick>, g: int, derate: real, floor: real, maxCap: real)
    requires run != [] && ThrottledRun(run, g, derate, floor, maxCap)
    requires 0.0 <= floor <= maxCap && run[0].st.caps[g] >= floor
    requires forall i :: 0 <= i < |run| ==> At(run[i].prs, g) >= floor
    ensures Sim.Enforced(At(run[|run| - 1].Caps(), g), maxCap) >= floor
  {
    hide ThermalTick.Caps, ThermalTick.Throttled;
    var before, last := run[..|run| - 1], run[|run| - 1];
    if before != [] {
      ThrottledKeepsFloor(before, g, derate, floor, maxCap);
      assert before[|before| - 1] == run[|run| - 2] && before[0] == run[0];
    }
    ThrottledIsPresent(last, g);
    FloorIsKept(last, g, floor);
  }

  lemma ThrottledIsPresent(t: ThermalTick, g: int)
    requires g in t.Throttled()
    ensures g in t.st.gpus
  {
  }

  lemma OneBackOff(t: ThermalTick, g: int, maxCap: real)
    requires t.Valid() && g in t.Throttled() && g in t.st.caps && At(t.prs, g) >= t.st.caps[g]
    requires 0.0 <= t.floor <= t.st.caps[g] <= maxCap
    ensures Sim.Enforced(At(t.Caps(), g), maxCap) == Max(t.floor, t.st.caps[g] - t.derate * t.st.caps[g])
    ensures t.floor <= Sim.Enforced(At(t.Caps(), g), maxCap) <= t.st.caps[g]
  {
    hide ThermalTick.Caps, ThermalTick.Throttled;
    ThrottledCap(t, g);
    DeratedIsLess(t.st.caps[g], t.derate);
  }

  /** When PRS never asks for less than the GPU holds, the cap after k throttled ticks is exactly the k-fold derated one,
      or the floor. */
  lemma {:induction false} ThrottledDecaysExactly(run: seq<ThermalTick>, g: int, derate: real, floor: real, maxCap: real)
    requires run != [] && ThrottledRun(run, g, derate, floor, maxCap)
    requires 0.0 <= floor <= run[0].st.caps[g] <= maxCap
    requires forall i :: 0 <= i < |run| ==> At(run[i].prs, g) >= run[i].st.caps[g]
    ensures floor <= Sim.Enforced(At(run[|run| - 1].Caps(), g), maxCap) <= maxCap
    ensures Sim.Enforced(At(run[|run| - 1].Caps(), g), maxCap) == Max(floor, Decayed(derate, |run|, run[0].st.caps[g]))
  {
    hide ThermalTick.Caps, ThermalTick.Throttled, Decayed, Sim.Enforced;
    var before, last, start := run[..|run| - 1], run[|run| - 1], run[0].st.caps[g];
    DecaySteps(derate, |before|, start);
    if before == [] {
    } else {
      ThrottledDecaysExactly(before, g, derate, floor, maxCap);
      assert before[|before| - 1] == run[|run| - 2] && before[0] == run[0];
      DecaySteps(derate, 0, start);
    }
    OneBackOff(last, g, maxCap);
    DecayFromFloor(derate, floor, Decayed(derate, |before|, start), Decayed(derate, |run|, start), last.st.caps[g]);
  }

  lemma DecayFromFloor(derate: real, floor: real, decayed: real, next: real, held: real)
    requires 0.0 <= derate < 1.0 && floor >= 0.0 && next == (1.0 - derate) * decayed && held == Max(floor, decayed)
    ensures Max(floor, held - derate * held) == Max(floor, next)
  {
    DeratedIsLess(held, derate);
    if decayed < floor {
      ScaleOrder(decayed, floor, 1.0 - derate);
      DeratedIsLess(floor, derate);
    }
  }
}
