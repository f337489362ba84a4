/** Thermal awareness: throttled GPUs are backed off, and the freed watts go to the others up to their
    hardware maxima. */
module Thermal {
  import opened Sums
  import opened PdnModel
  import opened Prs
  import PrsBudget
  import Sim

  function Derated(base: real, derate: real): real {
    base * (1.0 - derate)
  }

  /** Back off towards the floor, but never above what is held or proposed. */
  function BackOff(proposed: real, held: real, derate: real, floor: real): real {
    var base := Min(proposed, held);
    Min(base, Max(floor, Derated(base, derate)))
  }

  function BackOffAll(prs: map<int, real>, throttled: seq<int>, st: DomainState, derate: real,
      floor: real): (r: map<int, real>)
    ensures r.Keys == prs.Keys
    ensures forall g :: g in prs && g !in throttled ==> At(r, g) == At(prs, g)
  {
    map g | g in prs :: if g in throttled then BackOff(prs[g], Get(st.caps, g, prs[g]), derate, floor) else prs[g]
  }

  /** How much each cap was lowered. */
  function Drops(prs: map<int, real>, reduced: map<int, real>): map<int, real> {
    map g | g in prs :: prs[g] - At(reduced, g)
  }

  function Rooms(prs: map<int, real>, recipients: seq<int>, st: DomainState): map<int, real> {
    map g | g in recipients :: Max(0.0, Get(st.maxCaps, g, At(prs, g)) - At(prs, g))
  }

  function HandOut(caps: map<int, real>, recipients: seq<int>, rooms: map<int, real>, give: real,
      total: real): (r: map<int, real>)
    requires total != 0.0
    ensures r.Keys == caps.Keys
  {
    map g | g in caps :: if g in recipients then caps[g] + ProRata(At(rooms, g), give, total) else caps[g]
  }

  /** One decision, given what the wrapped PRS proposed. */
  datatype ThermalTick = ThermalTick(prs: map<int, real>, derate: real, floor: real, st: DomainState) {

    ghost predicate Valid() {
      st.Valid() && 0.0 <= derate < 1.0 && forall g :: g in prs <==> g in st.gpus
    }

    function Throttled(): (r: seq<int>)
      ensures forall g :: g in r <==> g in st.gpus && g in st.throttled
    {
      Inside(st.gpus, st.throttled)
    }

    function Recipients(): (r: seq<int>)
      ensures forall g :: g in r <==> g in st.gpus && g !in st.throttled
    {
      Outside(st.gpus, st.throttled)
    }

    function Reduced(): map<int, real> {
      BackOffAll(prs, Throttled(), st, derate, floor)
    }

    function Freed(): real {
      Sum(Throttled(), Drops(prs, Reduced()))
    }

    function TotalRoom(): real {
      Sum(Recipients(), Rooms(prs, Recipients(), st))
    }

    /** The freed watts that somebody can use. */
    function Given(): real {
      if Freed() > 0.0 && TotalRoom() > 0.0 then Min(Freed(), TotalRoom()) else 0.0
    }

    function Caps(): map<int, real> {
      if Throttled() == [] then prs
      else if Freed() > 0.0 && TotalRoom() > 0.0 then
        HandOut(Reduced(), Recipients(), Rooms(prs, Recipients(), st), Min(Freed(), TotalRoom()), TotalRoom())
      else Reduced()
    }
  }

  class ThermalAwarePRSBrain {
    const topology: Topology
    const prs: PRSBrain
    const derate: real
    const minCap: real

    constructor (topology: Topology, derate: real, minCap: real, cfg: PrsConfig)
      requires cfg.Valid() && 0.0 <= derate < 1.0
      ensures this.topology == topology && this.derate == derate && this.minCap == minCap
      ensures fresh(prs) && prs.topology == topology && prs.cfg == cfg
      ensures prs.ewma == map[] && prs.lastCaps == map[]
    {
      this.topology := topology;
      this.derate := derate;
      this.minCap := minCap;
      prs := new PRSBrain(topology, cfg);
    }

    ghost function TickOf(domain: string, st: DomainState): ThermalTick
      requires domain in topology.pdn.domains && prs.topology == topology
      reads this, prs, topology
    {
      ThermalTick(prs.TickOf(domain, st).Caps(), derate, minCap, st)
    }

    method Decide(domain: string, st: DomainState) returns (caps: map<int, real>)
      requires domain in topology.pdn.domains && st.Valid() && prs.cfg.Valid() && prs.topology == topology
      modifies prs
      ensures caps == old(TickOf(domain, st)).Caps()
      ensures prs.Memory(domain) == PrsMemory(old(prs.TickOf(domain, st)).Ewma(), caps)
      ensures forall d :: d != domain ==> prs.Memory(d) == old(prs.Memory(d))
    {
      hide Sum, Inside, Outside, BackOffAll, Drops, Rooms, HandOut;
      hide PdnModel.Topology.DomainBudget, Tick.Caps, Tick.Ewma, Tick.Metrics;
      ghost var t := TickOf(domain, st);
      var proposed := prs.Decide(domain, st);
      PrsBudget.CapsCoverTelemetry(old(prs.TickOf(domain, st)));
      var throttled := Inside(st.gpus, st.throttled);
      if throttled == [] {
        return proposed;
      }
      var freed;
      caps, freed := BackOffThrottled(proposed, throttled, st);
      if freed > 0.0 {
        var recipients := Outside(st.gpus, st.throttled);
        var rooms := FindRoom(proposed, caps, recipients, st);
        var totalRoom := Sum(recipients, rooms);
        if totalRoom > 0.0 {
          caps := Distribute(caps, recipients, rooms, Min(freed, totalRoom), totalRoom);
        }
      }
      prs.NoteAppliedCaps(domain, caps);
    }

    method BackOffThrottled(proposed: map<int, real>, throttled: seq<int>, st: DomainState)
        returns (caps: map<int, real>, freed: real)
      requires NoDup(throttled) && forall g :: g in throttled ==> g in proposed
      ensures caps == BackOffAll(proposed, throttled, st, derate, minCap)
      ensures freed == Sum(throttled, Drops(proposed, caps))
    {
      hide Derated;
      caps, freed := proposed, 0.0;
      ghost var target := BackOffAll(proposed, throttled, st, derate, minCap);
      for i := 0 to |throttled|
        invariant caps.Keys == proposed.Keys
        invariant forall g :: g in proposed ==> caps[g] == if g in throttled[..i] then target[g] else proposed[g]
        invariant freed == Sum(throttled[..i], Drops(proposed, target))
      {
        var g := throttled[i];
        assert g in throttled && g !in throttled[..i];
        var base := Min(caps[g], Get(st.caps, g, caps[g]));
        var reduced := Min(base, Max(minCap, Derated(base, derate)));
        assert reduced == target[g];
        freed := freed + (caps[g] - reduced);
        caps := caps[g := reduced];
        assert throttled[..i + 1][..i] == throttled[..i];
        assert At(Drops(proposed, target), g) == proposed[g] - reduced;
      }
      assert throttled[..|throttled|] == throttled;
      assert forall g :: g in caps ==> caps[g] == target[g];
    }

    method FindRoom(ghost proposed: map<int, real>, caps: map<int, real>, recipients: seq<int>, st: DomainState)
        returns (rooms: map<int, real>)
      requires forall g :: g in recipients ==> g in caps && At(caps, g) == At(proposed, g)
      ensures rooms == Rooms(proposed, recipients, st)
    {
      rooms := map[];
      for i := 0 to |recipients|
        invariant forall g :: g in rooms <==> g in recipients[..i]
        invariant forall g :: g in rooms ==> rooms[g] == Rooms(proposed, recipients, st)[g]
      {
        var g := recipients[i];
        assert g in recipients;
        rooms := rooms[g := Max(0.0, Get(st.maxCaps, g, caps[g]) - caps[g])];
      }
      assert recipients[..|recipients|] == recipients;
      assert forall g :: g in rooms ==> rooms[g] == Rooms(proposed, recipients, st)[g];
      assert forall g :: g in rooms <==> g in Rooms(proposed, recipients, st);
      assert rooms == Rooms(proposed, recipients, st);
    }

    method Distribute(caps: map<int, real>, recipients: seq<int>, rooms: map<int, real>, give: real, total: real)
        returns (r: map<int, real>)
      requires total != 0.0 && NoDup(recipients) && forall g :: g in recipients ==> g in caps
      ensures r == HandOut(caps, recipients, rooms, give, total)
    {
      hide ProRata;
      r := caps;
      for i := 0 to |recipients|
        invariant r.Keys == caps.Keys
        invariant forall g :: g in caps ==>
          r[g] == if g in recipients[..i] then caps[g] + ProRata(At(rooms, g), give, total) else caps[g]
      {
        var g := recipients[i];
        assert g in recipients && g !in recipients[..i];
        r := r[g := r[g] + ProRata(At(rooms, g), give, total)];
      }
      assert recipients[..|recipients|] == recipients;
      assert forall g :: g in r ==> r[g] == HandOut(caps, recipients, rooms, give, total)[g];
    }
  }

  // ----- One tick -----

  lemma BackOffBounds(proposed: real, held: real, derate: real, floor: real)
    ensures BackOff(proposed, held, derate, floor) <= proposed
    ensures BackOff(proposed, held, derate, floor) <= held
    ensures 0.0 <= derate <= 1.0 ==> BackOff(proposed, held, derate, floor) <= Max(floor, Derated(held, derate))
  {
    var base := Min(proposed, held);
    if 0.0 <= derate <= 1.0 {
      assert Derated(base, derate) <= Derated(held, derate);
    }
  }

  lemma ThrottledDrops(t: ThermalTick, g: int)
    requires t.Valid() && g in t.Throttled()
    ensures g in t.Caps() && t.Caps()[g] == BackOff(t.prs[g], Get(t.st.caps, g, t.prs[g]), t.derate, t.floor) <= t.prs[g]
    ensures t.Reduced()[g] == t.Caps()[g]
  {
    hide BackOff, ProRata, Sum, Rooms, Drops, Inside, Outside;
    BackOffBounds(t.prs[g], Get(t.st.caps, g, t.prs[g]), t.derate, t.floor);
  }

  /** A recipient gets at least its PRS cap and never passes the larger of that and its hardware maximum. */
  lemma RecipientBounds(t: ThermalTick, g: int)
    requires t.Valid() && g in t.Recipients()
    ensures g in t.Caps() && t.prs[g] <= t.Caps()[g] <= Max(Get(t.st.maxCaps, g, t.prs[g]), t.prs[g])
  {
    hide BackOff, ProRata, Sum, Drops, Inside, Outside;
    if t.Throttled() != [] && t.Freed() > 0.0 && t.TotalRoom() > 0.0 {
      ProRataBounds(At(Rooms(t.prs, t.Recipients(), t.st), g), Min(t.Freed(), t.TotalRoom()), t.TotalRoom());
    }
  }

  lemma FreedNonNegative(t: ThermalTick)
    requires t.Valid()
    ensures t.Freed() >= 0.0
  {
    hide BackOff, Sum, Inside, Outside, BackOffAll;
    forall g | g in t.Throttled() ensures At(Drops(t.prs, t.Reduced()), g) >= 0.0 {
      ThrottledDrops(t, g);
    }
    SumNonNegative(t.Throttled(), Drops(t.prs, t.Reduced()));
  }

  lemma ReducedTotal(t: ThermalTick)
    requires t.Valid()
    ensures Sum(t.st.gpus, t.Reduced()) == Sum(t.st.gpus, t.prs) - t.Freed()
  {
    hide BackOff, Sum, Inside, Outside;
    var drops := Drops(t.prs, t.Reduced());
    forall g | g in t.st.gpus ensures At(t.prs, g) == At(t.Reduced(), g) + At(drops, g) {
    }
    SumPlus(t.st.gpus, t.Reduced(), drops, t.prs);
    SumPartition(t.st.gpus, t.st.throttled, drops);
    forall g | g in t.Recipients() ensures At(drops, g) == 0.0 {
    }
    SumConstant(t.Recipients(), drops, 0.0);
  }

  lemma HandOutTotal(gpus: seq<int>, throttled: set<int>, caps: map<int, real>, rooms: map<int, real>, give: real,
      total: real)
    requires total != 0.0 && total == Sum(Outside(gpus, throttled), rooms)
    requires forall g :: g in gpus ==> g in caps
    ensures Sum(gpus, HandOut(caps, Outside(gpus, throttled), rooms, give, total)) == Sum(gpus, caps) + give
  {
    hide ProRata, Sum, Inside, Outside;
    var recipients := Outside(gpus, throttled);
    var gifts := map g | g in gpus :: if g in recipients then ProRata(At(rooms, g), give, total) else 0.0;
    forall g | g in gpus ensures At(HandOut(caps, recipients, rooms, give, total), g) == At(caps, g) + At(gifts, g) {
    }
    SumPlus(gpus, caps, gifts, HandOut(caps, recipients, rooms, give, total));
    SumPartition(gpus, throttled, gifts);
    forall g | g in Inside(gpus, throttled) ensures At(gifts, g) == 0.0 {
    }
    SumConstant(Inside(gpus, throttled), gifts, 0.0);
    forall g | g in recipients ensures At(gifts, g) == ProRata(At(rooms, g), give, total) {
    }
    SumProRata(recipients, rooms, gifts, give);
  }

  /** The account of a throttled tick: what PRS proposed, minus the freed watts, plus those that found room. */
  lemma TickTotal(t: ThermalTick)
    requires t.Valid()
    ensures Sum(t.st.gpus, t.Caps()) == Sum(t.st.gpus, t.prs) - t.Freed() + t.Given()
    ensures 0.0 <= t.Given() <= t.Freed()
    ensures Sum(t.st.gpus, t.Caps()) <= Sum(t.st.gpus, t.prs)
  {
    hide BackOffAll, HandOut, Drops, Rooms;
    FreedNonNegative(t);
    ReducedTotal(t);
    if t.Throttled() == [] {
      assert t.Freed() == 0.0;
    } else if t.Freed() > 0.0 && t.TotalRoom() > 0.0 {
      HandOutTotal(t.st.gpus, t.st.throttled, t.Reduced(), Rooms(t.prs, t.Recipients(), t.st),
                   Min(t.Freed(), t.TotalRoom()), t.TotalRoom());
    }
  }

  // ----- Who gets how much of the freed watts -----

  ghost function Gift(t: ThermalTick, g: int): real {
    At(t.Caps(), g) - At(t.prs, g)
  }

  ghost function Room(t: ThermalTick, g: int): real {
    At(Rooms(t.prs, t.Recipients(), t.st), g)
  }

  lemma GiftFollowsRoom(t: ThermalTick, g: int)
    requires t.Valid() && t.Given() > 0.0 && g in t.Recipients()
    ensures t.TotalRoom() > 0.0 && Gift(t, g) == ProRata(Room(t, g), t.Given(), t.TotalRoom())
  {
    hide BackOff, ProRata, Rooms, Inside, Outside;
    assert t.Throttled() == [] ==> t.Freed() == 0.0;
    hide Sum, Drops;
  }

  /** Two recipients share in the proportion of their PRS caps if and only if their headrooms are in that proportion. */
  lemma GiftsFollowCapsExactly(t: ThermalTick, a: int, b: int)
    requires t.Valid() && t.Given() > 0.0 && a in t.Recipients() && b in t.Recipients()
    ensures Gift(t, a) * At(t.prs, b) == Gift(t, b) * At(t.prs, a) <==> Room(t, a) * At(t.prs, b) == Room(t, b) * At(t.prs, a)
  {
    hide ProRata, Gift, Room, ThermalTick.Given, ThermalTick.TotalRoom, ThermalTick.Recipients;
    GiftFollowsRoom(t, a);
    GiftFollowsRoom(t, b);
    CommonFactor(Room(t, a), Room(t, b), t.Given(), t.TotalRoom(), At(t.prs, b), At(t.prs, a));
  }

  lemma CommonFactor(x: real, y: real, limit: real, total: real, p: real, q: real)
    requires limit > 0.0 && total > 0.0
    ensures ProRata(x, limit, total) * p == ProRata(y, limit, total) * q <==> x * p == y * q
  {
    var c := limit / total;
    ProRataIsScaling(x, limit, total, c);
    ProRataIsScaling(y, limit, total, c);
    hide ProRata;
    assert c * total == limit;
    assert c != 0.0;
    assert (c * x) * p == c * (x * p) && (c * y) * q == c * (y * q);
    Cancel(c, x * p, y * q);
  }

  /** One GPU throttled at 400 W, and two at 300 W with 100 W and 300 W of room. */
  ghost function UnevenRooms(): ThermalTick {
    ThermalTick(map[0 := 400.0, 1 := 300.0, 2 := 300.0], 0.25, 0.0,
      DomainState([0, 1, 2], map[0 := 400.0, 1 := 200.0, 2 := 200.0], map[0 := 400.0, 1 := 300.0, 2 := 300.0],
                  map[0 := 700.0, 1 := 400.0, 2 := 600.0], {0}))
  }

  /** Equal caps, unequal gifts: 25 W and 75 W of the 100 W freed. */
  lemma EqualCapsUnequalGifts()
    ensures var t := UnevenRooms();
            && t.Valid() && t.prs[1] == t.prs[2] && t.Given() == 100.0
            && Gift(t, 1) == 25.0 && Gift(t, 2) == 75.0
  {
    var t := UnevenRooms();
    UnevenRoomsFree();
    UnevenRoomsHave();
    hide ThermalTick.Freed, ThermalTick.TotalRoom, ThermalTick.Caps, ThermalTick.Recipients, UnevenRooms;
    GiftFollowsRoom(t, 1);
    GiftFollowsRoom(t, 2);
  }

  lemma UnevenRoomsFree()
    ensures UnevenRooms().Valid() && UnevenRooms().Freed() == 100.0
    ensures UnevenRooms().prs[1] == UnevenRooms().prs[2]
  {
    var t := UnevenRooms();
    UnevenRoomsSplit();
    hide Inside, Outside, Sum;
    assert t.Reduced()[0] == 300.0;
    SumOne(0, Drops(t.prs, t.Reduced()));
  }

  lemma UnevenRoomsHave()
    ensures UnevenRooms().TotalRoom() == 400.0 && 1 in UnevenRooms().Recipients() && 2 in UnevenRooms().Recipients()
    ensures Room(UnevenRooms(), 1) == 100.0 && Room(UnevenRooms(), 2) == 300.0
  {
    var t := UnevenRooms();
    UnevenRoomsSplit();
    hide Inside, Outside, Sum;
    SumTwo(1, 2, Rooms(t.prs, t.Recipients(), t.st));
  }

  lemma SplitOne()
    ensures Inside([0], {0}) == [0] && Outside([0], {0}) == []
  {
    assert [0][..0] == [];
  }

  lemma SplitOff(ks: seq<int>, k: int, s: set<int>)
    requires k !in s
    ensures Inside(ks + [k], s) == Inside(ks, s) && Outside(ks + [k], s) == Outside(ks, s) + [k]
  {
    hide Inside, Outside;
    SplitGrows(ks, k, s);
  }

  lemma SplitThree()
    ensures Inside([0, 1, 2], {0}) == [0] && Outside([0, 1, 2], {0}) == [1, 2]
  {
    hide Inside, Outside;
    SplitOne();
    SplitOff([0], 1, {0});
    assert [0] + [1] == [0, 1] && [] + [1] == [1];
    SplitOff([0, 1], 2, {0});
    assert [0, 1] + [2] == [0, 1, 2] && [1] + [2] == [1, 2];
  }

  lemma UnevenRoomsSplit()
    ensures UnevenRooms().Throttled() == [0] && UnevenRooms().Recipients() == [1, 2]
  {
    hide Inside, Outside;
    SplitThree();
  }

  // ----- A throttled GPU over a closed-loop run -----

  /** Ticks in which `g` is throttled and each tick finds the cap that the hardware made of the previous decision.
      PRS proposals, the other GPUs and their draws are arbitrary. */
  ghost predicate ThrottledRun(run: seq<ThermalTick>, g: int, derate: real, floor: real, maxCap: real) {
    && (forall i :: 0 <= i < |run| ==>
          run[i].Valid() && run[i].derate == derate && run[i].floor == floor && g in run[i].Throttled() && g in run[i].st.caps)
    && (forall i :: 0 < i < |run| ==> run[i].st.caps[g] == Sim.Enforced(At(run[i - 1].Caps(), g), maxCap))
  }

  lemma ThrottledStep(t: ThermalTick, g: int, maxCap: real)
    requires t.Valid() && g in t.Throttled() && g in t.st.caps && t.st.caps[g] >= 0.0
    ensures Sim.Enforced(At(t.Caps(), g), maxCap) <= t.st.caps[g]
    ensures Sim.Enforced(At(t.Caps(), g), maxCap) <= Max(0.0, Max(t.floor, Derated(t.st.caps[g], t.derate)))
  {
    hide BackOff, ThermalTick.Caps, Derated;
    ThrottledDrops(t, g);
    BackOffBounds(t.prs[g], t.st.caps[g], t.derate, t.floor);
  }

  lemma DeratedMonotone(cap: real, bound: real, derate: real)
    requires 0.0 <= derate < 1.0 && cap <= bound
    ensures Derated(cap, derate) <= Derated(bound, derate)
    ensures bound >= 0.0 ==> Derated(bound, derate) <= bound
  {
    ScaleOrder(cap, bound, 1.0 - derate);
  }

  /** One more derating: a cap that decays from a bound stays within the next bound. */
  lemma DecayContinues(derate: real, k: nat, start: real, held: real, after: real, floor: real)
    requires 0.0 <= derate < 1.0 && start >= 0.0 && floor >= 0.0
    requires held <= Max(floor, Decayed(derate, k, start))
    requires after <= held && after <= Max(0.0, Max(floor, Derated(held, derate)))
    ensures after <= Max(floor, Decayed(derate, k + 1, start))
  {
    DecaySteps(derate, k, start);
    DecayedNonNegative(derate, k + 1, start);
    hide Decayed;
    var bound := Decayed(derate, k, start);
    if held > floor {
      DeratedMonotone(held, bound, derate);
      assert Derated(bound, derate) == (1.0 - derate) * bound;
    }
  }

  /** A GPU throttled throughout never sees its cap rise, and the cap decays geometrically down to the floor. */
  lemma {:induction false} ThrottledCapDecays(run: seq<ThermalTick>, g: int, derate: real, floor: real, maxCap: real)
    requires run != [] && ThrottledRun(run, g, derate, floor, maxCap)
    requires run[0].st.caps[g] >= 0.0 && maxCap >= 0.0 && floor >= 0.0
    ensures 0.0 <= Sim.Enforced(At(run[|run| - 1].Caps(), g), maxCap) <= run[|run| - 1].st.caps[g]
    ensures Sim.Enforced(At(run[|run| - 1].Caps(), g), maxCap) <= Max(floor, Decayed(derate, |run|, run[0].st.caps[g]))
  {
    hide BackOff, ThermalTick.Caps, Derated, ThermalTick.Throttled, Decayed;
    var before, last, start := run[..|run| - 1], run[|run| - 1], run[0].st.caps[g];
    if before == [] {
      DecaySteps(derate, 0, start);
    } else {
      ThrottledCapDecays(before, g, derate, floor, maxCap);
      assert last.st.caps[g] == Sim.Enforced(At(run[|run| - 2].Caps(), g), maxCap);
      assert before[|before| - 1] == run[|run| - 2] && before[0] == run[0];
    }
    ThrottledStep(last, g, maxCap);
    DecayContinues(derate, |before|, start, last.st.caps[g], Sim.Enforced(At(last.Caps(), g), maxCap), floor);
  }
}
