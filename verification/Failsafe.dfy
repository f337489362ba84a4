/** The failsafe loop next to a brain that writes caps, over a simulated fleet. */
module Failsafe {
  import opened Sim

  datatype Limits = Limits(threshold: real, emergencyCap: real) {
    /** The construction check, for non-negative emergency caps. */
    predicate Valid() {
      0.0 <= emergencyCap < threshold
    }
  }

  predicate Trips(limits: Limits, v: FleetView, i: int) {
    i in v && v[i].Draw() > limits.threshold
  }

  /** One atomic poll of one GPU; polling an index the fleet does not have fails and is logged. */
  function PollGpu(limits: Limits, v: FleetView, i: int): FleetView {
    if Trips(limits, v, i) then v[i := v[i].WithCap(limits.emergencyCap)] else v
  }

  /** The first `n` indices polled in order. */
  function ScanView(limits: Limits, v: FleetView, n: nat): FleetView {
    if n == 0 then v else PollGpu(limits, ScanView(limits, v, n - 1), n - 1)
  }

  function ScanTrips(limits: Limits, v: FleetView, n: nat): nat {
    if n == 0 then 0
    else ScanTrips(limits, v, n - 1) + if Trips(limits, ScanView(limits, v, n - 1), n - 1) then 1 else 0
  }

  class FailsafeLoop {
    const actuator: SimBackend
    const limits: Limits
    var tripCount: nat

    constructor (actuator: SimBackend, limits: Limits)
      requires limits.emergencyCap < limits.threshold
      ensures this.actuator == actuator && this.limits == limits && tripCount == 0
    {
      this.actuator, this.limits := actuator, limits;
      tripCount := 0;
    }

    /** One pass over the whole fleet. */
    method Scan()
      requires actuator.Valid()
      modifies this, actuator.gpus.Values
      ensures actuator.View() == ScanView(limits, old(actuator.View()), |actuator.gpus|)
      ensures tripCount == old(tripCount) + ScanTrips(limits, old(actuator.View()), |actuator.gpus|)
    {
      hide DrawAt, Enforced;
      var n := |actuator.gpus|;
      for i := 0 to n
        invariant actuator.View() == ScanView(limits, old(actuator.View()), i)
        invariant tripCount == old(tripCount) + ScanTrips(limits, old(actuator.View()), i)
      {
        if i in actuator.gpus {
          var draw := actuator.PowerDraw(i);
          if draw > limits.threshold {
            actuator.SetPowerCap(i, limits.emergencyCap);
            tripCount := tripCount + 1;
          }
        }
      }
    }
  }

  // ----- The ceiling -----

  /** What a poll leaves of a GPU: the emergency cap, as far as the hardware goes, if it drew above the threshold. */
  ghost function Protected(limits: Limits, gpu: GpuView): GpuView {
    if gpu.Draw() <= limits.threshold then gpu
    else GpuView(if limits.emergencyCap <= gpu.maxCap then limits.emergencyCap else gpu.maxCap, gpu.util, gpu.maxCap)
  }

  lemma PolledIsProtected(limits: Limits, v: FleetView, i: int)
    requires limits.Valid() && i in v
    ensures PollGpu(limits, v, i)[i] == Protected(limits, v[i]) && Protected(limits, v[i]).Draw() <= limits.threshold
    ensures forall g :: g in v && g != i ==> PollGpu(limits, v, i)[g] == v[g]
  {
    hide DrawAt;
    DrawWithinCap(PollGpu(limits, v, i)[i]);
  }

  /** A pass over the indices below `n` protects each of their GPUs that draws above the threshold, so that none of them does
      any more, and touches no other. */
  lemma {:induction false} ScanCeils(limits: Limits, v: FleetView, n: nat, g: int)
    requires limits.Valid() && g in v
    ensures g in ScanView(limits, v, n)
    ensures 0 <= g < n ==> ScanView(limits, v, n)[g] == Protected(limits, v[g]) && Protected(limits, v[g]).Draw() <= limits.threshold
    ensures !(0 <= g < n) ==> ScanView(limits, v, n)[g] == v[g]
  {
    hide DrawAt, PollGpu, Protected;
    if n == 0 {
    } else {
      ScanCeils(limits, v, n - 1, g);
      PollKeepsFleet(limits, ScanView(limits, v, n - 1), n - 1);
      if n - 1 in ScanView(limits, v, n - 1) {
        PolledIsProtected(limits, ScanView(limits, v, n - 1), n - 1);
      } else {
        MissingIsSkipped(limits, ScanView(limits, v, n - 1), n - 1);
      }
    }
  }

  /** The GPUs that a pass over the indices below `n` finds above the threshold. */
  ghost function Offenders(limits: Limits, v: FleetView, n: nat): set<int> {
    set g | g in v && 0 <= g < n && v[g].Draw() > limits.threshold
  }

  lemma OneMoreIndex(limits: Limits, v: FleetView, n: nat)
    ensures Offenders(limits, v, 0) == {}
    ensures Offenders(limits, v, n + 1) == Offenders(limits, v, n) + if Trips(limits, v, n) then {n} else {}
    ensures n !in Offenders(limits, v, n)
  {
    hide DrawAt;
  }

  /** The trips of a pass are those GPUs, each once. */
  lemma {:induction false} TripsCounted(limits: Limits, v: FleetView, n: nat)
    requires limits.Valid()
    ensures ScanTrips(limits, v, n) == |Offenders(limits, v, n)|
  {
    hide DrawAt, ScanView, Protected, Offenders;
    if n == 0 {
      OneMoreIndex(limits, v, 0);
    } else {
      TripsCounted(limits, v, n - 1);
      OneMoreIndex(limits, v, n - 1);
      ScanKeepsFleet(limits, v, n - 1);
      if n - 1 in v {
        ScanCeils(limits, v, n - 1, n - 1);
      }
    }
  }

  lemma PollKeepsFleet(limits: Limits, v: FleetView, i: int)
    ensures PollGpu(limits, v, i).Keys == v.Keys
  {
    hide DrawAt, Enforced;
  }

  lemma MissingIsSkipped(limits: Limits, v: FleetView, i: int)
    requires i !in v
    ensures PollGpu(limits, v, i) == v
  {
  }

  /** No GPU draws above the threshold. */
  ghost predicate Ceiled(limits: Limits, v: FleetView) {
    forall g :: g in v ==> v[g].Draw() <= limits.threshold
  }

  /** A scan puts the whole fleet under the ceiling exactly when no GPU whose index it does not reach, being negative or
      at least the number of GPUs, draws above it. */
  lemma ScanProtectsExactly(limits: Limits, v: FleetView)
    requires limits.Valid()
    ensures Ceiled(limits, ScanView(limits, v, |v|))
            <==> forall g :: g in v && !(0 <= g < |v|) ==> v[g].Draw() <= limits.threshold
  {
    hide DrawAt, ScanView;
    var after := ScanView(limits, v, |v|);
    ScanKeepsFleet(limits, v, |v|);
    forall g | g in v
      ensures 0 <= g < |v| ==> after[g].Draw() <= limits.threshold
      ensures !(0 <= g < |v|) ==> after[g] == v[g]
    {
      ScanCeils(limits, v, |v|, g);
    }
  }

  lemma {:induction false} ScanKeepsFleet(limits: Limits, v: FleetView, n: nat)
    ensures ScanView(limits, v, n).Keys == v.Keys
  {
    hide PollGpu;
    if n == 0 {
    } else {
      ScanKeepsFleet(limits, v, n - 1);
      PollKeepsFleet(limits, ScanView(limits, v, n - 1), n - 1);
    }
  }

  // ----- Failsafe, brain and simulator interleaved -----

  /** A poll is two steps, reading the draw and then setting the cap; a brain or the simulator may come in between, and
      the set may fail, which the loop logs and forgets. */
  datatype Event =
    | Read(gpu: int)
    | Set
    | SetFails
    | Resample(samples: map<int, real>)
    | BrainWrite(gpu: int, watts: real)

  /** `pending` is the GPU whose draw was read above the threshold and whose cap is to be set next. */
  datatype State = State(gpus: FleetView, pending: set<int>, trips: nat, writesAbove: nat)

  /** The loop reads no other GPU before it has set the cap of the one that tripped. */
  ghost function Step(limits: Limits, s: State, e: Event): State {
    match e
    case Read(i) => if s.pending == {} && Trips(limits, s.gpus, i) then s.(pending := {i}) else s
    case Set =>
      s.(gpus := map i | i in s.gpus :: if i in s.pending then s.gpus[i].WithCap(limits.emergencyCap) else s.gpus[i],
         pending := {}, trips := s.trips + |s.pending|)
    case SetFails => s.(pending := {})
    case Resample(samples) => s.(gpus := Resampled(s.gpus, samples))
    case BrainWrite(i, watts) =>
      s.(gpus := if i in s.gpus then s.gpus[i := s.gpus[i].WithCap(watts)] else s.gpus,
         writesAbove := s.writesAbove + if watts > limits.threshold then 1 else 0)
  }

  ghost function Run(limits: Limits, s: State, events: seq<Event>): (r: State)
    ensures r.gpus.Keys == s.gpus.Keys
  {
    if events == [] then s else Step(limits, Run(limits, s, events[..|events| - 1]), events[|events| - 1])
  }

  /** The GPUs capped above the threshold: the only ones that can trip. */
  ghost function Above(limits: Limits, v: FleetView): set<int> {
    set g | g in v && v[g].cap > limits.threshold
  }

  /** The GPUs that may still cause a trip before a brain writes. */
  ghost function Owing(limits: Limits, s: State): set<int> {
    Above(limits, s.gpus) + s.pending
  }

  /** With nothing in between, the two steps are the poll that the loop body makes. */
  lemma PollIsReadThenSet(limits: Limits, s: State, i: int)
    requires s.pending == {}
    ensures var after := Step(limits, Step(limits, s, Read(i)), Set);
            && after.gpus == PollGpu(limits, s.gpus, i) && after.pending == {}
            && after.trips == s.trips + (if Trips(limits, s.gpus, i) then 1 else 0)
  {
    hide DrawAt, Enforced;
    assert s.gpus == map j | j in s.gpus :: s.gpus[j];
  }

  /** An uninterrupted trip strictly lowers that GPU's cap, and takes it below the threshold until a brain raises it. */
  lemma TripLowers(limits: Limits, v: FleetView, i: int)
    requires limits.Valid() && Trips(limits, v, i)
    ensures PollGpu(limits, v, i)[i].cap < v[i].cap
    ensures i in Above(limits, v) && Above(limits, PollGpu(limits, v, i)) == Above(limits, v) - {i}
  {
    hide DrawAt;
    assert v[i].Draw() <= v[i].cap by { DrawWithinCap(v[i]); }
    assert PollGpu(limits, v, i)[i].cap <= limits.emergencyCap;
    forall g ensures g in Above(limits, PollGpu(limits, v, i)) <==> g in Above(limits, v) - {i} {
    }
  }

  lemma SmallerSet(a: set<int>, b: set<int>)
    requires a <= b
    ensures |a| <= |b|
  {
    if a != b {
      var rest := b - a;
      assert b == a + rest;
    }
  }

  /** At most one GPU is pending, and it is one of the fleet. */
  ghost predicate OnePending(s: State) {
    |s.pending| <= 1 && forall i :: i in s.pending ==> i in s.gpus
  }

  lemma SetSettles(limits: Limits, s: State)
    requires limits.Valid() && OnePending(s)
    ensures Owing(limits, Step(limits, s, Set)) == Owing(limits, s) - s.pending
    ensures |Owing(limits, s) - s.pending| + |s.pending| == |Owing(limits, s)|
  {
    hide DrawAt;
    var t := Step(limits, s, Set);
    forall g ensures g in Owing(limits, t) <==> g in Owing(limits, s) - s.pending {
    }
    assert Owing(limits, s) == (Owing(limits, s) - s.pending) + s.pending;
  }

  lemma ReadOwesNothingNew(limits: Limits, s: State, i: int)
    requires OnePending(s)
    ensures Owing(limits, Step(limits, s, Read(i))) == Owing(limits, s) && OnePending(Step(limits, s, Read(i)))
  {
    hide DrawAt;
    if i in s.gpus {
      DrawWithinCap(s.gpus[i]);
    }
  }

  lemma BrainWriteOwes(limits: Limits, s: State, i: int, watts: real)
    requires limits.Valid()
    ensures Owing(limits, Step(limits, s, BrainWrite(i, watts)))
         <= Owing(limits, s) + if watts > limits.threshold then {i} else {}
  {
    hide DrawAt;
  }

  lemma FailureOwesLess(limits: Limits, s: State)
    ensures |Owing(limits, Step(limits, s, SetFails))| <= |Owing(limits, s)|
  {
    hide DrawAt;
    SmallerSet(Owing(limits, Step(limits, s, SetFails)), Owing(limits, s));
  }

  lemma StepBudget(limits: Limits, s: State, e: Event)
    requires limits.Valid() && OnePending(s)
    ensures var t := Step(limits, s, e);
            && OnePending(t)
            && t.trips + |Owing(limits, t)| + s.writesAbove <= s.trips + |Owing(limits, s)| + t.writesAbove
  {
    hide DrawAt, Owing, Enforced;
    var t := Step(limits, s, e);
    match e {
      case Read(i) => ReadOwesNothingNew(limits, s, i);
      case Set => SetSettles(limits, s);
      case SetFails => FailureOwesLess(limits, s);
      case Resample(samples) => ResampleOwes(limits, s, samples);
      case BrainWrite(i, watts) =>
        BrainWriteOwes(limits, s, i, watts);
        SmallerSet(Owing(limits, t), Owing(limits, s) + if watts > limits.threshold then {i} else {});
    }
  }

  lemma ResampleOwes(limits: Limits, s: State, samples: map<int, real>)
    ensures Owing(limits, Step(limits, s, Resample(samples))) == Owing(limits, s)
  {
    hide DrawAt;
  }

  /**
   * The failsafe cannot oscillate: over any interleaving, even inside its polls, the trips and the GPUs that may still
   * trip are paid for by the GPUs that could trip at the start and by brain writes above the threshold.
   */
  lemma {:induction false} TripsAreBounded(limits: Limits, s: State, events: seq<Event>)
    requires limits.Valid() && OnePending(s)
    ensures var t := Run(limits, s, events);
            && OnePending(t)
            && t.trips + |Owing(limits, t)| + s.writesAbove <= s.trips + |Owing(limits, s)| + t.writesAbove
  {
    hide Step, Owing, OnePending;
    if events == [] {
    } else {
      TripsAreBounded(limits, s, events[..|events| - 1]);
      StepBudget(limits, Run(limits, s, events[..|events| - 1]), events[|events| - 1]);
    }
  }

  // ----- What an interrupted poll can do -----

  /** "Cap-lower-only" holds for a set exactly when the cap it finds is not already below what the hardware makes of the
      emergency cap. */
  lemma SetRaisesExactly(limits: Limits, s: State, i: int)
    requires limits.Valid() && i in s.pending && i in s.gpus
    ensures Step(limits, s, Set).gpus[i].cap > s.gpus[i].cap <==> s.gpus[i].cap < Enforced(limits.emergencyCap, s.gpus[i].maxCap)
  {
    hide DrawAt;
  }

  /** A GPU drawing 730 W is read, the brain cuts it to 200 W, and the failsafe then lifts it to 500 W. */
  lemma InterruptedPollCanRaise()
    ensures var limits, start := Limits(600.0, 500.0), State(map[0 := GpuView(800.0, 100.0, 1000.0)], {}, 0, 0);
            var cut := Run(limits, start, [Read(0), BrainWrite(0, 200.0)]);
            limits.Valid() && cut.gpus[0].cap == 200.0 && Step(limits, cut, Set).gpus[0].cap == 500.0
  {
    var limits, start := Limits(600.0, 500.0), State(map[0 := GpuView(800.0, 100.0, 1000.0)], {}, 0, 0);
    var events := [Read(0), BrainWrite(0, 200.0)];
    assert events[..1] == [Read(0)] && [Read(0)][..0] == [];
    assert Trips(limits, start.gpus, 0);
    assert Run(limits, start, [Read(0)]) == Step(limits, start, Read(0));
    assert Run(limits, start, events) == Step(limits, Run(limits, start, [Read(0)]), BrainWrite(0, 200.0));
  }
}
