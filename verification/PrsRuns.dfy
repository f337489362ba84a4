/** What holds over a whole run of PRS ticks of one domain, whatever the budgets do from tick to tick. */
module PrsRuns {
  import opened Options
  import opened Sums
  import opened Prs
  import PrsBudget

  datatype Input = Input(budget: real, st: DomainState)

  ghost function MemoryAfter(cfg: PrsConfig, mem: PrsMemory, run: seq<Input>): PrsMemory
    decreases |run|, 1
  {
    if run == [] then mem else LastTick(cfg, mem, run).Next()
  }

  /** The last tick of a non-empty run. */
  ghost function LastTick(cfg: PrsConfig, mem: PrsMemory, run: seq<Input>): Tick
    requires run != []
    decreases |run|, 0
  {
    var last := run[|run| - 1];
    Tick(cfg, last.budget, MemoryAfter(cfg, mem, run[..|run| - 1]), last.st)
  }

  ghost predicate AlwaysPresent(run: seq<Input>, g: int) {
    forall i :: 0 <= i < |run| ==> run[i].st.Valid() && g in run[i].st.draws
  }

  // ----- Raise limiter -----

  lemma LimitedRaise(t: Tick, g: int, previous: real)
    requires t.cfg.raiseRate > 0.0 && g in t.Caps() && Previous(t.mem.lastCaps, t.st, g) == Some(previous)
    ensures t.Caps()[g] <= previous + t.cfg.raiseRate
  {
    hide Tick.Targets;
  }

  /** A GPU present throughout rises by at most the raise rate per tick. */
  lemma {:induction false} RaiseBoundOverRun(cfg: PrsConfig, mem: PrsMemory, run: seq<Input>, g: int, start: real)
    requires cfg.Valid() && cfg.raiseRate > 0.0 && run != [] && AlwaysPresent(run, g)
    requires Previous(mem.lastCaps, run[0].st, g) == Some(start)
    ensures g in LastTick(cfg, mem, run).Caps()
    ensures LastTick(cfg, mem, run).Caps()[g] <= start + |run| as real * cfg.raiseRate
  {
    hide Tick.Caps;
    var t, before := LastTick(cfg, mem, run), run[..|run| - 1];
    PrsBudget.CapsCoverTelemetry(t);
    if before == [] {
      assert t.mem == MemoryAfter(cfg, mem, before) == mem;
      LimitedRaise(t, g, start);
    } else {
      RaiseBoundOverRun(cfg, mem, before, g, start);
      assert t.mem == MemoryAfter(cfg, mem, before) == LastTick(cfg, mem, before).Next();
      LimitedRaise(t, g, LastTick(cfg, mem, before).Caps()[g]);
    }
  }

  // ----- Smoothed draws -----

  lemma SmoothBetween(a: real, draw: real, average: real, lo: real, hi: real)
    requires 0.0 <= a <= 1.0 && lo <= draw <= hi && lo <= average <= hi
    ensures lo <= Smooth(a, draw, average) <= hi
  {
    hide Smooth;
    Distances(a, draw, average, lo);
    Distances(a, draw, average, hi);
    NonNegativeProduct(a, draw - lo);
    NonNegativeProduct(1.0 - a, average - lo);
    NonNegativeProduct(a, hi - draw);
    NonNegativeProduct(1.0 - a, hi - average);
  }

  lemma Distances(a: real, draw: real, average: real, x: real)
    ensures Smooth(a, draw, average) - x == a * (draw - x) + (1.0 - a) * (average - x)
    ensures x - Smooth(a, draw, average) == a * (x - draw) + (1.0 - a) * (x - average)
  {
  }

  lemma NonNegativeProduct(x: real, y: real)
    requires x >= 0.0 && y >= 0.0
    ensures x * y >= 0.0
  {
  }

  /** The smoothed draw never leaves the range of the draws seen. */
  lemma {:induction false} EwmaStaysInRange(cfg: PrsConfig, mem: PrsMemory, run: seq<Input>, g: int, lo: real, hi: real)
    requires cfg.Valid()
    requires forall i :: 0 <= i < |run| && g in run[i].st.draws ==> lo <= run[i].st.draws[g] <= hi
    requires g in mem.ewma ==> lo <= mem.ewma[g] <= hi
    ensures g in MemoryAfter(cfg, mem, run).ewma ==> lo <= MemoryAfter(cfg, mem, run).ewma[g] <= hi
    ensures g in MemoryAfter(cfg, mem, run).ewma
            <==> g in mem.ewma || exists i :: 0 <= i < |run| && g in run[i].st.draws
  {
    hide Smooth, Tick.Caps;
    if run == [] {
    } else {
      var before, last := run[..|run| - 1], run[|run| - 1];
      EwmaStaysInRange(cfg, mem, before, g, lo, hi);
      if g in last.st.draws {
        SmoothBetween(cfg.alpha, last.st.draws[g], Get(MemoryAfter(cfg, mem, before).ewma, g, last.st.draws[g]), lo, hi);
      }
    }
  }

  lemma SmoothShrinksError(a: real, d: real, error: real)
    ensures Smooth(a, d, d + error) == d + (1.0 - a) * error
  {
  }

  ghost predicate ConstantDraw(run: seq<Input>, g: int, d: real) {
    forall i :: 0 <= i < |run| ==> g in run[i].st.draws && run[i].st.draws[g] == d
  }

  lemma EmptyRun(cfg: PrsConfig, mem: PrsMemory)
    ensures MemoryAfter(cfg, mem, []) == mem
  {
  }

  lemma OneTickShrinksError(cfg: PrsConfig, mem: PrsMemory, run: seq<Input>, g: int, d: real, error: real)
    requires run != [] && ConstantDraw(run, g, d)
    requires Get(MemoryAfter(cfg, mem, run[..|run| - 1]).ewma, g, d) == d + error
    ensures Get(MemoryAfter(cfg, mem, run).ewma, g, d) == d + (1.0 - cfg.alpha) * error
  {
    hide Smooth, Tick.Caps;
    SmoothShrinksError(cfg.alpha, d, error);
    assert MemoryAfter(cfg, mem, run).ewma == LastTick(cfg, mem, run).Ewma();
  }

  /** Under a constant draw the error of the smoothed draw shrinks by exactly `1 - alpha` a tick. */
  lemma {:induction false} EwmaConverges(cfg: PrsConfig, mem: PrsMemory, run: seq<Input>, g: int, d: real)
    requires ConstantDraw(run, g, d)
    ensures Get(MemoryAfter(cfg, mem, run).ewma, g, d) == d + Decayed(cfg.alpha, |run|, Get(mem.ewma, g, d) - d)
  {
    hide Decayed, MemoryAfter;
    var error := Get(mem.ewma, g, d) - d;
    if run == [] {
      DecaySteps(cfg.alpha, 0, error);
      EmptyRun(cfg, mem);
    } else {
      var before := run[..|run| - 1];
      EwmaConverges(cfg, mem, before, g, d);
      OneTickShrinksError(cfg, mem, run, g, d, Decayed(cfg.alpha, |before|, error));
      DecaySteps(cfg.alpha, |before|, error);
    }
  }

  // ----- Stranded watts -----

  /** The most an idle GPU with draw `d` can strand when its smoothed draw is off by `error`. */
  ghost function StrandedAtMost(cfg: PrsConfig, d: real, error: real): real {
    Max(0.0, Max(cfg.minCap - d, cfg.margin * d + (1.0 + cfg.margin) * error))
  }

  ghost function StrandedBounds(cfg: PrsConfig, mem: PrsMemory, k: nat, draws: map<int, real>): map<int, real> {
    map g | g in draws ::
      StrandedAtMost(cfg, draws[g], Decayed(cfg.alpha, k, Get(mem.ewma, g, draws[g]) - draws[g]))
  }

  lemma MarginExpands(d: real, margin: real, error: real)
    ensures WithMargin(d + error, margin) - d == margin * d + (1.0 + margin) * error
  {
  }

  lemma IdleCapAtMost(t: Tick, g: int)
    requires t.Valid() && g in t.Idle()
    ensures g in t.Caps() && t.Caps()[g] <= Max(t.cfg.minCap, WithMargin(At(t.Ewma(), g), t.cfg.margin))
  {
    hide WithMargin, SmoothAll, ShareAll, ClampAll, HotSet, Quotient, LimitAll;
    PrsBudget.CapsCoverTelemetry(t);
    PrsBudget.LimiterLowers(t);
    assert g !in t.Hot() && g in t.IdleCaps();
    assert t.Targets()[g] == t.IdleCaps()[g];
  }

  lemma IdleHeadroom(t: Tick, g: int, error: real)
    requires t.Valid() && g in t.Idle() && At(t.Ewma(), g) == t.st.draws[g] + error
    ensures At(Headroom(t.Caps(), t.st.draws), g) <= StrandedAtMost(t.cfg, t.st.draws[g], error)
  {
    hide WithMargin, Tick.Ewma, Tick.Idle, Tick.Caps;
    IdleCapAtMost(t, g);
    MarginExpands(t.st.draws[g], t.cfg.margin, error);
  }

  /** After k ticks at constant draws the idle GPUs strand no more than their floors and the decayed initial
      errors allow, with or without the raise limiter. */
  lemma StrandedWattsConverge(cfg: PrsConfig, mem: PrsMemory, run: seq<Input>, draws: map<int, real>)
    requires cfg.Valid() && run != []
    requires forall i :: 0 <= i < |run| ==> run[i].st.Valid() && run[i].st.draws == draws
    ensures LastTick(cfg, mem, run).Metrics().idleStranded
            <= Sum(LastTick(cfg, mem, run).Idle(), StrandedBounds(cfg, mem, |run|, draws))
  {
    hide Tick.Ewma, Tick.Idle, Tick.Caps, Headroom, StrandedAtMost, Decayed;
    var t, k := LastTick(cfg, mem, run), |run|;
    var bounds := StrandedBounds(cfg, mem, k, draws);
    forall g | g in t.Idle()
      ensures At(Headroom(t.Caps(), t.st.draws), g) <= At(bounds, g) && At(bounds, g) >= 0.0
    {
      assert g in t.st.draws;
      EwmaConverges(cfg, mem, run, g, draws[g]);
      PrsBudget.EwmaCoversTelemetry(t);
      var error := Decayed(cfg.alpha, k, Get(mem.ewma, g, draws[g]) - draws[g]);
      assert MemoryAfter(cfg, mem, run).ewma == t.Ewma();
      IdleHeadroom(t, g, error);
      StrandedNonNegative(cfg, draws[g], error);
      assert At(bounds, g) == StrandedAtMost(cfg, draws[g], error);
    }
    SumMonotone(t.Idle(), Headroom(t.Caps(), t.st.draws), bounds);
    SumNonNegative(t.Idle(), bounds);
  }

  lemma StrandedNonNegative(cfg: PrsConfig, d: real, error: real)
    ensures StrandedAtMost(cfg, d, error) >= 0.0
  {
  }
}
