/** The simulated GPU fleet. Utilisation samples come from outside. */
module Sim {
  import opened Sums

  /** What the hardware makes of a requested cap. */
  function Enforced(watts: real, maxCap: real): real {
    Min(Max(0.0, watts), maxCap)
  }

  /** Draw at a cap and a utilisation: 85 percent efficiency over 50 W idle, never above the cap. */
  function DrawAt(cap: real, util: real): real {
    Min(cap * (util / 100.0) * 0.85 + 50.0, cap)
  }

  datatype GpuView = GpuView(cap: real, util: real, maxCap: real) {
    function Draw(): real {
      DrawAt(cap, util)
    }

    function WithCap(watts: real): GpuView {
      this.(cap := Enforced(watts, maxCap))
    }
  }

  type FleetView = map<int, GpuView>

  function Resampled(v: FleetView, samples: map<int, real>): FleetView {
    map g | g in v :: if g in samples then v[g].(util := samples[g]) else v[g]
  }

  class SimGpu {
    const index: int
    const maxCap: real
    var cap: real
    var util: real

    constructor (index: int, cap: real, maxCap: real, util: real)
      ensures this.index == index && this.maxCap == maxCap && this.cap == cap && this.util == util
    {
      this.index, this.maxCap, this.cap, this.util := index, maxCap, cap, util;
    }

    function View(): GpuView
      reads this
    {
      GpuView(cap, util, maxCap)
    }

    function PowerDraw(): real
      reads this
    {
      DrawAt(cap, util)
    }
  }

  /** `order` lists the keys of `gpus` in insertion order. */
  class SimBackend {
    const order: seq<int>
    const gpus: map<int, SimGpu>

    constructor (order: seq<int>, gpus: map<int, SimGpu>)
      requires (forall i :: i in gpus ==> gpus[i].index == i) && forall i :: i in order <==> i in gpus
      ensures this.order == order && this.gpus == gpus && Valid()
    {
      this.order, this.gpus := order, gpus;
    }

    ghost predicate Valid() {
      (forall i :: i in gpus ==> gpus[i].index == i) && forall i :: i in order <==> i in gpus
    }

    ghost function View(): FleetView
      reads gpus.Values
    {
      map i | i in gpus :: gpus[i].View()
    }

    method SetPowerCap(i: int, watts: real)
      requires Valid() && i in gpus
      modifies gpus[i]
      ensures View() == old(View())[i := old(View())[i].WithCap(watts)]
    {
      hide DrawAt, Enforced;
      var gpu := gpus[i];
      gpu.cap := Enforced(watts, gpu.maxCap);
      forall j | j in gpus && j != i ensures gpus[j].View() == old(gpus[j].View()) {
        assert gpus[j].index != gpus[i].index;
      }
      assert View() == old(View())[i := old(View())[i].WithCap(watts)];
    }

    method PowerCap(i: int) returns (watts: real)
      requires i in gpus
      ensures watts == View()[i].cap
    {
      watts := gpus[i].cap;
    }

    method PowerDraw(i: int) returns (watts: real)
      requires i in gpus
      ensures watts == View()[i].Draw()
    {
      watts := gpus[i].PowerDraw();
    }

    method MaxCap(i: int) returns (watts: real)
      requires i in gpus
      ensures watts == View()[i].maxCap
    {
      watts := gpus[i].maxCap;
    }

    /** Every GPU takes its next utilisation sample; caps stay. */
    method Tick(samples: map<int, real>)
      requires Valid()
      modifies gpus.Values
      ensures View() == Resampled(old(View()), samples)
    {
      hide DrawAt;
      for k := 0 to |order|
        invariant forall i :: i in gpus ==>
          gpus[i].View() == if i in order[..k] then Resampled(old(View()), samples)[i] else old(gpus[i].View())
      {
        var i := order[k];
        assert i in order;
        if i in samples {
          gpus[i].util := samples[i];
        }
        forall j | j in gpus && j != i ensures gpus[j] != gpus[i] {
          assert gpus[j].index != gpus[i].index;
        }
      }
      assert order[..|order|] == order;
      assert forall i :: i in gpus ==> gpus[i].View() == Resampled(old(View()), samples)[i];
      assert View() == Resampled(old(View()), samples);
    }
  }

  /** A request is met as far as zero and the hardware maximum allow, and nothing else of the GPU changes. */
  lemma RequestIsMet(v: GpuView, watts: real)
    ensures var after := v.WithCap(watts);
            && after.util == v.util && after.maxCap == v.maxCap
            && (0.0 <= watts <= v.maxCap ==> after.cap == watts)
            && (watts <= 0.0 <= v.maxCap ==> after.cap == 0.0)
            && (watts >= v.maxCap ==> after.cap == v.maxCap)
  {
  }

  /** The simulation moves utilisation, to the sample if there is one, and nothing else. */
  lemma OnlyUtilisationMoves(v: FleetView, samples: map<int, real>, g: int)
    requires g in v
    ensures Resampled(v, samples).Keys == v.Keys
    ensures Resampled(v, samples)[g] == GpuView(v[g].cap, if g in samples then samples[g] else v[g].util, v[g].maxCap)
  {
  }

  lemma DrawWithinCap(v: GpuView)
    ensures v.Draw() <= v.cap
  {
  }
}
