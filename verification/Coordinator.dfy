/** The cluster coordinator: node budgets from recent draws, published node by node. */
module Coordinator {
  import opened Options
  import opened Sums

  datatype NodeState = NodeState(id: string, domain: string, draw: real, cap: real, budget: real, ts: real)

  /** The published node states, in the order of first publication. */
  datatype Fleet = Fleet(order: seq<string>, states: map<string, NodeState>) {
    ghost predicate Valid() {
      NoDup(order) && (forall id :: id in order <==> id in states) && forall id :: id in states ==> states[id].id == id
    }

    function Draws(): map<string, real> {
      map id | id in states :: states[id].draw
    }

    /** A zero total counts as one. */
    function TotalDraw(): (r: real)
      ensures r != 0.0
    {
      var total := Sum(order, Draws());
      if total == 0.0 then 1.0 else total
    }

    function KeyOf(id: string): (string, string)
      requires id in states
    {
      (id, states[id].domain)
    }
  }

  function FairShare(clusterBudget: real, n: nat): real
    requires n > 0
  {
    clusterBudget / n as real
  }

  /** Half the fair share for certain. */
  function NodeFloor(clusterBudget: real, n: nat): real
    requires n > 0
  {
    FairShare(clusterBudget, n) * 0.5
  }

  function NodeCeiling(clusterBudget: real, n: nat): real
    requires n > 0
  {
    FairShare(clusterBudget, n) * 2.0
  }

  function SurplusOf(clusterBudget: real, n: nat): real
    requires n > 0
  {
    clusterBudget - Times(NodeFloor(clusterBudget, n), n)
  }

  /** What is handed out on top of the floors, in proportion to draw. */
  function Extras(clusterBudget: real, f: Fleet): map<string, real>
    requires f.order != []
  {
    var surplus, total := SurplusOf(clusterBudget, |f.order|), f.TotalDraw();
    map id | id in f.states :: ProRata(f.states[id].draw, surplus, total)
  }

  function NodeBudgets(clusterBudget: real, f: Fleet): (r: map<string, real>)
    requires f.order != []
    ensures r.Keys == f.states.Keys
  {
    var floor, ceiling := NodeFloor(clusterBudget, |f.order|), NodeCeiling(clusterBudget, |f.order|);
    map id | id in f.states :: Min(floor + At(Extras(clusterBudget, f), id), ceiling)
  }

  /** The store after the first `k` nodes have been published. */
  function Published(adopted: map<(string, string), real>, f: Fleet, budgets: map<string, real>,
      k: nat): map<(string, string), real>
    requires k <= |f.order| && forall id :: id in f.order ==> id in f.states && id in budgets
  {
    if k == 0 then adopted
    else
      var id := f.order[k - 1];
      assert id in f.order;
      Published(adopted, f, budgets, k - 1)[f.KeyOf(id) := budgets[id]]
  }

  function Offer(adopted: map<(string, string), real>, id: string, domain: string): Option<real> {
    if (id, domain) in adopted then Some(adopted[(id, domain)]) else None
  }

  class InMemoryStore {
    var fleet: Fleet
    var adopted: map<(string, string), real>

    ghost predicate Valid()
      reads this
    {
      fleet.Valid()
    }

    constructor ()
      ensures Valid() && fleet == Fleet([], map[]) && adopted == map[]
    {
      fleet := Fleet([], map[]);
      adopted := map[];
    }

    method Publish(state: NodeState)
      requires Valid()
      modifies this
      ensures Valid() && adopted == old(adopted)
      ensures fleet.states == old(fleet.states)[state.id := state]
      ensures fleet.order == if state.id in old(fleet.states) then old(fleet.order) else old(fleet.order) + [state.id]
    {
      var order := if state.id in fleet.states then fleet.order else fleet.order + [state.id];
      fleet := Fleet(order, fleet.states[state.id := state]);
    }

    method SetAdoptedBudget(id: string, domain: string, watts: real)
      modifies this
      ensures adopted == old(adopted)[(id, domain) := watts] && fleet == old(fleet)
    {
      adopted := adopted[(id, domain) := watts];
    }

    function GetAdoptedBudget(id: string, domain: string): Option<real>
      reads this
    {
      Offer(adopted, id, domain)
    }
  }

  class ClusterCoordinator {
    const store: InMemoryStore
    const clusterBudget: real
    var nodeBudgets: map<string, real>

    constructor (store: InMemoryStore, clusterBudget: real)
      ensures this.store == store && this.clusterBudget == clusterBudget && nodeBudgets == map[]
    {
      this.store, this.clusterBudget := store, clusterBudget;
      nodeBudgets := map[];
    }

    method Rebalance() returns (budgets: map<string, real>)
      requires store.Valid()
      modifies this, store
      ensures store.Valid() && store.fleet == old(store.fleet)
      ensures store.fleet.order == [] ==> budgets == map[] && nodeBudgets == old(nodeBudgets) && store.adopted == old(store.adopted)
      ensures store.fleet.order != [] ==>
        && budgets == NodeBudgets(clusterBudget, store.fleet) && nodeBudgets == budgets
        && store.adopted == Published(old(store.adopted), store.fleet, budgets, |store.fleet.order|)
    {
      hide NodeBudgets, NoDup;
      var f := store.fleet;
      budgets := map[];
      if f.order == [] {
        return;
      }
      budgets := NewBudgets(f);
      for i := 0 to |f.order|
        invariant store.Valid() && store.fleet == f && nodeBudgets == old(nodeBudgets)
        invariant store.adopted == Published(old(store.adopted), f, budgets, i)
      {
        var id := f.order[i];
        assert id in f.order;
        store.SetAdoptedBudget(id, f.states[id].domain, budgets[id]);
      }
      nodeBudgets := budgets;
    }

    /** The full set of budgets, before anything is published. */
    method NewBudgets(f: Fleet) returns (budgets: map<string, real>)
      requires f.Valid() && f.order != []
      ensures budgets == NodeBudgets(clusterBudget, f)
    {
      hide ProRata, FairShare, NodeFloor, NodeCeiling, SurplusOf, Sum, NoDup;
      budgets := map[];
      var n := |f.order|;
      var floor, ceiling, surplus := NodeFloor(clusterBudget, n), NodeCeiling(clusterBudget, n), SurplusOf(clusterBudget, n);
      var totalDraw := f.TotalDraw();
      for i := 0 to n
        invariant forall id :: id in budgets <==> id in f.order[..i]
        invariant forall id :: id in budgets ==> id in f.states && budgets[id] == NodeBudgets(clusterBudget, f)[id]
      {
        var id := f.order[i];
        assert id in f.order;
        var extra := ProRata(f.states[id].draw, surplus, totalDraw);
        budgets := budgets[id := Min(floor + extra, ceiling)];
      }
      assert f.order[..n] == f.order;
      assert budgets == NodeBudgets(clusterBudget, f);
    }
  }

  // ----- Every rebalance -----

  /** Draws are never negative and the cluster budget is positive. */
  ghost predicate Physical(clusterBudget: real, f: Fleet) {
    && f.Valid() && f.order != [] && clusterBudget > 0.0
    && forall id :: id in f.states ==> f.states[id].draw >= 0.0
  }

  lemma DrawsAddUp(f: Fleet)
    requires f.Valid() && forall id :: id in f.states ==> f.states[id].draw >= 0.0
    ensures Sum(f.order, f.Draws()) >= 0.0 && f.TotalDraw() > 0.0
    ensures forall id :: id in f.states ==> f.states[id].draw <= f.TotalDraw()
    ensures Sum(f.order, f.Draws()) == 0.0 ==> forall id :: id in f.states ==> f.states[id].draw == 0.0
  {
    forall id | id in f.order ensures At(f.Draws(), id) >= 0.0 {
    }
    SumNonNegative(f.order, f.Draws());
    forall id | id in f.states ensures f.states[id].draw <= Sum(f.order, f.Draws()) {
      assert id in f.order && At(f.Draws(), id) == f.states[id].draw;
    }
  }

  lemma Shares(clusterBudget: real, n: nat)
    requires n > 0
    ensures Times(FairShare(clusterBudget, n), n) == clusterBudget
    ensures Times(NodeFloor(clusterBudget, n), n) == clusterBudget / 2.0
    ensures SurplusOf(clusterBudget, n) == clusterBudget / 2.0
    ensures NodeCeiling(clusterBudget, n) == 4.0 * NodeFloor(clusterBudget, n)
    ensures clusterBudget > 0.0 ==> NodeFloor(clusterBudget, n) > 0.0
  {
    var fair, m := clusterBudget / n as real, n as real;
    assert fair * m == clusterBudget;
    assert (fair * 0.5) * m == (fair * m) * 0.5;
  }

  lemma ExtraBounds(clusterBudget: real, f: Fleet, id: string)
    requires Physical(clusterBudget, f) && id in f.states
    ensures 0.0 <= At(Extras(clusterBudget, f), id) <= clusterBudget / 2.0
  {
    hide ProRata;
    DrawsAddUp(f);
    Shares(clusterBudget, |f.order|);
    PartOfLimit(f.states[id].draw, clusterBudget / 2.0, f.TotalDraw());
  }

  lemma PartOfLimit(x: real, limit: real, total: real)
    requires 0.0 <= x <= total && total > 0.0 && limit >= 0.0
    ensures 0.0 <= ProRata(x, limit, total) <= limit
  {
    hide ProRata;
    ProRataIsScaling(x, limit, total, limit / total);
    Fraction(x, total);
    ScaleOrder(x / total, 1.0, limit);
    ScaleOrder(0.0, x / total, limit);
  }

  lemma ExtrasTotal(clusterBudget: real, f: Fleet)
    requires Physical(clusterBudget, f)
    ensures Sum(f.order, Extras(clusterBudget, f)) == if Sum(f.order, f.Draws()) == 0.0 then 0.0 else clusterBudget / 2.0
  {
    hide ProRata;
    DrawsAddUp(f);
    Shares(clusterBudget, |f.order|);
    var extras := Extras(clusterBudget, f);
    if Sum(f.order, f.Draws()) == 0.0 {
      forall id | id in f.order ensures At(extras, id) == 0.0 {
        ProRataOfNothing(SurplusOf(clusterBudget, |f.order|), f.TotalDraw());
      }
      SumConstant(f.order, extras, 0.0);
    } else {
      forall id | id in f.order ensures At(extras, id) == ProRata(At(f.Draws(), id), clusterBudget / 2.0, Sum(f.order, f.Draws())) {
      }
      SumProRata(f.order, f.Draws(), extras, clusterBudget / 2.0);
    }
  }

  /** Every node gets between half and twice its fair share. */
  lemma BudgetBounds(clusterBudget: real, f: Fleet, id: string)
    requires Physical(clusterBudget, f) && id in f.states
    ensures NodeFloor(clusterBudget, |f.order|) <= NodeBudgets(clusterBudget, f)[id] <= NodeCeiling(clusterBudget, |f.order|)
  {
    hide ProRata, NodeFloor, NodeCeiling;
    ExtraBounds(clusterBudget, f, id);
    Shares(clusterBudget, |f.order|);
  }

  /** What the ceiling takes from each node. */
  ghost function CeilingCuts(clusterBudget: real, f: Fleet): map<string, real>
    requires f.order != []
  {
    map id | id in f.states ::
      Max(0.0, NodeFloor(clusterBudget, |f.order|) + At(Extras(clusterBudget, f), id) - NodeCeiling(clusterBudget, |f.order|))
  }

  lemma CeilingSplits(x: real, ceiling: real)
    ensures Min(x, ceiling) + Max(0.0, x - ceiling) == x
  {
  }

  /** The account of one rebalance: half the budget as floors, the extras, minus what the ceiling cuts. */
  lemma BudgetsBalance(clusterBudget: real, f: Fleet)
    requires Physical(clusterBudget, f)
    ensures Sum(f.order, NodeBudgets(clusterBudget, f)) + Sum(f.order, CeilingCuts(clusterBudget, f))
            == clusterBudget / 2.0 + Sum(f.order, Extras(clusterBudget, f))
  {
    hide ProRata, NodeFloor, NodeCeiling, Sum, Extras, Min, Max, Times;
    var floor, ceiling := NodeFloor(clusterBudget, |f.order|), NodeCeiling(clusterBudget, |f.order|);
    var budgets, cuts, extras := NodeBudgets(clusterBudget, f), CeilingCuts(clusterBudget, f), Extras(clusterBudget, f);
    var raised := map id | id in f.states :: floor + At(extras, id);
    forall id | id in f.order ensures At(raised, id) == floor + At(extras, id) {
    }
    SumOffset(f.order, floor, extras, raised);
    forall id | id in f.order ensures At(raised, id) == At(budgets, id) + At(cuts, id) {
      CeilingSplits(floor + At(extras, id), ceiling);
    }
    SumPlus(f.order, budgets, cuts, raised);
    Shares(clusterBudget, |f.order|);
  }

  lemma CutsNonNegative(clusterBudget: real, f: Fleet)
    requires Physical(clusterBudget, f)
    ensures Sum(f.order, CeilingCuts(clusterBudget, f)) >= 0.0
    ensures forall id :: id in f.order ==> At(CeilingCuts(clusterBudget, f), id) <= Sum(f.order, CeilingCuts(clusterBudget, f))
  {
    hide ProRata, NodeFloor, NodeCeiling, Extras;
    DrawsAddUp(f);
    forall id | id in f.order ensures At(CeilingCuts(clusterBudget, f), id) >= 0.0 {
    }
    SumNonNegative(f.order, CeilingCuts(clusterBudget, f));
  }

  /** The cluster budget is never oversubscribed. */
  lemma NeverOversubscribed(clusterBudget: real, f: Fleet)
    requires Physical(clusterBudget, f)
    ensures Sum(f.order, NodeBudgets(clusterBudget, f)) <= clusterBudget
  {
    hide NodeBudgets, CeilingCuts, Extras;
    BudgetsBalance(clusterBudget, f);
    CutsNonNegative(clusterBudget, f);
    ExtrasTotal(clusterBudget, f);
  }

  lemma CutExactly(clusterBudget: real, f: Fleet, id: string)
    requires Physical(clusterBudget, f) && id in f.states
    ensures At(CeilingCuts(clusterBudget, f), id) == 0.0 <==> Times(f.states[id].draw, |f.order|) <= 3.0 * f.TotalDraw()
  {
    hide ProRata, NodeFloor, NodeCeiling, SurplusOf, Sum;
    DrawsAddUp(f);
    Shares(clusterBudget, |f.order|);
    assert At(Extras(clusterBudget, f), id) == ProRata(f.states[id].draw, clusterBudget / 2.0, f.TotalDraw());
    ExtraAgainstFloor(f.states[id].draw, f.TotalDraw(), clusterBudget, |f.order| as real, NodeFloor(clusterBudget, |f.order|));
  }

  lemma ExtraAgainstFloor(draw: real, total: real, clusterBudget: real, n: real, floor: real)
    requires total > 0.0 && clusterBudget > 0.0 && n > 0.0 && floor * n == clusterBudget / 2.0
    ensures ProRata(draw, clusterBudget / 2.0, total) <= 3.0 * floor <==> draw * n <= 3.0 * total
  {
    var q := draw / total;
    assert q * total == draw;
    assert ProRata(draw, clusterBudget / 2.0, total) == q * (floor * n) == (q * n) * floor;
    assert draw * n == (q * n) * total;
    if q * n <= 3.0 {
      ScaleOrder(q * n, 3.0, floor);
      ScaleOrder(q * n, 3.0, total);
    } else {
      StrictScale(3.0, q * n, floor);
      StrictScale(3.0, q * n, total);
    }
  }

  /** The whole budget is handed out exactly when somebody draws and nobody draws more than three times the mean. */
  lemma UsesWholeBudgetExactly(clusterBudget: real, f: Fleet)
    requires Physical(clusterBudget, f)
    ensures Sum(f.order, NodeBudgets(clusterBudget, f)) == clusterBudget
       <==> Sum(f.order, f.Draws()) > 0.0 && forall id :: id in f.order ==> Times(f.states[id].draw, |f.order|) <= 3.0 * f.TotalDraw()
  {
    hide NodeBudgets, CeilingCuts, Extras, Sum;
    DrawsAddUp(f);
    BudgetsBalance(clusterBudget, f);
    CutsNonNegative(clusterBudget, f);
    ExtrasTotal(clusterBudget, f);
    forall id | id in f.order
      ensures At(CeilingCuts(clusterBudget, f), id) == 0.0 <==> Times(f.states[id].draw, |f.order|) <= 3.0 * f.TotalDraw()
    {
      CutExactly(clusterBudget, f, id);
    }
    if forall id :: id in f.order ==> Times(f.states[id].draw, |f.order|) <= 3.0 * f.TotalDraw() {
      SumConstant(f.order, CeilingCuts(clusterBudget, f), 0.0);
    } else {
      var id :| id in f.order && Times(f.states[id].draw, |f.order|) > 3.0 * f.TotalDraw();
      CutIsPositive(clusterBudget, f, id);
    }
  }

  lemma CutIsPositive(clusterBudget: real, f: Fleet, id: string)
    requires Physical(clusterBudget, f) && id in f.order
    requires Times(f.states[id].draw, |f.order|) > 3.0 * f.TotalDraw()
    ensures Sum(f.order, CeilingCuts(clusterBudget, f)) > 0.0
  {
    hide Extras, Sum, ProRata, NodeFloor, NodeCeiling;
    CutExactly(clusterBudget, f, id);
    CutsNonNegative(clusterBudget, f);
    assert At(CeilingCuts(clusterBudget, f), id) >= 0.0;
  }

  /** With up to three nodes the ceiling cannot bite. */
  lemma SmallClustersUseWholeBudget(clusterBudget: real, f: Fleet)
    requires Physical(clusterBudget, f) && |f.order| <= 3 && Sum(f.order, f.Draws()) > 0.0
    ensures Sum(f.order, NodeBudgets(clusterBudget, f)) == clusterBudget
  {
    hide NodeBudgets, Sum, Times;
    DrawsAddUp(f);
    UsesWholeBudgetExactly(clusterBudget, f);
    forall id | id in f.order ensures Times(f.states[id].draw, |f.order|) <= 3.0 * f.TotalDraw() {
      UpToThreeTimes(f.states[id].draw, |f.order|);
    }
  }

  lemma UpToThreeTimes(x: real, n: nat)
    requires x >= 0.0 && n <= 3
    ensures Times(x, n) <= 3.0 * x
  {
    assert n == 0 || n == 1 || n == 2 || n == 3;
  }

  /** What each node gets: half its fair share, and of the other half of the cluster budget the part that its draw is of all
      draws, cut at twice the fair share. */
  lemma NodeBudgetExactly(clusterBudget: real, f: Fleet, id: string)
    requires Physical(clusterBudget, f) && id in f.states && Sum(f.order, f.Draws()) > 0.0
    ensures var fair, budget := clusterBudget / |f.order| as real, NodeBudgets(clusterBudget, f)[id];
            var total, draw := Sum(f.order, f.Draws()), f.states[id].draw;
            && (draw * |f.order| as real >= 3.0 * total ==> budget == fair + fair)
            && (draw * |f.order| as real <= 3.0 * total ==> (budget - fair / 2.0) * total == draw * clusterBudget / 2.0)
  {
    hide ProRata, SurplusOf, Sum;
    DrawsAddUp(f);
    Shares(clusterBudget, |f.order|);
    var total, n, floor := Sum(f.order, f.Draws()), |f.order| as real, NodeFloor(clusterBudget, |f.order|);
    var draw := f.states[id].draw;
    assert At(Extras(clusterBudget, f), id) == ProRata(draw, clusterBudget / 2.0, total);
    ExtraAgainstFloor(draw, total, clusterBudget, n, floor);
    ProRataProduct(draw, clusterBudget / 2.0, total);
    if draw * n == 3.0 * total {
      ExtraAtCeiling(draw, total, clusterBudget, n, floor);
    }
  }

  lemma ExtraAtCeiling(draw: real, total: real, clusterBudget: real, n: real, floor: real)
    requires total > 0.0 && n > 0.0 && floor * n == clusterBudget / 2.0 && draw * n == 3.0 * total
    ensures ProRata(draw, clusterBudget / 2.0, total) == 3.0 * floor
  {
    ProRataProduct(draw, clusterBudget / 2.0, total);
    hide ProRata;
    assert draw * (floor * n) == (draw * n) * floor == 3.0 * floor * total;
    Cancel(total, ProRata(draw, clusterBudget / 2.0, total), 3.0 * floor);
  }

  /** When nobody draws, everybody gets half the fair share. */
  lemma NobodyDraws(clusterBudget: real, f: Fleet, id: string)
    requires Physical(clusterBudget, f) && id in f.states && Sum(f.order, f.Draws()) == 0.0
    ensures NodeBudgets(clusterBudget, f)[id] == clusterBudget / |f.order| as real / 2.0
  {
    hide ProRata, SurplusOf, Sum;
    DrawsAddUp(f);
    Shares(clusterBudget, |f.order|);
    ProRataOfNothing(SurplusOf(clusterBudget, |f.order|), 1.0);
  }

  // ----- Between two rebalances -----

  /** What the store holds for the nodes of a fleet. */
  ghost function Adopted(adopted: map<(string, string), real>, f: Fleet): map<string, real>
    requires f.Valid()
  {
    map id | id in f.states :: At(adopted, f.KeyOf(id))
  }

  lemma {:induction false} PublishedSoFar(adopted: map<(string, string), real>, f: Fleet,
      budgets: map<string, real>, k: nat, j: nat)
    requires f.Valid() && k <= |f.order| && j < |f.order| && forall id :: id in f.order ==> id in budgets
    ensures At(Published(adopted, f, budgets, k), f.KeyOf(f.order[j]))
            == if j < k then budgets[f.order[j]] else At(adopted, f.KeyOf(f.order[j]))
  {
    if k == 0 {
    } else {
      PublishedSoFar(adopted, f, budgets, k - 1, j);
      if j != k - 1 {
        assert f.order[j] != f.order[k - 1];
      }
    }
  }

  /** Publishing touches no entry but the nodes' own. */
  lemma {:induction false} PublishLeavesOthers(adopted: map<(string, string), real>, f: Fleet, budgets: map<string, real>,
      k: nat, key: (string, string))
    requires k <= |f.order| && forall id :: id in f.order ==> id in f.states && id in budgets
    requires forall j :: 0 <= j < k ==> f.KeyOf(f.order[j]) != key
    ensures key in Published(adopted, f, budgets, k) <==> key in adopted
    ensures key in adopted ==> Published(adopted, f, budgets, k)[key] == adopted[key]
  {
    if k == 0 {
    } else {
      PublishLeavesOthers(adopted, f, budgets, k - 1, key);
    }
  }

  /** Two snapshots of the same nodes in the same domains. */
  ghost predicate SameNodes(f: Fleet, g: Fleet) {
    f.order == g.order && f.states.Keys == g.states.Keys && forall id :: id in f.states ==> f.states[id].domain == g.states[id].domain
  }

  /** The store's entries for the nodes after the first `k` of the new budgets have been published. */
  ghost function StoreAt(
      clusterBudget: real, adopted: map<(string, string), real>, f: Fleet, g: Fleet, k: nat): map<string, real>
    requires Physical(clusterBudget, f) && Physical(clusterBudget, g) && SameNodes(f, g) && k <= |g.order|
  {
    var first := Published(adopted, f, NodeBudgets(clusterBudget, f), |f.order|);
    Adopted(Published(first, g, NodeBudgets(clusterBudget, g), k), g)
  }

  lemma StoreEntry(clusterBudget: real, adopted: map<(string, string), real>, f: Fleet, g: Fleet, k: nat, j: nat)
    requires Physical(clusterBudget, f) && Physical(clusterBudget, g) && SameNodes(f, g) && k <= |g.order| && j < |g.order|
    ensures At(StoreAt(clusterBudget, adopted, f, g, k), g.order[j])
            == At(NodeBudgets(clusterBudget, if j < k then g else f), g.order[j])
  {
    hide Published, NodeBudgets, Sum;
    var first := Published(adopted, f, NodeBudgets(clusterBudget, f), |f.order|);
    assert g.order[j] in g.order;
    PublishedSoFar(first, g, NodeBudgets(clusterBudget, g), k, j);
    PublishedSoFar(adopted, f, NodeBudgets(clusterBudget, f), |f.order|, j);
    assert f.KeyOf(g.order[j]) == g.KeyOf(g.order[j]);
  }

  /** A sum whose first `k` entries come from `b` and the rest from `a`. */
  lemma {:induction false} MixedSum(
      ids: seq<string>, a: map<string, real>, b: map<string, real>, m: map<string, real>, k: nat)
    requires k <= |ids|
    requires forall j :: 0 <= j < |ids| ==> At(m, ids[j]) == At(if j < k then b else a, ids[j])
    ensures Sum(ids, m) == Sum(ids, a) + Sum(ids[..k], b) - Sum(ids[..k], a)
  {
    if ids == [] {
    } else {
      var init := ids[..|ids| - 1];
      if k == |ids| {
        MixedSum(init, a, b, m, k - 1);
        assert ids[..k] == ids && init[..k - 1] == init;
      } else {
        MixedSum(init, a, b, m, k);
        assert init[..k] == ids[..k];
      }
    }
  }

  /** The account of the publish loop: the old total, plus what the first nodes gain. */
  lemma StoreTotal(clusterBudget: real, adopted: map<(string, string), real>, f: Fleet, g: Fleet, k: nat)
    requires Physical(clusterBudget, f) && Physical(clusterBudget, g) && SameNodes(f, g) && k <= |g.order|
    ensures Sum(g.order, StoreAt(clusterBudget, adopted, f, g, k))
            == Sum(g.order, NodeBudgets(clusterBudget, f))
               + Sum(g.order[..k], NodeBudgets(clusterBudget, g)) - Sum(g.order[..k], NodeBudgets(clusterBudget, f))
  {
    hide NodeBudgets, StoreAt, Sum;
    forall j | 0 <= j < |g.order|
      ensures At(StoreAt(clusterBudget, adopted, f, g, k), g.order[j])
              == At(if j < k then NodeBudgets(clusterBudget, g) else NodeBudgets(clusterBudget, f), g.order[j])
    {
      StoreEntry(clusterBudget, adopted, f, g, k, j);
    }
    MixedSum(g.order, NodeBudgets(clusterBudget, f), NodeBudgets(clusterBudget, g), StoreAt(clusterBudget, adopted, f, g, k), k);
  }

  /** Exactly when the store keeps the cluster budget in the middle of the loop: the nodes already published gain no more
      than the last rebalance left unused. */
  lemma MidPublishFitsExactly(clusterBudget: real, adopted: map<(string, string), real>, f: Fleet, g: Fleet, k: nat)
    requires Physical(clusterBudget, f) && Physical(clusterBudget, g) && SameNodes(f, g) && k <= |g.order|
    ensures Sum(g.order, StoreAt(clusterBudget, adopted, f, g, k)) <= clusterBudget
            <==> Sum(g.order[..k], NodeBudgets(clusterBudget, g)) - Sum(g.order[..k], NodeBudgets(clusterBudget, f))
                 <= clusterBudget - Sum(f.order, NodeBudgets(clusterBudget, f))
  {
    hide NodeBudgets, StoreAt, Sum, Physical;
    StoreTotal(clusterBudget, adopted, f, g, k);
  }

  /** Somebody draws, and nobody more than three times the mean. */
  ghost predicate Balanced(f: Fleet) {
    && Sum(f.order, f.Draws()) > 0.0
    && forall id :: id in f.order ==> id in f.states && Times(f.states[id].draw, |f.order|) <= 3.0 * f.TotalDraw()
  }

  /** Without a ceiling that bites, the first nodes' budgets are their floors and their part of the surplus. */
  lemma BudgetsOfFirst(clusterBudget: real, f: Fleet, k: nat)
    requires Physical(clusterBudget, f) && Balanced(f) && k <= |f.order|
    ensures Sum(f.order[..k], NodeBudgets(clusterBudget, f))
            == Times(NodeFloor(clusterBudget, |f.order|), k)
               + ProRata(Sum(f.order[..k], f.Draws()), clusterBudget / 2.0, f.TotalDraw())
  {
    hide ProRata, NodeFloor, NodeCeiling, SurplusOf, Sum, Times, Fleet.TotalDraw;
    var ids, floor, half := f.order[..k], NodeFloor(clusterBudget, |f.order|), clusterBudget / 2.0;
    DrawsAddUp(f);
    Shares(clusterBudget, |f.order|);
    var extras := Extras(clusterBudget, f);
    forall id | id in ids
      ensures At(NodeBudgets(clusterBudget, f), id) == floor + At(extras, id)
      ensures At(extras, id) == ProRata(At(f.Draws(), id), half, f.TotalDraw())
    {
      assert id in f.order;
      CutExactly(clusterBudget, f, id);
    }
    hide Extras, NodeBudgets;
    SumOffset(ids, floor, extras, NodeBudgets(clusterBudget, f));
    SumOfParts(ids, f.Draws(), extras, half, f.TotalDraw());
  }

  lemma SumOfParts(ids: seq<string>, m: map<string, real>, m': map<string, real>, limit: real, total: real)
    requires total != 0.0 && forall id :: id in ids ==> At(m', id) == ProRata(At(m, id), limit, total)
    ensures Sum(ids, m') == ProRata(Sum(ids, m), limit, total)
  {
    hide ProRata, Sum;
    var c := ScaleFactor(ids, m, m', limit, total);
    SumScale(ids, c, m, m');
    assert c == limit / total by {
      SameFactor(c, limit, total);
    }
    ProRataIsScaling(Sum(ids, m), limit, total, c);
  }

  lemma SameFactor(c: real, limit: real, total: real)
    requires total != 0.0 && c * total == limit
    ensures c == limit / total
  {
  }

  /** The same condition in terms of the draws: the first nodes must not draw a larger part of the total than before. */
  lemma MidPublishFitsByDraws(clusterBudget: real, adopted: map<(string, string), real>, f: Fleet, g: Fleet, k: nat)
    requires Physical(clusterBudget, f) && Physical(clusterBudget, g) && SameNodes(f, g) && k <= |g.order|
    requires Balanced(f) && Balanced(g)
    ensures Sum(g.order, StoreAt(clusterBudget, adopted, f, g, k)) <= clusterBudget
            <==> Sum(g.order[..k], g.Draws()) * f.TotalDraw() <= Sum(f.order[..k], f.Draws()) * g.TotalDraw()
  {
    hide NodeBudgets, StoreAt, Sum, Times, NodeFloor, Fleet.TotalDraw, Fleet.Draws, ProRata, Balanced;
    MidPublishFitsExactly(clusterBudget, adopted, f, g, k);
    BalancedUsesAll(clusterBudget, f);
    BudgetsOfFirst(clusterBudget, f, k);
    BudgetsOfFirst(clusterBudget, g, k);
    DrawsAddUp(f);
    DrawsAddUp(g);
    CompareParts(clusterBudget / 2.0, Sum(g.order[..k], g.Draws()), g.TotalDraw(), Sum(f.order[..k], f.Draws()), f.TotalDraw());
  }

  lemma BalancedUsesAll(clusterBudget: real, f: Fleet)
    requires Physical(clusterBudget, f) && Balanced(f)
    ensures Sum(f.order, NodeBudgets(clusterBudget, f)) == clusterBudget
  {
    hide NodeBudgets, Sum, Times, Fleet.TotalDraw;
    UsesWholeBudgetExactly(clusterBudget, f);
  }

  lemma CompareParts(half: real, x: real, total: real, y: real, total': real)
    requires half > 0.0 && total > 0.0 && total' > 0.0
    ensures ProRata(x, half, total) <= ProRata(y, half, total') <==> x * total' <= y * total
  {
    var p, q := x / total, y / total';
    assert p * total == x && q * total' == y;
    ProRataIsScaling(x, half, total, half / total);
    ProRataIsScaling(y, half, total', half / total');
    assert ProRata(x, half, total) == p * half && ProRata(y, half, total') == q * half;
    hide ProRata;
    var both := total * total';
    assert both > 0.0;
    assert x * total' == p * both && y * total == q * both;
    if p <= q {
      ScaleOrder(p, q, half);
      ScaleOrder(p, q, both);
    } else {
      StrictScale(q, p, half);
      StrictScale(q, p, both);
    }
  }

  /** After one completed rebalance the store never totals more than one and a half cluster budgets,
      at any point of the next publish loop. */
  lemma MidPublishTotal(clusterBudget: real, adopted: map<(string, string), real>, f: Fleet, g: Fleet, k: nat)
    requires Physical(clusterBudget, f) && Physical(clusterBudget, g) && SameNodes(f, g) && k <= |g.order|
    ensures Sum(g.order, StoreAt(clusterBudget, adopted, f, g, k)) <= 1.5 * clusterBudget
  {
    hide ProRata, NodeFloor, NodeCeiling, Extras, Sum, Published, NodeBudgets, Times;
    ExtrasTotal(clusterBudget, f);
    ExtrasTotal(clusterBudget, g);
    var now := StoreAt(clusterBudget, adopted, f, g, k);
    var floor := NodeFloor(clusterBudget, |g.order|);
    var before, after := Extras(clusterBudget, f), Extras(clusterBudget, g);
    forall id | id in g.order ensures At(now, id) <= floor + At(before, id) + At(after, id) {
      MidPublishEntry(clusterBudget, adopted, f, g, k, id);
    }
    SumBelowBoth(g.order, floor, before, after, now);
    Shares(clusterBudget, |g.order|);
  }

  lemma SumBelowBoth(ids: seq<string>, floor: real, a: map<string, real>, b: map<string, real>, m: map<string, real>)
    requires forall id :: id in ids ==> At(m, id) <= floor + At(a, id) + At(b, id)
    ensures Sum(ids, m) <= Times(floor, |ids|) + Sum(ids, a) + Sum(ids, b)
  {
    hide Sum, Times;
    var both := map id | id in ids :: At(a, id) + At(b, id);
    var upper := map id | id in ids :: floor + both[id];
    SumPlus(ids, a, b, both);
    SumOffset(ids, floor, both, upper);
    SumMonotone(ids, m, upper);
  }

  lemma BudgetAtMost(clusterBudget: real, f: Fleet, id: string)
    requires Physical(clusterBudget, f) && id in f.states
    ensures NodeBudgets(clusterBudget, f)[id] <= NodeFloor(clusterBudget, |f.order|) + At(Extras(clusterBudget, f), id)
    ensures At(Extras(clusterBudget, f), id) >= 0.0
  {
    hide NodeFloor, NodeCeiling, Extras, Sum;
    ExtraBounds(clusterBudget, f, id);
  }

  /** Each entry is the old budget or the new one, so at most the floor plus both extras. */
  lemma MidPublishEntry(clusterBudget: real, adopted: map<(string, string), real>, f: Fleet, g: Fleet, k: nat,
      id: string)
    requires Physical(clusterBudget, f) && Physical(clusterBudget, g) && SameNodes(f, g) && k <= |g.order| && id in g.states
    ensures At(StoreAt(clusterBudget, adopted, f, g, k), id) <= NodeFloor(clusterBudget, |g.order|)
              + At(Extras(clusterBudget, f), id) + At(Extras(clusterBudget, g), id)
  {
    hide NodeFloor, NodeCeiling, Extras, Sum, StoreAt, NodeBudgets;
    assert id in g.order;
    var j :| 0 <= j < |g.order| && g.order[j] == id;
    StoreEntry(clusterBudget, adopted, f, g, k, j);
    BudgetAtMost(clusterBudget, f, id);
    BudgetAtMost(clusterBudget, g, id);
  }

  /** Two nodes, of which only one draws power. */
  ghost function OneBusyNode(busy: string): Fleet {
    Fleet(["a", "b"], map["a" := NodeState("a", "d", if busy == "a" then 100.0 else 0.0, 0.0, 0.0, 0.0),
                          "b" := NodeState("b", "d", if busy == "b" then 100.0 else 0.0, 0.0, 0.0, 0.0)])
  }

  /** The bound is reached: when the busy node goes idle and the idle one busy, the first new budget comes before
      the other's old one is withdrawn. */
  lemma MidPublishReachesBound(clusterBudget: real, adopted: map<(string, string), real>)
    requires clusterBudget > 0.0
    ensures var f, g := OneBusyNode("b"), OneBusyNode("a");
            && Physical(clusterBudget, f) && Physical(clusterBudget, g) && SameNodes(f, g)
            && Sum(g.order, StoreAt(clusterBudget, adopted, f, g, 1)) == 1.5 * clusterBudget
  {
    hide NodeBudgets, StoreAt;
    var f, g := OneBusyNode("b"), OneBusyNode("a");
    BusyNodeBudget(clusterBudget, "a");
    BusyNodeBudget(clusterBudget, "b");
    StoreEntry(clusterBudget, adopted, f, g, 1, 0);
    StoreEntry(clusterBudget, adopted, f, g, 1, 1);
    var now := StoreAt(clusterBudget, adopted, f, g, 1);
    assert g.order[0] == "a" && g.order[1] == "b";
    assert At(now, "a") == At(now, "b") == 0.75 * clusterBudget;
    assert g.order[..1] == ["a"] && g.order[..1][..0] == [];
    assert Sum(g.order, now) == Sum(["a"], now) + At(now, "b") == Sum(["a"][..0], now) + At(now, "a") + At(now, "b");
  }

  lemma BusyNodeIsPhysical(clusterBudget: real, busy: string)
    requires clusterBudget > 0.0 && busy in {"a", "b"}
    ensures Physical(clusterBudget, OneBusyNode(busy)) && OneBusyNode(busy).TotalDraw() == 100.0
  {
    var f := OneBusyNode(busy);
    assert f.order[..1] == ["a"] && f.order[..1][..0] == [];
    assert Sum(f.order, f.Draws()) == Sum(["a"], f.Draws()) + At(f.Draws(), "b");
    assert Sum(["a"], f.Draws()) == Sum(["a"][..0], f.Draws()) + At(f.Draws(), "a");
  }

  lemma BusyNodeBudget(clusterBudget: real, busy: string)
    requires clusterBudget > 0.0 && busy in {"a", "b"}
    ensures Physical(clusterBudget, OneBusyNode(busy))
    ensures NodeBudgets(clusterBudget, OneBusyNode(busy))[busy] == 0.75 * clusterBudget
  {
    hide Physical, ProRata, NodeFloor, SurplusOf, Fleet.TotalDraw, NodeCeiling;
    BusyNodeIsPhysical(clusterBudget, busy);
    Shares(clusterBudget, 2);
    QuarterOfBudget(clusterBudget);
    WholePart(100.0, clusterBudget / 2.0);
    assert At(Extras(clusterBudget, OneBusyNode(busy)), busy) == ProRata(100.0, clusterBudget / 2.0, 100.0);
  }

  lemma WholePart(x: real, limit: real)
    requires x != 0.0
    ensures ProRata(x, limit, x) == limit
  {
    ProRataIsScaling(x, limit, x, limit / x);
  }

  lemma QuarterOfBudget(clusterBudget: real)
    ensures NodeFloor(clusterBudget, 2) == 0.25 * clusterBudget
  {
  }
}
