/** The whole way from the policies' assignments in the registry to the tiers a controller uses. */
module Handoff {
  import opened Options
  import opened Tiers
  import opened Assignments
  import opened RegistryData
  import opened PriorityConfig
  import Registry
  import GpuIndices

  // ----- The document on the wire -----

  function Encode(a: Assignment): Json {
    Obj(map[
      "gpuBoostPct" := Float(a.boost), "gpuIndex" := Int(a.gpu), "nodeName" := Str(a.node), "podUid" := Str(a.podUid),
      "policyGeneration" := Int(a.generation), "policyUid" := Str(a.policyUid), "priorityClass" := Str(a.tier)])
  }

  function EncodeAll(list: seq<Assignment>): (r: seq<Json>)
    ensures forall j :: j in r <==> exists a :: a in list && j == Encode(a)
  {
    if list == [] then []
    else
      assert list == list[..|list| - 1] + [list[|list| - 1]];
      EncodeAll(list[..|list| - 1]) + [Encode(list[|list| - 1])]
  }

  function Document(list: seq<Assignment>): Payload {
    Doc(Obj(map["assignments" := List(EncodeAll(list)), "schemaVersion" := Int(1)]))
  }

  /** What a poll of the registry gets. */
  function Served(s: Registry.Store): Response
    requires s.current.Some? ==> Consistent(s.current.value.data)
  {
    match s.current
    case None => NotFound
    case Some(cm) => Found(Some(GpuIndices.Digits(cm.version)), Document(cm.data[AGGREGATE_KEY].entry.assignments))
  }

  lemma DocumentIsRead(list: seq<Assignment>)
    ensures AssignmentsIn(Document(list)) == Some(EncodeAll(list))
  {
    hide EncodeAll;
  }

  lemma EncodedClaim(a: Assignment, node: string)
    ensures ClaimOf(Encode(a), node) ==
            if a.node != node then Elsewhere
            else if a.gpu < 0 || ParseTier(a.tier) == None then Invalid
            else Local(a.gpu, Candidate(ParseTier(a.tier).value, a.boost))
  {
    hide ParseTier;
  }

  /** Nothing of an assignment is lost on the wire. */
  lemma EncodeInjective(a: Assignment, b: Assignment)
    ensures Encode(a) == Encode(b) ==> a == b
  {
    if Encode(a) == Encode(b) {
      forall name | name in Encode(a).fields ensures Encode(a).fields[name] == Encode(b).fields[name] {
      }
      assert Encode(a).fields["gpuBoostPct"] == Encode(b).fields["gpuBoostPct"];
      assert Encode(a).fields["gpuIndex"] == Encode(b).fields["gpuIndex"];
      assert Encode(a).fields["nodeName"] == Encode(b).fields["nodeName"];
      assert Encode(a).fields["podUid"] == Encode(b).fields["podUid"];
      assert Encode(a).fields["policyGeneration"] == Encode(b).fields["policyGeneration"];
      assert Encode(a).fields["policyUid"] == Encode(b).fields["policyUid"];
      assert Encode(a).fields["priorityClass"] == Encode(b).fields["priorityClass"];
    }
  }

  // ----- What the policies ask for -----

  /** Some policy's entry puts the GPU of this node in the tier. */
  ghost predicate AssignedTier(data: Data, node: string, gpu: int, t: Tier) {
    exists k, a ::
      && k in data && IsPolicyKey(k) && data[k].Object? && a in data[k].entry.assignments
      && a.node == node && a.gpu == gpu && ParseTier(a.tier) == Some(t)
  }

  ghost predicate HighestAssigned(data: Data, node: string, gpu: int, t: Tier) {
    AssignedTier(data, node, gpu, t) && forall t' :: AssignedTier(data, node, gpu, t') ==> Rank(t') <= Rank(t)
  }

  /** Every assignment on the node has a real tier and a real index. */
  ghost predicate SoundOn(data: Data, node: string) {
    forall k, a :: k in data && IsPolicyKey(k) && data[k].Object? && a in data[k].entry.assignments && a.node == node ==>
      a.gpu >= 0 && ParseTier(a.tier).Some?
  }

  /** The baseline, overlaid with the highest tier that any policy assigns to each GPU of the node. */
  ghost predicate Shows(snapshot: map<int, Tier>, baseline: map<int, Tier>, data: Data, node: string) {
    && (forall g, t :: HighestAssigned(data, node, g, t) ==> g in snapshot && snapshot[g] == t)
    && (forall g :: (forall t :: !AssignedTier(data, node, g, t)) ==>
          (g in snapshot <==> g in baseline) && (g in baseline ==> snapshot[g] == baseline[g]))
  }

  lemma ClaimedIsAssigned(data: Data, node: string, gpu: int, t: Tier)
    requires SoundOn(data, node)
    ensures AssignedTier(data, node, gpu, t)
            <==> exists c :: Claimed(EncodeAll(Aggregate(data)), node, gpu, c) && c.tier == t
  {
    hide Aggregate, ParseTier, EndsWithSuffix, ClaimOf, Encode;
    var list := Aggregate(data);
    if AssignedTier(data, node, gpu, t) {
      var k, a :| && k in data && IsPolicyKey(k) && data[k].Object? && a in data[k].entry.assignments
                  && a.node == node && a.gpu == gpu && ParseTier(a.tier) == Some(t);
      AggregateMeaning(data, a);
      EncodedClaim(a, node);
      assert Encode(a) in EncodeAll(list);
      assert Claimed(EncodeAll(list), node, gpu, Candidate(t, a.boost));
    }
    if c :| Claimed(EncodeAll(list), node, gpu, c) && c.tier == t {
      var j :| j in EncodeAll(list) && ClaimOf(j, node) == Local(gpu, c);
      var a :| a in list && j == Encode(a);
      AggregateMeaning(data, a);
      EncodedClaim(a, node);
    }
  }

  lemma SoundExactly(data: Data, node: string)
    ensures Parse(Document(Aggregate(data)), node).Some? <==> SoundOn(data, node)
  {
    hide Aggregate, ParseTier, EndsWithSuffix, ClaimOf, Encode, Document, Parse;
    var list := Aggregate(data);
    AcceptedExactly(Document(list), node);
    DocumentIsRead(list);
    if SoundOn(data, node) {
      forall j | j in EncodeAll(list) ensures ClaimOf(j, node) != Invalid {
        var a :| a in list && j == Encode(a);
        AggregateMeaning(data, a);
        EncodedClaim(a, node);
      }
    } else {
      var k, a :| && k in data && IsPolicyKey(k) && data[k].Object? && a in data[k].entry.assignments
                  && a.node == node && !(a.gpu >= 0 && ParseTier(a.tier).Some?);
      AggregateMeaning(data, a);
      EncodedClaim(a, node);
      assert Encode(a) in EncodeAll(list);
    }
  }

  lemma ParsedTier(data: Data, node: string, gpu: int, t: Tier)
    requires SoundOn(data, node)
    ensures Parse(Document(Aggregate(data)), node).Some?
    ensures var tiers := Parse(Document(Aggregate(data)), node).value;
            gpu in tiers && tiers[gpu] == t <==> HighestAssigned(data, node, gpu, t)
  {
    hide Aggregate, SoundOn, ClaimOf, EncodeAll, AssignedTier, Claimed, Parse, Document, AssignmentsIn, Rank;
    SoundExactly(data, node);
    HighestTierWins(Document(Aggregate(data)), node, gpu, t);
    DocumentIsRead(Aggregate(data));
    forall t' ensures AssignedTier(data, node, gpu, t')
                      <==> exists c :: Claimed(EncodeAll(Aggregate(data)), node, gpu, c) && c.tier == t'
    {
      ClaimedIsAssigned(data, node, gpu, t');
    }
  }

  /** If a GPU is assigned any tier, one of them is the highest. */
  lemma HighestExists(data: Data, node: string, gpu: int)
    requires exists t :: AssignedTier(data, node, gpu, t)
    ensures exists t :: HighestAssigned(data, node, gpu, t)
  {
    hide AssignedTier;
    var t :| AssignedTier(data, node, gpu, t);
    var best := if AssignedTier(data, node, gpu, Critical) then Critical
      else if AssignedTier(data, node, gpu, High) then High
      else if AssignedTier(data, node, gpu, Normal) then Normal
      else Low;
    assert t != Critical && t != High && t != Normal ==> t == Low;
    assert HighestAssigned(data, node, gpu, best);
  }

  /**
   * An accepted registry is shown as the baseline overlaid with the highest tier any policy assigns to each local GPU,
   * and it is accepted exactly when every assignment on the node has a real tier.
   */
  lemma HandoffMeaning(data: Data, node: string, baseline: map<int, Tier>, s: Source, version: Option<string>)
    requires Consistent(data) && !SameVersion(version, s.version)
    ensures var after := AfterPoll(s, baseline, node, Found(version, Document(data[AGGREGATE_KEY].entry.assignments)));
            && (SoundOn(data, node) ==> Shows(after.snapshot, baseline, data, node) && after.version == version)
            && (!SoundOn(data, node) ==> after.snapshot == s.snapshot && after.version == s.version)
  {
    hide Aggregate, Document, Parse, AssignedTier, SoundOn, Rank;
    SoundExactly(data, node);
    if SoundOn(data, node) {
      var tiers := Parse(Document(Aggregate(data)), node).value;
      ShowsParsed(data, node, baseline, tiers);
    }
  }

  lemma ShowsParsed(data: Data, node: string, baseline: map<int, Tier>, tiers: map<int, Tier>)
    requires SoundOn(data, node) && Parse(Document(Aggregate(data)), node) == Some(tiers)
    ensures Shows(Overlay(baseline, tiers), baseline, data, node)
  {
    hide Aggregate, Document, Parse, AssignedTier, SoundOn, Rank;
    forall g, t ensures g in tiers && tiers[g] == t <==> HighestAssigned(data, node, g, t) {
      ParsedTier(data, node, g, t);
    }
    forall g | g in tiers ensures exists t :: AssignedTier(data, node, g, t) {
      assert HighestAssigned(data, node, g, tiers[g]);
    }
  }

  // ----- A controller beside concurrent writers -----

  ghost predicate Leads(a: Registry.System, b: Registry.System) {
    exists actions :: Registry.Reaches(a, actions, b)
  }

  /** Moments of one run of the registry, in order, of which the first comes from a registry that does not exist. */
  ghost predicate Observed(start: Registry.System, moments: seq<Registry.System>) {
    && Registry.Start(start) && start.store.current == None
    && (forall i :: 0 <= i < |moments| ==> Leads(start, moments[i]))
    && (forall i, j :: 0 <= i < j < |moments| ==> Leads(moments[i], moments[j]))
  }

  ghost predicate Pollable(m: Registry.System) {
    m.store.current.Some? ==> Consistent(m.store.current.value.data)
  }

  lemma ObservedIsPollable(start: Registry.System, m: Registry.System)
    requires Registry.Start(start) && start.store.current == None && Leads(start, m)
    ensures Registry.Invariant(m) && Pollable(m)
  {
    hide Consistent, Registry.TaskFits, Registry.LogFits, Registry.Reaches;
    var actions :| Registry.Reaches(start, actions, m);
    Registry.Reachable(start, actions, m);
    Registry.AggregateIsAlwaysTrue(start, actions, m);
  }

  /** Each poll got what the registry served at its moment, or failed. */
  ghost predicate Polled(moments: seq<Registry.System>, rs: seq<Response>) {
    |rs| == |moments| && forall i :: 0 <= i < |rs| ==> Answered(moments[i], rs[i])
  }

  ghost predicate Answered(m: Registry.System, r: Response) {
    Pollable(m) && (r == Served(m.store) || r.Unavailable? || r.Denied? || r.Failed?)
  }

  lemma SameVersionSameContents(a: Registry.System, b: Registry.System, actions: seq<Registry.Action>)
    requires Registry.Invariant(a) && Registry.Reaches(a, actions, b)
    requires a.store.current.Some? && b.store.current.Some?
    requires GpuIndices.Digits(a.store.current.value.version) == GpuIndices.Digits(b.store.current.value.version)
    ensures a.store.current == b.store.current
  {
    hide Registry.Invariant;
    GpuIndices.DigitsRead(a.store.current.value.version);
    GpuIndices.DigitsRead(b.store.current.value.version);
    Registry.VersionsIdentifyContents(a, actions, b);
  }

  lemma PolledIdentify(start: Registry.System, moments: seq<Registry.System>, rs: seq<Response>)
    requires Observed(start, moments) && Polled(moments, rs)
    ensures VersionsIdentify(rs)
  {
    hide Registry.Invariant, Registry.Reaches, Document, Consistent, GpuIndices.Digits;
    forall i, j | 0 <= i < |rs| && 0 <= j < |rs| && rs[i].Found? && rs[j].Found? && SameVersion(rs[i].version, rs[j].version)
      ensures rs[i].payload == rs[j].payload
    {
      var lo, hi := if i <= j then i else j, if i <= j then j else i;
      if lo < hi {
        assert Leads(moments[lo], moments[hi]);
        var actions :| Registry.Reaches(moments[lo], actions, moments[hi]);
        ObservedIsPollable(start, moments[lo]);
        SameVersionSameContents(moments[lo], moments[hi], actions);
      }
    }
  }

  /** The poll succeeded and found no registry, or one whose assignments on the node are sound. */
  ghost predicate Decisive(m: Registry.System, r: Response, node: string) {
    r.NotFound? || (r.Found? && m.store.current.Some? && SoundOn(m.store.current.value.data, node))
  }

  /** The snapshot is what the registry of that moment stands for. */
  ghost predicate ShowsMoment(snapshot: map<int, Tier>, baseline: map<int, Tier>, m: Registry.System, node: string) {
    match m.store.current
    case None => snapshot == baseline
    case Some(cm) => Shows(snapshot, baseline, cm.data, node)
  }

  /** `n` polls have been made up to the last decisive one, if there was any. */
  ghost predicate LastDecisive(moments: seq<Registry.System>, rs: seq<Response>, node: string, n: nat) {
    && n <= |moments| == |rs| && (n > 0 ==> Decisive(moments[n - 1], rs[n - 1], node))
    && forall i :: n <= i < |rs| ==> !Decisive(moments[i], rs[i], node)
  }

  lemma OnePoll(snapshot: map<int, Tier>, baseline: map<int, Tier>, m: Registry.System, r: Response, node: string)
    requires Answered(m, r)
    ensures Decisive(m, r, node) ==> ShowsMoment(Refreshed(snapshot, baseline, node, r), baseline, m, node)
    ensures !Decisive(m, r, node) ==> Refreshed(snapshot, baseline, node, r) == snapshot
  {
    hide Document, Aggregate, Parse, Shows, SoundOn, GpuIndices.Digits;
    if r.Found? {
      var data := m.store.current.value.data;
      SoundExactly(data, node);
      if SoundOn(data, node) {
        ShowsParsed(data, node, baseline, Parse(Document(Aggregate(data)), node).value);
      }
    }
  }

  lemma {:induction false} RefreshShowsLastDecisive(
      moments: seq<Registry.System>, rs: seq<Response>, node: string, baseline: map<int, Tier>, n: nat)
    requires Polled(moments, rs) && LastDecisive(moments, rs, node, n)
    ensures n == 0 ==> RefreshAll(baseline, node, rs) == baseline
    ensures n > 0 ==> ShowsMoment(RefreshAll(baseline, node, rs), baseline, moments[n - 1], node)
  {
    hide Answered, Decisive, ShowsMoment, Refreshed;
    if rs == [] {
    } else {
      var k := |rs| - 1;
      OnePoll(RefreshAll(baseline, node, rs[..k]), baseline, moments[k], rs[k], node);
      if n <= k {
        RefreshShowsLastDecisive(moments[..k], rs[..k], node, baseline, n);
      }
    }
  }

  /**
   * Whatever the writers did in between, whichever moments the controller polled and whichever polls failed, it shows the
   * registry of the last moment it found absent or sound for its node, or the baseline if there was none, although it
   * skips versions it has seen.
   */
  lemma ControllerShowsRegistry(
      start: Registry.System, moments: seq<Registry.System>, rs: seq<Response>, node: string,
      baseline: map<int, Tier>, n: nat)
    requires Observed(start, moments) && Polled(moments, rs) && LastDecisive(moments, rs, node, n)
    ensures n == 0 ==> PollAll(baseline, node, rs).snapshot == baseline
    ensures n > 0 ==> ShowsMoment(PollAll(baseline, node, rs).snapshot, baseline, moments[n - 1], node)
  {
    hide Polled, Observed, VersionsIdentify, PollAll, RefreshAll, ShowsMoment, LastDecisive;
    PolledIdentify(start, moments, rs);
    ShortcutIsInvisible(baseline, node, rs);
    RefreshShowsLastDecisive(moments, rs, node, baseline, n);
  }
}
