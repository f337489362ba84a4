/** From the cluster's Pods and policies to a controller's tiers: event filter, registry and poller together. */
module EndToEnd {
  import opened Options
  import opened Tiers
  import opened Assignments
  import opened Resolution
  import opened RegistryData
  import opened PriorityConfig
  import opened Handoff
  import opened Publications
  import GpuIndices
  import PodEvents
  import Registry

  /** The policy's selector, which is not empty, matches the Pod of its namespace, which runs on the node and advertises the
      GPU. */
  ghost predicate Reaches(pod: Pod, policy: Policy, node: string, gpu: int) {
    && pod.namespace == policy.namespace && policy.selector.Items != {} && policy.selector.Items <= pod.labels.Items
    && pod.uid != "" && pod.node == Some(node) && node != ""
    && Advertises(pod.annotation, gpu)
  }

  ghost predicate Gives(pod: Pod, policy: Policy, node: string, gpu: int, t: Tier) {
    Reaches(pod, policy, node, gpu) && ParseTier(policy.tier) == Some(t)
  }

  ghost predicate Wanted(s: PodEvents.State, namespace: string, node: string, gpu: int, t: Tier) {
    exists k, u :: k in s.policies && k.namespace == namespace && u in s.pods && Gives(s.pods[u], s.policies[k], node, gpu, t)
  }

  ghost predicate HighestWanted(s: PodEvents.State, namespace: string, node: string, gpu: int, t: Tier) {
    Wanted(s, namespace, node, gpu, t) && forall t' :: Wanted(s, namespace, node, gpu, t') ==> Rank(t') <= Rank(t)
  }

  lemma AssignedIsWanted(data: Data, s: PodEvents.State, namespace: string, node: string, gpu: int, t: Tier)
    requires PodEvents.Invariant(s) && Registered(data, s, namespace)
    ensures AssignedTier(data, node, gpu, t) ==> Wanted(s, namespace, node, gpu, t)
  {
    hide Selected, Advertises, StrictlySorted, EndsWithSuffix, ParseTier, Contribution, PodEvents.InStep;
    if AssignedTier(data, node, gpu, t) {
      var key, a :| && key in data && IsPolicyKey(key) && data[key].Object? && a in data[key].entry.assignments
                    && a.node == node && a.gpu == gpu && ParseTier(a.tier) == Some(t);
      var k :| k in s.policies && k.namespace == namespace && Key(k.name) == key;
      assert Assigned(a, s.pods, s.policies[k]);
      ContributionHas(s.pods[a.podUid], s.policies[k], a);
      SelectedExactly(s.pods[a.podUid], s.policies[k]);
      assert Gives(s.pods[a.podUid], s.policies[k], node, gpu, t);
    }
  }

  lemma WantedIsAssigned(data: Data, s: PodEvents.State, namespace: string, node: string, gpu: int, t: Tier)
    requires PodEvents.Invariant(s) && Registered(data, s, namespace) && NoReservedName(s, namespace)
    ensures Wanted(s, namespace, node, gpu, t) ==> AssignedTier(data, node, gpu, t)
  {
    hide Selected, Advertises, StrictlySorted, ParseTier, Contribution, PodEvents.InStep;
    if Wanted(s, namespace, node, gpu, t) {
      var k, u :| k in s.policies && k.namespace == namespace && u in s.pods && Gives(s.pods[u], s.policies[k], node, gpu, t);
      var policy := s.policies[k];
      var a := Assignment(node, gpu, u, policy.uid, policy.generation, policy.tier, policy.boost);
      ContributionHas(s.pods[u], policy, a);
      SelectedExactly(s.pods[u], policy);
      assert Assigned(a, s.pods, policy);
      assert IsPolicyKey(Key(k.name));
      assert a in data[Key(k.name)].entry.assignments;
    }
  }

  lemma ValidTiersAreSound(data: Data, s: PodEvents.State, namespace: string, node: string)
    requires PodEvents.Invariant(s) && Registered(data, s, namespace)
    requires ValidTiers(s, namespace, node)
    ensures SoundOn(data, node)
  {
    hide Selected, Advertises, StrictlySorted, EndsWithSuffix, ParseTier, Contribution, PodEvents.InStep;
    forall key, a | key in data && IsPolicyKey(key) && data[key].Object? && a in data[key].entry.assignments && a.node == node
      ensures a.gpu >= 0 && ParseTier(a.tier).Some?
    {
      var k :| k in s.policies && k.namespace == namespace && Key(k.name) == key;
      assert Assigned(a, s.pods, s.policies[k]);
      ContributionHas(s.pods[a.podUid], s.policies[k], a);
      SelectedExactly(s.pods[a.podUid], s.policies[k]);
      assert Reaches(s.pods[a.podUid], s.policies[k], node, a.gpu);
    }
  }

  /**
   * After any run of Pod and policy events, whose handlers wrote the registry among any interleaving of calls, a
   * controller that polled it at any moments, the last of them now, gives each GPU of its node the highest tier of the
   * policies that select a Pod which runs there and advertises the GPU, and the baseline's tier if there is none.
   */
  lemma WorkloadsGetTheirTiers(
      events: seq<PodEvents.Event>, namespace: string, details: Details,
      start: Registry.System, moments: seq<Registry.System>, rs: seq<Response>,
      node: string, baseline: map<int, Tier>, gpu: int, t: Tier)
    requires PodEvents.PossibleRun(PodEvents.EMPTY, events)
    requires NoReservedName(PodEvents.Run(PodEvents.EMPTY, events), namespace)
    requires ValidTiers(PodEvents.Run(PodEvents.EMPTY, events), namespace, node)
    requires Observed(start, moments) && Polled(moments, rs) && moments != []
    requires rs[|rs| - 1] == Served(moments[|rs| - 1].store)
    requires Registry.SameWrites(moments[|moments| - 1].log, Writes(PodEvents.EMPTY, events, namespace, details))
    ensures var s := PodEvents.Run(PodEvents.EMPTY, events);
            var tiers := PollAll(baseline, node, rs).snapshot;
            && (HighestWanted(s, namespace, node, gpu, t) ==> gpu in tiers && tiers[gpu] == t)
            && ((forall u :: !Wanted(s, namespace, node, gpu, u)) ==>
                  (gpu in tiers <==> gpu in baseline) && (gpu in baseline ==> tiers[gpu] == baseline[gpu]))
  {
    hide Registered, AssignedTier, SoundOn, PollAll, PodEvents.Invariant, Served, Wanted, ValidTiers, Answered, Registry.SameWrites;
    hide PodEvents.PossibleRun, PodEvents.Run, Writes, NoReservedName, Consistent, HighestWanted;
    var s, end := PodEvents.Run(PodEvents.EMPTY, events), moments[|moments| - 1];
    PodEvents.RunKeepsInvariant(events);
    var actions :| Registry.Reaches(start, actions, end);
    RegistryHoldsPublications(events, namespace, details, start, actions, end);
    LastPollIsDecisive(s, namespace, node, end, moments, rs);
    ControllerShowsRegistry(start, moments, rs, node, baseline, |rs|);
    ShownIsWanted(s, namespace, node, end, PollAll(baseline, node, rs).snapshot, baseline, gpu, t);
  }

  /** The policies that put a GPU of the node in a tier name a real one. */
  ghost predicate ValidTiers(s: PodEvents.State, namespace: string, node: string) {
    forall k, u, gpu: nat ::
      k in s.policies && k.namespace == namespace && u in s.pods && Reaches(s.pods[u], s.policies[k], node, gpu) ==>
        ParseTier(s.policies[k].tier).Some?
  }

  /** The registry of `end` is that of the run. */
  ghost predicate HoldsRun(end: Registry.System, s: PodEvents.State, namespace: string) {
    match end.store.current
    case None => forall k :: k in s.policies ==> k.namespace != namespace
    case Some(cm) => Consistent(cm.data) && Registered(cm.data, s, namespace)
  }

  lemma LastPollIsDecisive(
      s: PodEvents.State, namespace: string, node: string, end: Registry.System, moments: seq<Registry.System>,
      rs: seq<Response>)
    requires PodEvents.Invariant(s) && HoldsRun(end, s, namespace) && ValidTiers(s, namespace, node)
    requires Polled(moments, rs) && moments != [] && end == moments[|moments| - 1] && rs[|rs| - 1] == Served(end.store)
    ensures LastDecisive(moments, rs, node, |rs|)
  {
    hide PodEvents.Invariant, Registered, SoundOn, Document, Aggregate, GpuIndices.Digits;
    if end.store.current.Some? {
      ValidTiersAreSound(end.store.current.value.data, s, namespace, node);
    }
  }

  lemma ShownIsWanted(
      s: PodEvents.State, namespace: string, node: string, end: Registry.System, tiers: map<int, Tier>,
      baseline: map<int, Tier>, gpu: int, t: Tier)
    requires PodEvents.Invariant(s) && NoReservedName(s, namespace)
    requires HoldsRun(end, s, namespace) && ShowsMoment(tiers, baseline, end, node)
    ensures HighestWanted(s, namespace, node, gpu, t) ==> gpu in tiers && tiers[gpu] == t
    ensures (forall u :: !Wanted(s, namespace, node, gpu, u)) ==>
              (gpu in tiers <==> gpu in baseline) && (gpu in baseline ==> tiers[gpu] == baseline[gpu])
  {
    hide Registered, AssignedTier, PodEvents.Invariant, Rank, Consistent, Gives;
    match end.store.current {
      case None =>
        assert forall u :: !Wanted(s, namespace, node, gpu, u);
      case Some(cm) =>
        forall u ensures AssignedTier(cm.data, node, gpu, u) <==> Wanted(s, namespace, node, gpu, u) {
          AssignedIsWanted(cm.data, s, namespace, node, gpu, u);
          WantedIsAssigned(cm.data, s, namespace, node, gpu, u);
        }
        hide Wanted;
        assert HighestAssigned(cm.data, node, gpu, t) <==> HighestWanted(s, namespace, node, gpu, t);
    }
  }

  /** Whatever the run, some concurrent registry made its writes and some controller has just polled it. */
  lemma EveryRunCanBePolled(events: seq<PodEvents.Event>, namespace: string, details: Details)
      returns (start: Registry.System, moments: seq<Registry.System>, rs: seq<Response>)
    ensures Observed(start, moments) && Polled(moments, rs) && moments != []
    ensures rs[|rs| - 1] == Served(moments[|rs| - 1].store)
    ensures Registry.SameWrites(moments[|moments| - 1].log, Writes(PodEvents.EMPTY, events, namespace, details))
  {
    hide Writes, Consistent, Document, Registry.Reaches, Registry.Invariant;
    HandlersOnlyWrite(PodEvents.EMPTY, events, namespace, details);
    var actions, end;
    start, actions, end := Registry.WritesCanHappen(Writes(PodEvents.EMPTY, events, namespace, details));
    assert Leads(start, end);
    ObservedIsPollable(start, end);
    moments, rs := [end], [Served(end.store)];
  }
}
