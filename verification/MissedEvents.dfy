/** What the event filter does after an event was missed: exactly when the next Pod event leaves a published list right. */
module MissedEvents {
  import opened Options
  import opened Assignments
  import opened Resolution
  import opened PodEvents
  import Annotations

  /** Annotation, labels and node are those last seen. */
  ghost predicate OldNews(m: Memory, pod: Pod) {
    && pod.uid in m.digests
    && m.digests[pod.uid].digest.annotation == pod.annotation
    && m.digests[pod.uid].digest.labels == pod.labels
    && m.digests[pod.uid].digest.node == pod.node
  }

  /** The Pod is annotated, or some cached selector matches its labels, or it was relevant when last seen. */
  ghost predicate Matters(m: Memory, pod: Pod, selectors: seq<map<string, string>>) {
    || pod.annotation.Some?
    || (pod.labels != map[] && exists i :: 0 <= i < |selectors| && selectors[i].Items <= pod.labels.Items)
    || (pod.uid in m.digests && m.digests[pod.uid].relevant)
  }

  /** The handler gets past the digest cache and the relevance test. */
  ghost predicate Reresolves(m: Memory, e: Event)
    requires e.PodChanged? || e.PodDeleted?
  {
    e.pod.uid != "" && !(e.PodChanged? && OldNews(m, e.pod)) && Matters(m, e.pod, e.selectors)
  }

  lemma MattersExactly(m: Memory, pod: Pod, selectors: seq<map<string, string>>)
    ensures Matters(m, pod, selectors) <==> m.Wakes(pod, selectors)
    ensures OldNews(m, pod) <==> m.Unchanged(pod)
  {
    forall i | 0 <= i < |selectors| ensures Matches(pod.labels, selectors[i]) <==> selectors[i].Items <= pod.labels.Items {
      MatchesExactly(pod.labels, selectors[i]);
    }
  }

  /** The policy's assignments are the same for both Pod maps. */
  ghost predicate SameAssignments(pods: map<string, Pod>, pods': map<string, Pod>, policy: Policy) {
    forall a :: Assigned(a, pods, policy) <==> Assigned(a, pods', policy)
  }

  lemma RightAfterward(list: seq<Assignment>, pods: map<string, Pod>, pods': map<string, Pod>, policy: Policy)
    requires IsResolution(list, pods, policy)
    ensures IsResolution(list, pods', policy) <==> SameAssignments(pods, pods', policy)
  {
    hide Assigned, StrictlySorted;
    if IsResolution(list, pods', policy) {
      forall a ensures Assigned(a, pods, policy) <==> Assigned(a, pods', policy) {
        assert a in list <==> Assigned(a, pods, policy);
      }
    }
  }

  /** Pods of other namespaces are never assigned. */
  lemma ForeignPodChangesNothing(s: State, e: Event, policy: Policy)
    requires (e.PodChanged? || e.PodDeleted?) && Possible(s, e) && policy.namespace != e.pod.namespace
    ensures SameAssignments(s.pods, PodsAfter(s, e), policy)
  {
    hide Contribution, Matches, Truthful;
  }

  lemma UntouchedUnlessReresolved(s: State, e: Event, k: PolicyKey)
    requires (e.PodChanged? || e.PodDeleted?) && k in s.memory.published
    requires !Reresolves(s.memory, e) || (Possible(s, e) && k.namespace != e.pod.namespace)
    ensures k in MemoryAfter(s, e).published && MemoryAfter(s, e).published[k] == s.memory.published[k]
  {
    hide Relevant, Lists, Answers.Published, OldNews, Matters;
    MattersExactly(s.memory, e.pod, e.selectors);
  }

  /**
   * Whatever the digest cache holds, a Pod event that finds a policy's list right leaves it right if and only if the
   * handler re-resolves or the policy's assignments are the same before and after.
   */
  lemma EventLeavesListRightExactly(s: State, e: Event, k: PolicyKey)
    requires KeyedByUid(s.pods) && (e.PodChanged? || e.PodDeleted?) && Possible(s, e)
    requires k in s.policies && k.name != "" && s.policies[k].namespace == k.namespace && k in s.memory.published
    requires IsResolution(s.memory.published[k], s.pods, s.policies[k])
    ensures k in MemoryAfter(s, e).published
    ensures IsResolution(MemoryAfter(s, e).published[k], PodsAfter(s, e), s.policies[k])
            <==> Reresolves(s.memory, e) || SameAssignments(s.pods, PodsAfter(s, e), s.policies[k])
  {
    hide Relevant, Lists, IsResolution, SameAssignments, Resolve, Memory.WasRelevant, OldNews, Matters;
    MattersExactly(s.memory, e.pod, e.selectors);
    var policy := s.policies[k];
    if Reresolves(s.memory, e) && k.namespace == e.pod.namespace {
      ResolveIsResolution(e.answers.Listing(k), PodsAfter(s, e), policy);
    } else {
      if k.namespace != e.pod.namespace {
        ForeignPodChangesNothing(s, e, policy);
      }
      UntouchedUnlessReresolved(s, e, k);
      RightAfterward(s.memory.published[k], s.pods, PodsAfter(s, e), policy);
    }
  }

  // ----- Two ways to go wrong -----

  const KEY := PolicyKey("ns", "p")
  const POLICY := Policy("ns", "policy", 1, map["app" := "x"], "high", 0.0)

  /** On node "n", advertising GPU 0. */
  ghost function BusyPod(): Pod {
    Pod("u", "ns", Some(Annotations.Format([0])), map["app" := "x"], Some("n"), "")
  }

  ghost function IdlePod(): Pod {
    BusyPod().(annotation := None)
  }

  ghost function TheAssignment(): Assignment {
    Assign(BusyPod(), POLICY, 0)
  }

  ghost function OnePod(pod: Pod, relevant: bool, published: seq<Assignment>): State {
    State(map["u" := pod], map[KEY := POLICY], Memory(map["u" := Cached(DigestOf(pod), relevant, "ns")], map[KEY := published]))
  }

  lemma StartIsKept(pod: Pod, relevant: bool, published: seq<Assignment>)
    requires pod.uid == "u" && pod.namespace == "ns" && (pod.annotation.Some? ==> relevant)
    requires IsResolution(published, map["u" := pod], POLICY)
    ensures Invariant(OnePod(pod, relevant, published))
  {
    hide IsResolution;
  }

  /** The Pod changes unnoticed, and the policy is re-resolved. */
  ghost function MissedThenResynced(start: State, changed: Pod): State {
    Step(start.(pods := map["u" := changed]), Resynced(KEY, [changed]))
  }

  lemma ResyncPublishes(pod: Pod, relevant: bool, published: seq<Assignment>, changed: Pod)
    requires changed.namespace == "ns"
    ensures MissedThenResynced(OnePod(pod, relevant, published), changed)
         == OnePod(pod, relevant, Resolve([changed], POLICY)).(pods := map["u" := changed])
  {
    hide Resolve;
    var start := OnePod(pod, relevant, published);
    assert start.memory.published[KEY := Resolve([changed], POLICY)] == map[KEY := Resolve([changed], POLICY)];
    assert LiveUids(map["u" := changed], "ns") == {"u"};
    assert MissedThenResynced(start, changed).memory.digests == start.memory.digests;
  }

  lemma EventIsIgnored(s: State, pod: Pod, selectors: seq<map<string, string>>, answers: Answers)
    requires pod.uid == "u" && (s.memory.Unchanged(pod) || !s.memory.Wakes(pod, selectors))
    ensures Step(s, PodChanged(pod, selectors, answers)).memory.published == s.memory.published
  {
    hide Relevant;
  }

  lemma BusyPodContributes()
    ensures Contribution(BusyPod(), POLICY) == [TheAssignment()]
  {
    Annotations.RoundTrip([0]);
    assert [0][..0] == [];
    assert AssignAll(BusyPod(), POLICY, [0]) == AssignAll(BusyPod(), POLICY, []) + [TheAssignment()];
  }

  lemma ResolvesTo(pod: Pod, list: seq<Assignment>)
    requires pod.uid == "u" && Selected(pod, POLICY) && Contribution(pod, POLICY) == list && |list| <= 1
    requires forall a :: a in list ==> a.podUid == "u"
    ensures IsResolution(list, map["u" := pod], POLICY) && Lists([pod], map["u" := pod], POLICY)
    ensures Resolve([pod], POLICY) == list
  {
    hide Selected, Contribution, Resolve;
    ResolveIsResolution([pod], map["u" := pod], POLICY);
    ResolutionUnique(Resolve([pod], POLICY), list, map["u" := pod], POLICY);
  }

  lemma BothSelected()
    ensures Selected(BusyPod(), POLICY) && Selected(IdlePod(), POLICY)
    ensures Selected(IdlePod().(node := Some("m")), POLICY)
  {
    assert "app" in POLICY.selector;
  }

  lemma IdlePodContributesNothing(pod: Pod)
    requires pod.annotation == None
    ensures Contribution(pod, POLICY) == []
  {
  }

  /** The annotation goes and the event is missed, a resync publishes the empty list, and the annotation comes back: the
      digest cache takes that for old news. */
  lemma ChangeBackIsMissed(selectors: seq<map<string, string>>, answers: Answers)
    ensures var start := OnePod(BusyPod(), true, [TheAssignment()]);
            var resynced := MissedThenResynced(start, IdlePod());
            var end := Step(resynced, PodChanged(BusyPod(), selectors, answers));
            && Invariant(start) && resynced.memory.published == map[KEY := []]
            && end.pods == start.pods && end.memory.published == map[KEY := []]
            && Resolve([BusyPod()], POLICY) == [TheAssignment()]
  {
    hide Resolve, Contribution, Selected, IsResolution, Lists, Invariant, TheAssignment;
    BusyPodContributes();
    IdlePodContributesNothing(IdlePod());
    BothSelected();
    TheAssignmentIsOfThePod();
    ResolvesTo(BusyPod(), [TheAssignment()]);
    ResolvesTo(IdlePod(), []);
    StartIsKept(BusyPod(), true, [TheAssignment()]);
    ResyncPublishes(BusyPod(), true, [TheAssignment()], IdlePod());
    hide MissedThenResynced;
    var resynced := MissedThenResynced(OnePod(BusyPod(), true, [TheAssignment()]), IdlePod());
    assert resynced.memory.Unchanged(BusyPod());
    EventIsIgnored(resynced, BusyPod(), selectors, answers);
    hide MemoryAfter;
    assert Step(resynced, PodChanged(BusyPod(), selectors, answers)).pods == map["u" := BusyPod()];
  }

  lemma TheAssignmentIsOfThePod()
    ensures TheAssignment().podUid == "u"
  {
  }

  /** The annotation of a Pod cached as irrelevant comes and the event is missed, a resync publishes it, and then the Pod
      loses it and moves: the digest is new, but nothing says the Pod mattered. */
  lemma LossOfMissedAnnotationIsIgnored(answers: Answers)
    ensures var moved := IdlePod().(node := Some("m"));
            var start := OnePod(IdlePod(), false, []);
            var resynced := MissedThenResynced(start, BusyPod());
            var end := Step(resynced, PodChanged(moved, [], answers));
            && Invariant(start) && resynced.memory.published == map[KEY := [TheAssignment()]]
            && end.pods == map["u" := moved] && end.memory.published == map[KEY := [TheAssignment()]]
            && Resolve([moved], POLICY) == []
  {
    hide Resolve, Contribution, Selected, IsResolution, Lists, Invariant, TheAssignment;
    var moved := IdlePod().(node := Some("m"));
    BusyPodContributes();
    IdlePodContributesNothing(IdlePod());
    IdlePodContributesNothing(moved);
    BothSelected();
    TheAssignmentIsOfThePod();
    ResolvesTo(BusyPod(), [TheAssignment()]);
    ResolvesTo(IdlePod(), []);
    ResolvesTo(moved, []);
    StartIsKept(IdlePod(), false, []);
    ResyncPublishes(IdlePod(), false, [], BusyPod());
    hide MissedThenResynced;
    var resynced := MissedThenResynced(OnePod(IdlePod(), false, []), BusyPod());
    assert !resynced.memory.Wakes(moved, []);
    EventIsIgnored(resynced, moved, [], answers);
    hide MemoryAfter;
    assert Step(resynced, PodChanged(moved, [], answers)).pods == map["u" := moved];
  }
}
