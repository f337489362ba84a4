/** Pod and policy events: a digest cache decides which of them re-resolve the policies of a namespace. */
module PodEvents {
  import opened Options
  import opened Assignments
  import opened Resolution

  datatype PolicyKey = PolicyKey(namespace: string, name: string)

  /** The fields of a Pod that an assignment depends on. */
  datatype Digest = Digest(annotation: Option<string>, labels: map<string, string>, node: Option<string>)

  datatype Cached = Cached(digest: Digest, relevant: bool, namespace: string)

  function DigestOf(pod: Pod): Digest {
    Digest(pod.annotation, pod.labels, pod.node)
  }

  /** `selectors` is whatever the time-limited selector cache answers. */
  predicate Relevant(pod: Pod, selectors: seq<map<string, string>>) {
    pod.annotation.Some? || (pod.labels != map[] && exists s :: s in selectors && Matches(pod.labels, s))
  }

  /** What a handler is told when it asks the API server: the namespace's policies and each one's Pods. */
  datatype Answers = Answers(policies: map<PolicyKey, Policy>, listings: map<PolicyKey, seq<Pod>>) {
    function Listing(k: PolicyKey): seq<Pod> {
      if k in listings then listings[k] else []
    }

    predicate Republishes(k: PolicyKey, namespace: string) {
      k in policies && k.namespace == namespace && k.name != ""
    }

    function Published(k: PolicyKey): seq<Assignment>
      requires k in policies
    {
      Resolve(Listing(k), policies[k])
    }
  }

  datatype Memory = Memory(digests: map<string, Cached>, published: map<PolicyKey, seq<Assignment>>) {
    function Reconciled(namespace: string, answers: Answers): Memory {
      this.(published :=
        map k | k in published.Keys + answers.policies.Keys && (k in published || answers.Republishes(k, namespace)) ::
          if answers.Republishes(k, namespace) then answers.Published(k) else published[k])
    }

    predicate WasRelevant(uid: string) {
      uid in digests && digests[uid].relevant
    }

    predicate Unchanged(pod: Pod) {
      pod.uid in digests && digests[pod.uid].digest == DigestOf(pod)
    }

    predicate Wakes(pod: Pod, selectors: seq<map<string, string>>) {
      Relevant(pod, selectors) || WasRelevant(pod.uid)
    }

    /** A Pod was added, modified, or listed when the watch began. */
    function AfterChange(pod: Pod, selectors: seq<map<string, string>>, answers: Answers): Memory {
      if pod.uid == "" || pod.namespace == "" || Unchanged(pod) then this
      else
        var m := if Wakes(pod, selectors) then Reconciled(pod.namespace, answers) else this;
        m.(digests := digests[pod.uid := Cached(DigestOf(pod), Relevant(pod, selectors), pod.namespace)])
    }

    /** A Pod was deleted; `pod` is the last body the watch delivers. */
    function AfterDelete(pod: Pod, selectors: seq<map<string, string>>, answers: Answers): Memory {
      if pod.uid == "" || pod.namespace == "" then this
      else
        var m := if Wakes(pod, selectors) then Reconciled(pod.namespace, answers) else this;
        m.(digests := digests - {pod.uid})
    }

    /** Forgets the namespace's Pods that are not among `live`. */
    function Pruned(namespace: string, live: set<string>): Memory {
      this.(digests := map u | u in digests && (digests[u].namespace != namespace || u in live) :: digests[u])
    }
  }

  /** The named policies among `done` have been resolved, and nothing else has changed. */
  ghost predicate ReconciledSoFar(
      before: map<PolicyKey, seq<Assignment>>, now: map<PolicyKey, seq<Assignment>>, answers: Answers, done: seq<PolicyKey>)
    requires forall k :: k in done ==> k in answers.policies
  {
    && (forall k :: k in now <==> k in before || (k in done && k.name != ""))
    && (forall k :: k in now ==> now[k] == if k in done && k.name != "" then answers.Published(k) else before[k])
  }

  lemma NothingReconciled(before: map<PolicyKey, seq<Assignment>>, answers: Answers)
    ensures ReconciledSoFar(before, before, answers, [])
  {
  }

  lemma OneReconciled(
      before: map<PolicyKey, seq<Assignment>>, now: map<PolicyKey, seq<Assignment>>, answers: Answers,
      done: seq<PolicyKey>, key: PolicyKey)
    requires (forall k :: k in done ==> k in answers.policies) && key in answers.policies
    requires ReconciledSoFar(before, now, answers, done)
    ensures var after := now[key := Resolve(answers.Listing(key), answers.policies[key])];
            ReconciledSoFar(before, if key.name != "" then after else now, answers, done + [key])
  {
    hide Resolve, Answers.Listing;
  }

  lemma AllReconciled(
      before: Memory, now: map<PolicyKey, seq<Assignment>>, namespace: string, answers: Answers, listed: seq<PolicyKey>)
    requires forall k :: k in listed <==> k in answers.policies && k.namespace == namespace
    requires ReconciledSoFar(before.published, now, answers, listed)
    ensures now == before.Reconciled(namespace, answers).published
  {
    hide Answers.Published;
    var expected := before.Reconciled(namespace, answers).published;
    assert forall k :: k in now <==> k in expected;
    assert forall k :: k in expected ==> now[k] == expected[k];
  }

  class PodEventHandler {
    var digests: map<string, Cached>
    var published: map<PolicyKey, seq<Assignment>>

    ghost function Contents(): Memory
      reads this
    {
      Memory(digests, published)
    }

    constructor ()
      ensures Contents() == Memory(map[], map[])
    {
      digests, published := map[], map[];
    }

    /** Resolves one policy and publishes the result; also what a created or updated policy asks for. */
    method ReconcilePolicy(key: PolicyKey, policy: Policy, listing: seq<Pod>)
      modifies this`published
      ensures published == old(published)[key := Resolve(listing, policy)]
    {
      var assignments := ResolvedAssignments(listing, policy);
      published := published[key := assignments];
    }

    method OnPolicyDelete(key: PolicyKey)
      modifies this`published
      ensures published == old(published) - {key}
    {
      published := published - {key};
    }

    /** The periodic repair of one policy. */
    method Resync(key: PolicyKey, policy: Policy, listing: seq<Pod>, live: set<string>)
      modifies this
      ensures Contents() == old(Contents()).(published := old(published)[key := Resolve(listing, policy)])
                            .Pruned(key.namespace, live)
    {
      ReconcilePolicy(key, policy, listing);
      PruneDigests(key.namespace, live);
    }

    method ReconcileNamespace(namespace: string, answers: Answers, listed: seq<PolicyKey>)
      requires forall k :: k in listed <==> k in answers.policies && k.namespace == namespace
      modifies this`published
      ensures Contents() == old(Contents()).Reconciled(namespace, answers)
    {
      hide ReconciledSoFar, Resolve;
      ghost var before := published;
      NothingReconciled(before, answers);
      for i := 0 to |listed|
        invariant ReconciledSoFar(before, published, answers, listed[..i])
      {
        var key := listed[i];
        assert key in listed;
        assert listed[..i + 1] == listed[..i] + [key];
        OneReconciled(before, published, answers, listed[..i], key);
        if key.name != "" {
          ReconcilePolicy(key, answers.policies[key], answers.Listing(key));
        }
      }
      assert listed[..|listed|] == listed;
      AllReconciled(old(Contents()), published, namespace, answers, listed);
    }

    method OnPodEvent(deleted: bool, pod: Pod, selectors: seq<map<string, string>>, answers: Answers,
        listed: seq<PolicyKey>)
      requires forall k :: k in listed <==> k in answers.policies && k.namespace == pod.namespace
      modifies this
      ensures Contents() == if deleted then old(Contents()).AfterDelete(pod, selectors, answers)
                            else old(Contents()).AfterChange(pod, selectors, answers)
    {
      hide Memory.Reconciled, Matches;
      if pod.uid == "" || pod.namespace == "" {
        return;
      }
      var known := pod.uid in digests;
      if deleted {
        if Relevant(pod, selectors) || (known && digests[pod.uid].relevant) {
          ReconcileNamespace(pod.namespace, answers, listed);
        }
        digests := digests - {pod.uid};
        return;
      }
      if known && digests[pod.uid].digest == DigestOf(pod) {
        return;
      }
      var relevant := Relevant(pod, selectors);
      if relevant || (known && digests[pod.uid].relevant) {
        ReconcileNamespace(pod.namespace, answers, listed);
      }
      digests := digests[pod.uid := Cached(DigestOf(pod), relevant, pod.namespace)];
    }

    method PruneDigests(namespace: string, live: set<string>)
      modifies this`digests
      ensures Contents() == old(Contents()).Pruned(namespace, live)
      ensures forall u :: u in digests <==> u in old(digests) && (old(digests)[u].namespace == namespace ==> u in live)
      ensures forall u :: u in digests ==> digests[u] == old(digests)[u]
    {
      var stale := set u | u in digests && digests[u].namespace == namespace && u !in live;
      digests := digests - stale;
      assert digests == old(Contents()).Pruned(namespace, live).digests;
    }
  }

  // ----- The cluster and its runs -----

  datatype State = State(pods: map<string, Pod>, policies: map<PolicyKey, Policy>, memory: Memory)

  const EMPTY := State(map[], map[], Memory(map[], map[]))

  /** A change of the cluster together with what the handler it starts is told. */
  datatype Event =
    | PodChanged(pod: Pod, selectors: seq<map<string, string>>, answers: Answers)
    | PodDeleted(pod: Pod, selectors: seq<map<string, string>>, answers: Answers)
    | PolicyChanged(key: PolicyKey, policy: Policy, listing: seq<Pod>)
    | PolicyDeleted(key: PolicyKey)
    | Resynced(key: PolicyKey, listing: seq<Pod>)

  function PodsAfter(s: State, e: Event): map<string, Pod> {
    match e
    case PodChanged(pod, _, _) => s.pods[pod.uid := pod]
    case PodDeleted(pod, _, _) => s.pods - {pod.uid}
    case _ => s.pods
  }

  function PoliciesAfter(s: State, e: Event): map<PolicyKey, Policy> {
    match e
    case PolicyChanged(key, policy, _) => s.policies[key := policy]
    case PolicyDeleted(key) => s.policies - {key}
    case _ => s.policies
  }

  function LiveUids(pods: map<string, Pod>, namespace: string): set<string> {
    set u | u in pods && pods[u].namespace == namespace && u != ""
  }

  function MemoryAfter(s: State, e: Event): Memory {
    var m := s.memory;
    match e
    case PodChanged(pod, selectors, answers) => m.AfterChange(pod, selectors, answers)
    case PodDeleted(pod, selectors, answers) => m.AfterDelete(pod, selectors, answers)
    case PolicyChanged(key, policy, listing) => m.(published := m.published[key := Resolve(listing, policy)])
    case PolicyDeleted(key) => m.(published := m.published - {key})
    case Resynced(key, listing) =>
      if key !in s.policies then m
      else
        m.(published := m.published[key := Resolve(listing, s.policies[key])])
        .Pruned(key.namespace, LiveUids(s.pods, key.namespace))
  }

  function Step(s: State, e: Event): State {
    State(PodsAfter(s, e), PoliciesAfter(s, e), MemoryAfter(s, e))
  }

  /** The answers describe the cluster as the event leaves it. Nothing is asked of the selectors. */
  ghost predicate Truthful(answers: Answers, s: State, pods: map<string, Pod>, namespace: string) {
    && (forall k :: k in answers.policies ==> k.namespace == namespace)
    && (forall k :: k in s.policies && k.namespace == namespace ==>
                    k in answers.policies && answers.policies[k] == s.policies[k])
    && (forall k :: k in answers.policies ==>
                    k in s.policies && Lists(answers.Listing(k), pods, s.policies[k]))
  }

  /** What the API server guarantees of an event: a UID names one Pod of one namespace, and policies have names. */
  ghost predicate Possible(s: State, e: Event) {
    match e
    case PodChanged(pod, _, answers) =>
      && pod.namespace != "" && (pod.uid in s.pods ==> s.pods[pod.uid].namespace == pod.namespace)
      && Truthful(answers, s, PodsAfter(s, e), pod.namespace)
    case PodDeleted(pod, _, answers) =>
      && pod.namespace != "" && (pod.uid in s.pods ==> s.pods[pod.uid].namespace == pod.namespace)
      && Truthful(answers, s, PodsAfter(s, e), pod.namespace)
    case PolicyChanged(key, policy, listing) =>
      key.name != "" && policy.namespace == key.namespace && Lists(listing, s.pods, policy)
    case PolicyDeleted(_) => true
    case Resynced(key, listing) => key in s.policies ==> Lists(listing, s.pods, s.policies[key])
  }

  lemma {:induction false} SomeListing(pods: map<string, Pod>, uids: set<string>, policy: Policy) returns (listing: seq<Pod>)
    requires KeyedByUid(pods) && uids <= pods.Keys
    ensures forall i, j :: 0 <= i < j < |listing| ==> listing[i].uid != listing[j].uid
    ensures forall p :: p in listing <==> p.uid in uids && pods[p.uid] == p && Selected(p, policy)
    decreases |uids|
  {
    hide Selected;
    if uids == {} {
      listing := [];
    } else {
      var u :| u in uids;
      listing := SomeListing(pods, uids - {u}, policy);
      if Selected(pods[u], policy) {
        listing := listing + [pods[u]];
      }
    }
  }

  ghost function ListingOf(pods: map<string, Pod>, policy: Policy): (listing: seq<Pod>)
    requires KeyedByUid(pods)
    ensures Lists(listing, pods, policy)
  {
    assert exists l :: Lists(l, pods, policy) by {
      var l := SomeListing(pods, pods.Keys, policy);
      assert Lists(l, pods, policy);
    }
    var listing :| Lists(listing, pods, policy);
    listing
  }

  /** Whatever the cluster looks like, there are answers that describe it. */
  lemma TruthExists(s: State, pods: map<string, Pod>, namespace: string)
    requires KeyedByUid(pods)
    ensures exists answers :: Truthful(answers, s, pods, namespace)
  {
    hide Lists;
    var policies := map k | k in s.policies && k.namespace == namespace :: s.policies[k];
    var answers := Answers(policies, map k | k in policies :: ListingOf(pods, policies[k]));
    assert Truthful(answers, s, pods, namespace);
  }

  function Run(s: State, events: seq<Event>): State {
    if events == [] then s else Step(Run(s, events[..|events| - 1]), events[|events| - 1])
  }

  ghost predicate PossibleRun(s: State, events: seq<Event>) {
    events == [] ||
    (PossibleRun(s, events[..|events| - 1]) && Possible(Run(s, events[..|events| - 1]), events[|events| - 1]))
  }

  // ----- The invariant -----

  ghost predicate WellKept(s: State) {
    && KeyedByUid(s.pods)
    && (forall u :: u in s.pods ==> s.pods[u].namespace != "")
    && (forall k :: k in s.policies ==> k.name != "" && s.policies[k].namespace == k.namespace)
  }

  /** The cache holds the current digest of every Pod and no other, and an annotated Pod counts as relevant. */
  ghost predicate InStep(pods: map<string, Pod>, digests: map<string, Cached>) {
    && (forall u :: u in digests <==> u in pods && u != "")
    && (forall u :: u in digests ==> digests[u].digest == DigestOf(pods[u]) && digests[u].namespace == pods[u].namespace)
    && (forall u :: u in digests && digests[u].digest.annotation.Some? ==> digests[u].relevant)
  }

  ghost predicate UpToDate(s: State) {
    && s.memory.published.Keys == s.policies.Keys
    && forall k :: k in s.policies ==> IsResolution(s.memory.published[k], s.pods, s.policies[k])
  }

  ghost predicate Invariant(s: State) {
    WellKept(s) && InStep(s.pods, s.memory.digests) && UpToDate(s)
  }

  // ----- Preservation -----

  /** A Pod whose digest stays the same goes on contributing the same to every policy. */
  lemma SameDigestSameAssignments(p: Pod, q: Pod, policy: Policy)
    requires p.uid == q.uid && p.namespace == q.namespace && DigestOf(p) == DigestOf(q)
    ensures Contribution(p, policy) == Contribution(q, policy) && (Selected(p, policy) <==> Selected(q, policy))
  {
    hide Matches;
    hide Advertised;
    if Placed(p) && Advertised(p.annotation).Some? {
      SameAssignAll(p, q, policy, Advertised(p.annotation).value);
    }
  }

  lemma {:induction false} SameAssignAll(p: Pod, q: Pod, policy: Policy, gpus: seq<nat>)
    requires p.uid == q.uid && p.node == q.node
    ensures AssignAll(p, policy, gpus) == AssignAll(q, policy, gpus)
  {
    if gpus == [] {
    } else {
      SameAssignAll(p, q, policy, gpus[..|gpus| - 1]);
    }
  }

  /** Pods differ at `u` only, and what they contribute there is the same. */
  ghost predicate SameContribution(pods: map<string, Pod>, pods': map<string, Pod>, u: string, policy: Policy) {
    && (forall v :: v != u ==> (v in pods <==> v in pods') && (v in pods ==> pods[v] == pods'[v]))
    && (forall a: Assignment :: a.podUid == u ==> (Assigned(a, pods, policy) <==> Assigned(a, pods', policy)))
  }

  lemma Unaffected(list: seq<Assignment>, pods: map<string, Pod>, pods': map<string, Pod>, u: string, policy: Policy)
    requires IsResolution(list, pods, policy) && SameContribution(pods, pods', u, policy)
    ensures IsResolution(list, pods', policy)
  {
    hide Contribution, Selected, StrictlySorted;
    forall a ensures a in list <==> Assigned(a, pods', policy) {
    }
  }

  lemma AnnotatedIsRelevant(pod: Pod, selectors: seq<map<string, string>>)
    ensures pod.annotation.Some? ==> Relevant(pod, selectors)
  {
  }

  lemma Unannotated(pod: Pod, policy: Policy)
    ensures pod.annotation == None || pod.uid == "" ==> Contribution(pod, policy) == []
  {
  }

  /** An event whose digest is the cached one changes no policy's assignments. */
  lemma UnchangedIsHarmless(s: State, pod: Pod, policy: Policy)
    requires Invariant(s) && pod.uid in s.pods && s.pods[pod.uid].namespace == pod.namespace
    requires s.memory.Unchanged(pod)
    ensures SameContribution(s.pods, s.pods[pod.uid := pod], pod.uid, policy)
  {
    hide Selected, UpToDate, Contribution;
    SameDigestSameAssignments(s.pods[pod.uid], pod, policy);
  }

  /** Neither does one that concerns no annotated Pod, before or after. */
  lemma UnannotatedIsHarmless(pods: map<string, Pod>, pods': map<string, Pod>, u: string, policy: Policy)
    requires forall v :: v != u ==> (v in pods <==> v in pods') && (v in pods ==> pods[v] == pods'[v])
    requires u in pods ==> pods[u].annotation == None || pods[u].uid == ""
    requires u in pods' ==> pods'[u].annotation == None || pods'[u].uid == ""
    ensures SameContribution(pods, pods', u, policy)
  {
    hide Selected, Contribution;
    if u in pods {
      Unannotated(pods[u], policy);
    }
    if u in pods' {
      Unannotated(pods'[u], policy);
    }
  }

  /** An event no one re-resolves for leaves every published list what it should be. */
  lemma QuietEventIsHarmless(s: State, e: Event, k: PolicyKey)
    requires Invariant(s) && (e.PodChanged? || e.PodDeleted?) && Possible(s, e) && k in s.policies
    requires e.pod.uid == "" || (e.PodChanged? && s.memory.Unchanged(e.pod)) || !s.memory.Wakes(e.pod, e.selectors)
    ensures IsResolution(s.memory.published[k], PodsAfter(s, e), s.policies[k])
  {
    hide Selected, Lists, IsResolution, Contribution, Relevant, SameContribution, Truthful;
    var u := e.pod.uid;
    if e.PodChanged? && u != "" && s.memory.Unchanged(e.pod) {
      UnchangedIsHarmless(s, e.pod, s.policies[k]);
    } else {
      AnnotatedIsRelevant(e.pod, e.selectors);
      UnannotatedIsHarmless(s.pods, PodsAfter(s, e), u, s.policies[k]);
    }
    Unaffected(s.memory.published[k], s.pods, PodsAfter(s, e), u, s.policies[k]);
  }

  /** Pods of one namespace never show up in another's resolutions. */
  lemma OtherNamespaceUnaffected(s: State, e: Event, k: PolicyKey)
    requires Invariant(s) && (e.PodChanged? || e.PodDeleted?) && Possible(s, e) && k in s.policies
    requires k.namespace != e.pod.namespace
    ensures IsResolution(s.memory.published[k], PodsAfter(s, e), s.policies[k])
  {
    hide Lists, IsResolution, Contribution, Matches, InStep, Truthful;
    Unaffected(s.memory.published[k], s.pods, PodsAfter(s, e), e.pod.uid, s.policies[k]);
  }

  lemma DigestsAfterPodEvent(m: Memory, pod: Pod, selectors: seq<map<string, string>>, answers: Answers)
    requires pod.namespace != ""
    ensures m.AfterChange(pod, selectors, answers).digests ==
            if pod.uid == "" || m.Unchanged(pod) then m.digests
            else m.digests[pod.uid := Cached(DigestOf(pod), Relevant(pod, selectors), pod.namespace)]
    ensures m.AfterDelete(pod, selectors, answers).digests == m.digests - (if pod.uid == "" then {} else {pod.uid})
  {
    hide Relevant;
    assert m.Reconciled(pod.namespace, answers).digests == m.digests;
  }

  lemma CachingKeepsInStep(pods: map<string, Pod>, digests: map<string, Cached>, pod: Pod, relevant: bool)
    requires InStep(pods, digests) && pod.uid != "" && (pod.annotation.Some? ==> relevant)
    ensures InStep(pods[pod.uid := pod], digests[pod.uid := Cached(DigestOf(pod), relevant, pod.namespace)])
  {
  }

  lemma UncachingKeepsInStep(pods: map<string, Pod>, digests: map<string, Cached>, uid: string)
    requires InStep(pods, digests)
    ensures InStep(pods - {uid}, digests - (if uid == "" then {} else {uid}))
  {
  }

  lemma SameDigestKeepsInStep(pods: map<string, Pod>, digests: map<string, Cached>, pod: Pod)
    requires InStep(pods, digests) && (pod.uid in pods ==> pods[pod.uid].namespace == pod.namespace)
    requires pod.uid == "" || (pod.uid in digests && digests[pod.uid].digest == DigestOf(pod))
    ensures InStep(pods[pod.uid := pod], digests)
  {
  }

  lemma PodEventKeepsDigests(s: State, e: Event)
    requires Invariant(s) && (e.PodChanged? || e.PodDeleted?) && Possible(s, e)
    ensures InStep(PodsAfter(s, e), MemoryAfter(s, e).digests)
  {
    hide Relevant, Truthful, UpToDate, WellKept, InStep, DigestOf, Memory.AfterChange, Memory.AfterDelete;
    DigestsAfterPodEvent(s.memory, e.pod, e.selectors, e.answers);
    if e.PodDeleted? {
      UncachingKeepsInStep(s.pods, s.memory.digests, e.pod.uid);
    } else if e.pod.uid == "" || s.memory.Unchanged(e.pod) {
      SameDigestKeepsInStep(s.pods, s.memory.digests, e.pod);
    } else {
      AnnotatedIsRelevant(e.pod, e.selectors);
      CachingKeepsInStep(s.pods, s.memory.digests, e.pod, Relevant(e.pod, e.selectors));
    }
  }

  lemma PodEventKeepsPublished(s: State, e: Event)
    requires Invariant(s) && (e.PodChanged? || e.PodDeleted?) && Possible(s, e)
    ensures UpToDate(Step(s, e))
  {
    hide Relevant, Lists, IsResolution, Resolve, Memory.WasRelevant;
    var s' := Step(s, e);
    forall k | k in s.policies
      ensures k in s'.memory.published && IsResolution(s'.memory.published[k], s'.pods, s.policies[k])
    {
      if k.namespace != e.pod.namespace {
        OtherNamespaceUnaffected(s, e, k);
      } else if e.pod.uid == "" || (e.PodChanged? && s.memory.Unchanged(e.pod)) || !s.memory.Wakes(e.pod, e.selectors) {
        QuietEventIsHarmless(s, e, k);
      } else {
        ResolveIsResolution(e.answers.Listing(k), s'.pods, s.policies[k]);
      }
    }
  }

  lemma StepKeepsWellKept(s: State, e: Event)
    requires WellKept(s) && Possible(s, e)
    ensures WellKept(Step(s, e))
  {
    hide Lists, Resolve, Truthful, MemoryAfter;
  }

  lemma PolicyEventKeepsUpToDate(s: State, e: Event)
    requires Invariant(s) && !e.PodChanged? && !e.PodDeleted? && Possible(s, e)
    ensures UpToDate(Step(s, e))
  {
    hide Lists, IsResolution, Resolve, InStep;
    match e {
      case PolicyChanged(_, policy, listing) =>
        ResolveIsResolution(listing, s.pods, policy);
      case PolicyDeleted(_) =>
      case Resynced(key, listing) =>
        if key in s.policies {
          ResolveIsResolution(listing, s.pods, s.policies[key]);
        }
    }
  }

  lemma PolicyEventKeepsDigests(s: State, e: Event)
    requires Invariant(s) && !e.PodChanged? && !e.PodDeleted?
    ensures InStep(s.pods, MemoryAfter(s, e).digests)
  {
    hide UpToDate, Resolve;
    if e.Resynced? && e.key in s.policies {
      assert MemoryAfter(s, e).digests == s.memory.digests;
    }
  }

  lemma PolicyEventKeepsPods(s: State, e: Event)
    requires !e.PodChanged? && !e.PodDeleted?
    ensures PodsAfter(s, e) == s.pods
  {
  }

  lemma StepKeepsInvariant(s: State, e: Event)
    requires Invariant(s) && Possible(s, e)
    ensures Invariant(Step(s, e))
  {
    hide UpToDate, InStep, WellKept, MemoryAfter, Possible, PodsAfter, PoliciesAfter;
    StepKeepsWellKept(s, e);
    if e.PodChanged? || e.PodDeleted? {
      PodEventKeepsDigests(s, e);
      PodEventKeepsPublished(s, e);
    } else {
      PolicyEventKeepsDigests(s, e);
      PolicyEventKeepsUpToDate(s, e);
      PolicyEventKeepsPods(s, e);
    }
  }

  lemma {:induction false} RunKeepsInvariant(events: seq<Event>)
    requires PossibleRun(EMPTY, events)
    ensures Invariant(Run(EMPTY, events))
  {
    if events == [] {
    } else {
      var before := events[..|events| - 1];
      RunKeepsInvariant(before);
      StepKeepsInvariant(Run(EMPTY, before), events[|events| - 1]);
    }
  }

  /**
   * After every run that starts with no Pods, each policy's published assignments are what resolving it afresh
   * would give, although most events were answered from the digest cache and the selector cache said anything.
   */
  lemma EventFilterIsSound(events: seq<Event>, k: PolicyKey, listing: seq<Pod>)
    requires PossibleRun(EMPTY, events)
    requires k in Run(EMPTY, events).policies
    requires Lists(listing, Run(EMPTY, events).pods, Run(EMPTY, events).policies[k])
    ensures k in Run(EMPTY, events).memory.published
    ensures Run(EMPTY, events).memory.published[k] == Resolve(listing, Run(EMPTY, events).policies[k])
  {
    hide Lists, IsResolution, Resolve;
    RunKeepsInvariant(events);
    var s := Run(EMPTY, events);
    ResolveIsResolution(listing, s.pods, s.policies[k]);
    ResolutionUnique(s.memory.published[k], Resolve(listing, s.policies[k]), s.pods, s.policies[k]);
  }

  /** Nothing stays published for a policy that is gone. */
  lemma NoOrphans(events: seq<Event>)
    requires PossibleRun(EMPTY, events)
    ensures Run(EMPTY, events).memory.published.Keys == Run(EMPTY, events).policies.Keys
  {
    RunKeepsInvariant(events);
  }

  // ----- Missed events -----

  /** Whatever went wrong before, re-resolving a policy publishes what it should. */
  lemma ResyncRepairs(s: State, key: PolicyKey, listing: seq<Pod>)
    requires KeyedByUid(s.pods) && key in s.policies && Possible(s, Resynced(key, listing))
    ensures key in Step(s, Resynced(key, listing)).memory.published
    ensures IsResolution(Step(s, Resynced(key, listing)).memory.published[key], s.pods, s.policies[key])
  {
    hide Lists, IsResolution, Resolve;
    ResolveIsResolution(listing, s.pods, s.policies[key]);
  }

  /** Whatever deletions were missed, a resync leaves no digest of a Pod that is gone from the namespace, and every other
      digest as it was. */
  lemma ResyncForgetsGone(s: State, key: PolicyKey, listing: seq<Pod>, u: string)
    requires key in s.policies
    ensures var after := Step(s, Resynced(key, listing)).memory.digests;
            && (u in after ==> u in s.memory.digests && after[u] == s.memory.digests[u])
            && (u in s.memory.digests ==>
                  (u in after <==> s.memory.digests[u].namespace != key.namespace
                                   || (u != "" && u in s.pods && s.pods[u].namespace == key.namespace)))
  {
    hide Resolve;
  }

  /** Events of Pods without identity or namespace do nothing, and a policy without a name is never published. */
  lemma BlankIsIgnored(m: Memory, pod: Pod, selectors: seq<map<string, string>>, answers: Answers, k: PolicyKey)
    ensures pod.uid == "" || pod.namespace == "" ==>
              m.AfterChange(pod, selectors, answers) == m == m.AfterDelete(pod, selectors, answers)
    ensures k.name == "" && k !in m.published ==>
              k !in m.AfterChange(pod, selectors, answers).published && k !in m.AfterDelete(pod, selectors, answers).published
  {
    hide Relevant, Answers.Published;
  }

  /**
   * The repair does not reach the digest cache: when a change of a Pod was missed, the policy re-resolved, and the
   * Pod then changes back, the last event is taken for old news and the published list is wrong again.
   */
  lemma RevertAfterMissedChangeIsIgnored(
      s: State, missed: Pod, key: PolicyKey, listing: seq<Pod>, a: Assignment,
      selectors: seq<map<string, string>>, answers: Answers)
    requires Invariant(s) && missed.uid != "" && missed.uid in s.pods && key in s.policies
    requires s.pods[missed.uid].namespace == missed.namespace
    requires Lists(listing, s.pods[missed.uid := missed], s.policies[key])
    requires Assigned(a, s.pods, s.policies[key]) <==> !Assigned(a, s.pods[missed.uid := missed], s.policies[key])
    ensures var resynced := Step(s.(pods := s.pods[missed.uid := missed]), Resynced(key, listing));
            var reverted := Step(resynced, PodChanged(s.pods[missed.uid], selectors, answers));
            && reverted.pods == s.pods && key in reverted.memory.published
            && !IsResolution(reverted.memory.published[key], reverted.pods, reverted.policies[key])
  {
    hide Lists, Assigned, Resolve, StrictlySorted;
    var pod := s.pods[missed.uid];
    var changed := s.(pods := s.pods[missed.uid := missed]);
    ResolveIsResolution(listing, changed.pods, s.policies[key]);
    var resynced := Step(changed, Resynced(key, listing));
    assert missed.uid in resynced.memory.digests;
    var reverted := Step(resynced, PodChanged(pod, selectors, answers));
    assert reverted.memory == resynced.memory;
    assert reverted.pods == s.pods;
  }
}
