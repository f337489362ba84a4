/** What the handlers of a run write to the registry of one namespace, and what the registry then holds. */
module Publications {
  import opened Options
  import opened Assignments
  import opened Resolution
  import opened RegistryData
  import opened PodEvents
  import opened Registry

  /** The other fields of an entry: the selector, the tier, the count of matched Pods. Nothing depends on them. */
  type Details = (Policy, seq<Pod>) -> string

  function EntryOf(policy: Policy, listing: seq<Pod>, details: Details): Entry {
    Entry(Resolve(listing, policy), details(policy, listing))
  }

  function NamesOf(answers: Answers, namespace: string): set<string> {
    set k | k in answers.policies && answers.Republishes(k, namespace) :: k.name
  }

  function PutOf(answers: Answers, namespace: string, name: string, details: Details): Commit
    requires PolicyKey(namespace, name) in answers.policies
  {
    var k := PolicyKey(namespace, name);
    Put(0, name, Some(EntryOf(answers.policies[k], answers.Listing(k), details)))
  }

  /** The policies of the namespace are rewritten one after the other. */
  function PutsOf(answers: Answers, namespace: string, names: seq<string>, details: Details): seq<Commit>
    requires forall n :: n in names ==> PolicyKey(namespace, n) in answers.policies
  {
    if names == [] then []
    else PutsOf(answers, namespace, names[..|names| - 1], details) + [PutOf(answers, namespace, names[|names| - 1], details)]
  }

  function Reconciliation(answers: Answers, namespace: string, details: Details): seq<Commit> {
    PutsOf(answers, namespace, SortedKeys(NamesOf(answers, namespace)), details)
  }

  /** What the handler of one event writes, in order. */
  function WritesOf(s: State, e: Event, namespace: string, details: Details): seq<Commit> {
    match e
    case PodChanged(pod, selectors, answers) =>
      if pod.namespace == namespace && pod.uid != "" && !s.memory.Unchanged(pod) && s.memory.Wakes(pod, selectors)
      then Reconciliation(answers, namespace, details) else []
    case PodDeleted(pod, selectors, answers) =>
      if pod.namespace == namespace && pod.uid != "" && s.memory.Wakes(pod, selectors)
      then Reconciliation(answers, namespace, details) else []
    case PolicyChanged(key, policy, listing) =>
      if key.namespace == namespace then [Put(0, key.name, Some(EntryOf(policy, listing, details)))] else []
    case PolicyDeleted(key) =>
      if key.namespace == namespace then [Put(0, key.name, None)] else []
    case Resynced(key, listing) =>
      if key.namespace == namespace && key in s.policies
      then [Put(0, key.name, Some(EntryOf(s.policies[key], listing, details)))] else []
  }

  function Writes(s: State, events: seq<Event>, namespace: string, details: Details): seq<Commit> {
    if events == [] then []
    else
      var before := events[..|events| - 1];
      Writes(s, before, namespace, details) + WritesOf(Run(s, before), events[|events| - 1], namespace, details)
  }

  lemma {:induction false} PutsAreWrites(answers: Answers, namespace: string, names: seq<string>, details: Details)
    requires forall n :: n in names ==> PolicyKey(namespace, n) in answers.policies
    ensures forall i :: 0 <= i < |PutsOf(answers, namespace, names, details)| ==> PutsOf(answers, namespace, names, details)[i].Put?
  {
    if names == [] {
    } else {
      PutsAreWrites(answers, namespace, names[..|names| - 1], details);
    }
  }

  lemma {:induction false} HandlersOnlyWrite(s: State, events: seq<Event>, namespace: string, details: Details)
    ensures forall i :: 0 <= i < |Writes(s, events, namespace, details)| ==> Writes(s, events, namespace, details)[i].Put?
  {
    hide Memory.Unchanged, Memory.Wakes, PodEvents.Run, PutsOf, SortedKeys, NamesOf, EntryOf;
    if events == [] {
    } else {
      var before, e := events[..|events| - 1], events[|events| - 1];
      HandlersOnlyWrite(s, before, namespace, details);
      if e.PodChanged? || e.PodDeleted? {
        ReconciliationOnlyWrites(e.answers, namespace, details);
      }
    }
  }

  lemma ReconciliationOnlyWrites(answers: Answers, namespace: string, details: Details)
    ensures forall i :: 0 <= i < |Reconciliation(answers, namespace, details)| ==> Reconciliation(answers, namespace, details)[i].Put?
  {
    PutsAreWrites(answers, namespace, SortedKeys(NamesOf(answers, namespace)), details);
  }

  // ----- The log records the publications -----

  ghost predicate Holds(v: Option<Value>, published: map<PolicyKey, seq<Assignment>>, k: PolicyKey) {
    k in published && v.Some? && v.value.Object? && v.value.entry.assignments == published[k]
  }

  /** Under each policy's key the log has what the policy publishes, and under other keys nothing. */
  ghost predicate Recorded(log: seq<Commit>, s: State, namespace: string) {
    && (forall k :: k in s.policies && k.namespace == namespace ==> Holds(Latest(None, log, Key(k.name)), s.memory.published, k))
    && (forall key :: Latest(None, log, key).Some? ==> HasPolicy(s.policies, namespace, key))
  }

  ghost predicate HasPolicy(policies: map<PolicyKey, Policy>, namespace: string, key: string) {
    exists k :: k in policies && k.namespace == namespace && Key(k.name) == key
  }

  lemma KeyInjective(a: string, b: string)
    ensures Key(a) == Key(b) ==> a == b
  {
    assert Key(a)[..|Key(a)| - |SUFFIX|] == a;
    assert Key(b)[..|Key(b)| - |SUFFIX|] == b;
  }

  lemma LatestAfterPut(log: seq<Commit>, name: string, entry: Option<Entry>, key: string)
    ensures Latest(None, log + [Put(0, name, entry)], key) ==
            if Key(name) != key then Latest(None, log, key)
            else match entry case None => None case Some(e) => Some(Value.Object(e))
  {
    assert (log + [Put(0, name, entry)])[..|log|] == log;
  }

  lemma {:induction false} LatestAfterPuts(
      log: seq<Commit>, answers: Answers, namespace: string, names: seq<string>, details: Details, key: string)
    requires forall n :: n in names ==> PolicyKey(namespace, n) in answers.policies
    ensures var after := Latest(None, log + PutsOf(answers, namespace, names, details), key);
            && ((forall n :: n in names ==> Key(n) != key) ==> after == Latest(None, log, key))
            && (forall n :: n in names && Key(n) == key ==>
                  after == Some(Value.Object(PutOf(answers, namespace, n, details).entry.value)))
  {
    hide Latest, Answers.Listing, Key, EntryOf;
    if names == [] {
      assert log + PutsOf(answers, namespace, names, details) == log;
    } else {
      var init, last := names[..|names| - 1], names[|names| - 1];
      LatestAfterPuts(log, answers, namespace, init, details, key);
      var before := log + PutsOf(answers, namespace, init, details);
      var put := PutOf(answers, namespace, last, details);
      assert log + PutsOf(answers, namespace, names, details) == before + [put];
      LatestAfterPut(before, last, put.entry, key);
      forall n | n in names && Key(n) == key && Key(last) == key ensures n == last {
        KeyInjective(n, last);
      }
    }
  }

  lemma ReconciliationIsRecorded(log: seq<Commit>, s: State, e: Event, details: Details)
    requires PodEvents.Invariant(s) && (e.PodChanged? || e.PodDeleted?) && Possible(s, e)
    requires Recorded(log, s, e.pod.namespace)
    ensures var m := s.memory.Reconciled(e.pod.namespace, e.answers);
            forall digests: map<string, Cached> ::
              Recorded(log + Reconciliation(e.answers, e.pod.namespace, details),
                       State(PodsAfter(s, e), s.policies, m.(digests := digests)), e.pod.namespace)
  {
    hide Resolve, Lists, IsResolution, InStep, Latest, SortedKeys, Key;
    var namespace, answers := e.pod.namespace, e.answers;
    var names := SortedKeys(NamesOf(answers, namespace));
    var after := log + Reconciliation(answers, namespace, details);
    var published := s.memory.Reconciled(namespace, answers).published;
    forall k | k in s.policies && k.namespace == namespace ensures Holds(Latest(None, after, Key(k.name)), published, k) {
      assert k == PolicyKey(namespace, k.name) && k.name in NamesOf(answers, namespace);
      LatestAfterPuts(log, answers, namespace, names, details, Key(k.name));
    }
    forall key | Latest(None, after, key).Some? ensures HasPolicy(s.policies, namespace, key) {
      LatestAfterPuts(log, answers, namespace, names, details, key);
      if n :| n in names && Key(n) == key {
        assert PolicyKey(namespace, n) in s.policies;
      }
    }
  }

  lemma PodEventIsRecorded(log: seq<Commit>, s: State, e: Event, namespace: string, details: Details)
    requires PodEvents.Invariant(s) && (e.PodChanged? || e.PodDeleted?) && Possible(s, e) && Recorded(log, s, namespace)
    ensures Recorded(log + WritesOf(s, e, namespace, details), PodEvents.Step(s, e), namespace)
  {
    hide Relevant, Lists, IsResolution, Resolve, Latest, Memory.WasRelevant, Memory.Unchanged, Truthful, InStep, Reconciliation;
    assert log + [] == log;
    if e.pod.namespace == namespace {
      ReconciliationIsRecorded(log, s, e, details);
    } else {
      OtherPoliciesStay(s, e, namespace);
    }
  }

  lemma OtherPoliciesStay(s: State, e: Event, namespace: string)
    requires (e.PodChanged? || e.PodDeleted?) && e.pod.namespace != namespace
    ensures forall k :: k in s.memory.published && k.namespace == namespace ==>
              k in MemoryAfter(s, e).published && MemoryAfter(s, e).published[k] == s.memory.published[k]
  {
    hide Relevant, Resolve, Answers.Published;
  }

  lemma PolicyEventIsRecorded(log: seq<Commit>, s: State, e: Event, namespace: string, details: Details)
    requires PodEvents.Invariant(s) && !e.PodChanged? && !e.PodDeleted? && Possible(s, e) && Recorded(log, s, namespace)
    ensures Recorded(log + WritesOf(s, e, namespace, details), PodEvents.Step(s, e), namespace)
  {
    hide Lists, IsResolution, Resolve, Latest, InStep, WellKept, LiveUids, Key;
    assert log + [] == log;
    var after, s' := log + WritesOf(s, e, namespace, details), PodEvents.Step(s, e);
    if e.key.namespace == namespace && (e.Resynced? ==> e.key in s.policies) {
      var entry := WritesOf(s, e, namespace, details)[0].entry;
      forall key ensures Latest(None, after, key) ==
                         if Key(e.key.name) != key then Latest(None, log, key)
                         else match entry case None => None case Some(v) => Some(Value.Object(v))
      {
        LatestAfterPut(log, e.key.name, entry, key);
      }
      forall k | k in s'.policies && k.namespace == namespace
        ensures Holds(Latest(None, after, Key(k.name)), s'.memory.published, k)
      {
        KeyInjective(k.name, e.key.name);
      }
      forall key | Latest(None, after, key).Some? ensures HasPolicy(s'.policies, namespace, key) {
        PolicyStays(log, s, e, namespace, key);
      }
    }
  }

  lemma PolicyStays(log: seq<Commit>, s: State, e: Event, namespace: string, key: string)
    requires Recorded(log, s, namespace) && !e.PodChanged? && !e.PodDeleted? && e.key.namespace == namespace
    requires (Key(e.key.name) != key && Latest(None, log, key).Some?)
             || (Key(e.key.name) == key && (e.PolicyChanged? || (e.Resynced? && e.key in s.policies)))
    ensures HasPolicy(PoliciesAfter(s, e), namespace, key)
  {
    hide Latest, Key;
    if Key(e.key.name) == key {
      assert e.key in PoliciesAfter(s, e);
    } else {
      var k :| k in s.policies && k.namespace == namespace && Key(k.name) == key;
      assert k in PoliciesAfter(s, e);
    }
  }

  /** After every run the log of its writes has, for each policy of the namespace, what the policy then publishes. */
  lemma {:induction false} RunIsRecorded(events: seq<Event>, namespace: string, details: Details)
    requires PossibleRun(EMPTY, events)
    ensures Recorded(Writes(EMPTY, events, namespace, details), PodEvents.Run(EMPTY, events), namespace)
  {
    hide Recorded, PodEvents.Step, WritesOf, Possible;
    if events == [] {
      NothingIsRecorded(namespace);
    } else {
      var before := events[..|events| - 1];
      RunIsRecorded(before, namespace, details);
      PodEvents.RunKeepsInvariant(before);
      var log, s, e := Writes(EMPTY, before, namespace, details), PodEvents.Run(EMPTY, before), events[|events| - 1];
      if e.PodChanged? || e.PodDeleted? {
        PodEventIsRecorded(log, s, e, namespace, details);
      } else {
        PolicyEventIsRecorded(log, s, e, namespace, details);
      }
    }
  }

  lemma NothingIsRecorded(namespace: string)
    ensures Recorded([], EMPTY, namespace)
  {
  }

  // ----- The registry that the log leaves -----

  lemma {:induction false} SameWritesSameLatest(log: seq<Commit>, log': seq<Commit>, key: string)
    requires SameWrites(log, log')
    ensures Latest(None, log, key) == Latest(None, log', key)
  {
    hide Key;
    if log == [] {
    } else {
      SameWritesSameLatest(log[..|log| - 1], log'[..|log'| - 1], key);
    }
  }

  /** The registry holds each policy's published assignments under the policy's key, and no other policy entries. */
  ghost predicate Registered(data: Data, s: State, namespace: string) {
    && (forall k :: k in s.policies && k.namespace == namespace ==>
          && k in s.memory.published && Key(k.name) in data && data[Key(k.name)].Object?
          && data[Key(k.name)].entry.assignments == s.memory.published[k])
    && (forall key :: key in data && IsPolicyKey(key) ==> HasPolicy(s.policies, namespace, key))
  }

  /** No policy of the namespace has the name whose key is the aggregate's. */
  ghost predicate NoReservedName(s: State, namespace: string) {
    forall k :: k in s.policies && k.namespace == namespace ==> Key(k.name) != AGGREGATE_KEY
  }

  /** A registry whose concurrent writers wrote what the run's handlers wrote holds what the policies publish, or does not
      exist when there are none. */
  lemma RegistryHoldsPublications(
      events: seq<Event>, namespace: string, details: Details, start: System, actions: seq<Action>, end: System)
    requires PossibleRun(EMPTY, events) && NoReservedName(PodEvents.Run(EMPTY, events), namespace)
    requires Start(start) && start.store.current == None && Reaches(start, actions, end)
    requires SameWrites(end.log, Writes(EMPTY, events, namespace, details))
    ensures var s := PodEvents.Run(EMPTY, events);
            match end.store.current
            case None => forall k :: k in s.policies ==> k.namespace != namespace
            case Some(cm) => Consistent(cm.data) && Registered(cm.data, s, namespace)
  {
    hide PossibleRun, PodEvents.Run, Writes, Reaches, Latest, Consistent, Replay, Start, Key, IsPolicyKey;
    var s, log := PodEvents.Run(EMPTY, events), Writes(EMPTY, events, namespace, details);
    RunIsRecorded(events, namespace, details);
    StartedEmpty(start);
    RegistryIsLinearizable(start, actions, end);
    AggregateIsAlwaysTrue(start, actions, end);
    forall key ensures Latest(None, end.log, key) == Latest(None, log, key) {
      SameWritesSameLatest(end.log, log, key);
    }
    match end.store.current {
      case None =>
        OnlyWritesNoRegistry(end.log);
      case Some(cm) =>
        forall key | key != AGGREGATE_KEY
          ensures key in cm.data <==> Latest(None, log, key).Some?
          ensures key in cm.data ==> Latest(None, log, key) == Some(cm.data[key])
        {
          LatestWriteWins(start, actions, end, key);
        }
        AggregateIsNoPolicyKey();
    }
  }

  lemma AggregateIsNoPolicyKey()
    ensures !IsPolicyKey(AGGREGATE_KEY)
  {
  }

  lemma StartedEmpty(start: System)
    requires Start(start) && start.store.current == None
    ensures start.initial == None
  {
  }

  lemma OnlyWritesNoRegistry(log: seq<Commit>)
    requires Replay(None, log) == None && forall i :: 0 <= i < |log| ==> log[i].Put?
    ensures log == [] && forall key :: Latest(None, log, key) == None
  {
    hide Rewritten;
  }
}
