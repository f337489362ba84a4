/** The contents of the shared registry: one entry per policy and, beside them, the aggregate of their assignments. */
module RegistryData {
  import opened Options
  import opened Assignments

  /** A policy's entry, or the aggregate. `details` stands for every other field and for the text's layout. */
  datatype Entry = Entry(assignments: seq<Assignment>, details: string)

  /** The value of one key: a JSON object, text that is not JSON, or JSON that is not an object. */
  datatype Value = Object(entry: Entry) | NotJson(text: string) | NotObject(text: string)

  type Data = map<string, Value>

  const AGGREGATE_KEY := "resolved-assignments.json"
  const SUFFIX := ".json"

  function Key(policy: string): string {
    policy + SUFFIX
  }

  predicate EndsWithSuffix(key: string) {
    |key| >= |SUFFIX| && key[|key| - |SUFFIX|..] == SUFFIX
  }

  predicate IsPolicyKey(key: string) {
    key != AGGREGATE_KEY && EndsWithSuffix(key)
  }

  /** A policy's key is its name with the suffix; every such key counts, except the aggregate's. */
  lemma KeysExactly(key: string)
    ensures IsPolicyKey(key) <==> key != "resolved-assignments.json" && exists policy :: key == policy + ".json"
    ensures Key("resolved-assignments") == AGGREGATE_KEY
  {
    if EndsWithSuffix(key) {
      assert key == key[..|key| - |SUFFIX|] + SUFFIX;
    }
    if policy :| key == policy + ".json" {
      assert key[|key| - |SUFFIX|..] == SUFFIX;
    }
  }

  // ----- Keys in order -----

  predicate IsGreatest(m: string, s: set<string>) {
    m in s && forall x :: x in s ==> StrLe(x, m)
  }

  lemma {:induction false} GreatestExists(s: set<string>)
    requires s != {}
    ensures exists m :: IsGreatest(m, s)
    decreases |s|
  {
    hide StrLe;
    var x :| x in s;
    StrTotal(x, x);
    if s == {x} {
      assert IsGreatest(x, s);
    } else {
      var rest := s - {x};
      assert rest != {};
      GreatestExists(rest);
      var m :| IsGreatest(m, rest);
      StrTotal(x, m);
      if StrLe(x, m) {
        assert IsGreatest(m, s);
      } else {
        forall y | y in rest ensures StrLe(y, x) {
          StrTransitive(y, m, x);
        }
        assert IsGreatest(x, s);
      }
    }
  }

  lemma GreatestUnique(s: set<string>, m: string, n: string)
    requires IsGreatest(m, s) && IsGreatest(n, s)
    ensures m == n
  {
    StrTotal(m, n);
  }

  function Greatest(s: set<string>): (m: string)
    requires s != {}
    ensures IsGreatest(m, s)
  {
    GreatestExists(s);
    assert forall m, n :: IsGreatest(m, s) && IsGreatest(n, s) ==> m == n by {
      forall m, n | IsGreatest(m, s) && IsGreatest(n, s) ensures m == n {
        GreatestUnique(s, m, n);
      }
    }
    var m :| m in s && IsGreatest(m, s);
    m
  }

  /** The keys in ascending order. */
  function SortedKeys(s: set<string>): (r: seq<string>)
    ensures forall k :: k in r <==> k in s
    decreases |s|
  {
    if s == {} then [] else SortedKeys(s - {Greatest(s)}) + [Greatest(s)]
  }

  // ----- Aggregation -----

  function Contributed(key: string, data: Data): seq<Assignment> {
    if key in data && IsPolicyKey(key) && data[key].Object? then data[key].entry.assignments else []
  }

  function Collect(keys: seq<string>, data: Data): seq<Assignment> {
    if keys == [] then [] else Collect(keys[..|keys| - 1], data) + Contributed(keys[|keys| - 1], data)
  }

  function Aggregate(data: Data): seq<Assignment> {
    Sort(Collect(SortedKeys(data.Keys), data))
  }

  /** Aggregation raises on a policy entry that is JSON but no object. */
  predicate Readable(data: Data) {
    forall k :: k in data && IsPolicyKey(k) ==> !data[k].NotObject?
  }

  lemma ContributedByKey(key: string, data: Data)
    requires key in data
    ensures Contributed(key, data) == if IsPolicyKey(key) && data[key].Object? then data[key].entry.assignments else []
  {
  }

  method AggregateResolvedAssignments(data: Data) returns (r: Option<seq<Assignment>>)
    ensures r == if Readable(data) then Some(Aggregate(data)) else None
  {
    hide Sort, IsPolicyKey, SortedKeys, Contributed;
    var keys := SortedKeys(data.Keys);
    var found: seq<Assignment> := [];
    for i := 0 to |keys|
      invariant found == Collect(keys[..i], data)
      invariant forall k :: k in keys[..i] && IsPolicyKey(k) ==> !data[k].NotObject?
    {
      assert keys[..i + 1][..i] == keys[..i];
      var key := keys[i];
      assert key in keys;
      ContributedByKey(key, data);
      if !IsPolicyKey(key) {
        continue;
      }
      match data[key] {
        case NotJson(_) =>
        case NotObject(_) => return None;
        case Object(entry) => found := found + entry.assignments;
      }
    }
    assert keys[..|keys|] == keys;
    return Some(Sort(found));
  }

  lemma {:induction false} CollectMembers(keys: seq<string>, data: Data, a: Assignment)
    ensures a in Collect(keys, data) <==> exists k :: k in keys && a in Contributed(k, data)
  {
    hide Contributed;
    if keys == [] {
    } else {
      var init, last := keys[..|keys| - 1], keys[|keys| - 1];
      CollectMembers(init, data, a);
      assert keys == init + [last];
    }
  }

  /** The aggregate lists, in order, exactly what the policy entries list. */
  lemma AggregateMeaning(data: Data, a: Assignment)
    ensures Sorted(Aggregate(data))
    ensures a in Aggregate(data)
            <==> exists k :: k in data && IsPolicyKey(k) && data[k].Object? && a in data[k].entry.assignments
  {
    hide Sort, Sorted, EndsWithSuffix;
    SortSorts(Collect(SortedKeys(data.Keys), data));
    CollectMembers(SortedKeys(data.Keys), data, a);
    if k :| k in data && IsPolicyKey(k) && data[k].Object? && a in data[k].entry.assignments {
      assert a in Contributed(k, data);
    }
  }

  lemma {:induction false} CollectSame(keys: seq<string>, data: Data, data': Data)
    requires forall k :: k in keys ==> Contributed(k, data) == Contributed(k, data')
    ensures Collect(keys, data) == Collect(keys, data')
  {
    hide Contributed;
    if keys == [] {
    } else {
      assert keys[|keys| - 1] in keys;
      CollectSame(keys[..|keys| - 1], data, data');
    }
  }

  lemma CollectGreatest(s: set<string>, data: Data)
    requires s != {}
    ensures Collect(SortedKeys(s), data) == Collect(SortedKeys(s - {Greatest(s)}), data) + Contributed(Greatest(s), data)
  {
    hide Contributed, StrLe, Greatest;
    assert SortedKeys(s)[..|SortedKeys(s)| - 1] == SortedKeys(s - {Greatest(s)});
  }

  lemma GreatestStays(s: set<string>, key: string)
    requires s != {} && key != Greatest(s)
    ensures s - {key} != {} && Greatest(s - {key}) == Greatest(s)
  {
    hide StrLe;
    var m := Greatest(s);
    assert m in s - {key} && IsGreatest(m, s - {key});
    GreatestUnique(s - {key}, m, Greatest(s - {key}));
  }

  lemma SwapRemovals(s: set<string>, a: string, b: string)
    ensures s - {a} - {b} == s - {b} - {a}
  {
  }

  /** What one key contributes, whichever place it has in the order. */
  lemma {:induction false} CollectOut(s: set<string>, key: string, data: Data)
    requires key in s
    ensures multiset(Collect(SortedKeys(s), data)) == multiset(Collect(SortedKeys(s - {key}), data)) + multiset(Contributed(key, data))
    decreases |s|
  {
    hide Contributed, Greatest, Collect, SortedKeys;
    var m := Greatest(s);
    CollectGreatest(s, data);
    if m != key {
      CollectOut(s - {m}, key, data);
      GreatestStays(s, key);
      CollectGreatest(s - {key}, data);
      SwapRemovals(s, m, key);
    }
  }

  /** A key that contributes nothing may as well be missing. */
  lemma {:induction false} CollectWithout(s: set<string>, key: string, data: Data)
    requires Contributed(key, data) == []
    ensures Collect(SortedKeys(s), data) == Collect(SortedKeys(s - {key}), data)
    decreases |s|
  {
    hide Contributed, Greatest, Collect, SortedKeys;
    if key !in s {
      assert s - {key} == s;
    } else {
      var m := Greatest(s);
      CollectGreatest(s, data);
      if m != key {
        CollectWithout(s - {m}, key, data);
        GreatestStays(s, key);
        CollectGreatest(s - {key}, data);
        SwapRemovals(s, m, key);
      }
    }
  }

  lemma EmptyAggregate()
    ensures Aggregate(map[]) == []
  {
    var empty: Data := map[];
    assert empty.Keys == {};
  }

  /** Nothing aggregates to nothing, and one more key adds its assignments if it is a policy's and holds an object: each
      assignment stands in the aggregate as often as in the entries. */
  lemma AggregateAdds(data: Data, key: string, v: Value)
    requires key !in data
    ensures Aggregate(map[]) == []
    ensures multiset(Aggregate(data[key := v]))
         == multiset(Aggregate(data)) + if IsPolicyKey(key) && v.Object? then multiset(v.entry.assignments) else multiset{}
  {
    hide Sort, Sorted, SortedKeys, Collect, IsPolicyKey;
    var more := data[key := v];
    assert more.Keys == data.Keys + {key} && more.Keys - {key} == data.Keys;
    CollectOut(more.Keys, key, more);
    forall k | k in SortedKeys(data.Keys) ensures Contributed(k, data) == Contributed(k, more) {
    }
    CollectSame(SortedKeys(data.Keys), data, more);
    SortSorts(Collect(SortedKeys(more.Keys), more));
    SortSorts(Collect(SortedKeys(data.Keys), data));
    EmptyAggregate();
  }

  lemma AggregateWithout(data: Data)
    ensures Aggregate(data) == Aggregate(data - {AGGREGATE_KEY})
  {
    hide Sort, SortedKeys, Collect, EndsWithSuffix;
    var without := data - {AGGREGATE_KEY};
    CollectWithout(data.Keys, AGGREGATE_KEY, data);
    assert data.Keys - {AGGREGATE_KEY} == without.Keys;
    forall k | k in SortedKeys(without.Keys) ensures Contributed(k, data) == Contributed(k, without) {
      assert k in without;
    }
    CollectSame(SortedKeys(without.Keys), data, without);
  }

  /** Aggregation does not look at the aggregate. */
  lemma AggregateIgnoresItself(data: Data, v: Value)
    ensures Aggregate(data[AGGREGATE_KEY := v]) == Aggregate(data) == Aggregate(data - {AGGREGATE_KEY})
  {
    hide Aggregate;
    AggregateWithout(data);
    AggregateWithout(data[AGGREGATE_KEY := v]);
    assert data[AGGREGATE_KEY := v] - {AGGREGATE_KEY} == data - {AGGREGATE_KEY};
  }

  // ----- Updates -----

  function WithEntry(data: Data, policy: string, entry: Option<Entry>): Data {
    match entry
    case None => data - {Key(policy)}
    case Some(e) => data[Key(policy) := Object(e)]
  }

  function WithAggregate(data: Data): Data {
    data[AGGREGATE_KEY := Object(Entry(Aggregate(data), ""))]
  }

  /** What a writer makes of the data it read. */
  function Rewritten(data: Data, policy: string, entry: Option<Entry>): Data {
    WithAggregate(WithEntry(data, policy, entry))
  }

  ghost predicate Consistent(data: Data) {
    AGGREGATE_KEY in data && data[AGGREGATE_KEY] == Object(Entry(Aggregate(data), ""))
  }

  /** A writer leaves a true aggregate. */
  lemma RewrittenIsConsistent(data: Data, policy: string, entry: Option<Entry>)
    ensures Consistent(Rewritten(data, policy, entry))
  {
    hide Aggregate;
    var updated := WithEntry(data, policy, entry);
    AggregateIgnoresItself(updated, Object(Entry(Aggregate(updated), "")));
  }

  /** Apart from its own key and the aggregate, a writer changes nothing. */
  lemma RewrittenKeepsSiblings(data: Data, policy: string, entry: Option<Entry>, key: string)
    requires key != AGGREGATE_KEY && key != Key(policy)
    ensures key in Rewritten(data, policy, entry) <==> key in data
    ensures key in data ==> Rewritten(data, policy, entry)[key] == data[key]
  {
    hide Aggregate;
  }

  lemma RewrittenHasEntry(data: Data, policy: string, entry: Option<Entry>)
    requires Key(policy) != AGGREGATE_KEY
    ensures Key(policy) in Rewritten(data, policy, entry) <==> entry.Some?
    ensures entry.Some? ==> Rewritten(data, policy, entry)[Key(policy)] == Object(entry.value)
  {
    hide Aggregate;
  }

  /** Publishing the same entry again changes nothing, so the writer need not replace the object. */
  lemma RewritingAgainIsNoOp(data: Data, policy: string, entry: Option<Entry>)
    ensures Rewritten(Rewritten(data, policy, entry), policy, entry) == Rewritten(data, policy, entry)
  {
    hide Aggregate;
    var updated, rewritten := WithEntry(data, policy, entry), Rewritten(data, policy, entry);
    AggregateIgnoresItself(updated, rewritten[AGGREGATE_KEY]);
    var again := WithEntry(rewritten, policy, entry);
    AggregateIgnoresItself(again, rewritten[AGGREGATE_KEY]);
    assert again - {AGGREGATE_KEY} == updated - {AGGREGATE_KEY};
    AggregateIgnoresItself(updated, Object(Entry([], "")));
  }

  /** A policy whose key is the aggregate's is overwritten by the aggregate: its entry is never kept. */
  lemma ReservedNameIsLost(data: Data, policy: string, entry: Option<Entry>)
    requires Key(policy) == AGGREGATE_KEY
    ensures Rewritten(data, policy, entry) == WithAggregate(data)
  {
    hide Aggregate;
    AggregateIgnoresItself(data, match entry case Some(e) => Object(e) case None => NotJson(""));
  }
}
