/** GPU assignments: their sort order, and the list one policy resolves to. */
module Assignments {

  datatype Assignment = Assignment(
    node: string, gpu: int, podUid: string, policyUid: string, generation: int, tier: string, boost: real)

  // ----- Order -----

  /** Code-point order on strings. */
  predicate StrLe(a: string, b: string) {
    a == "" || (b != "" && (a[0] < b[0] || (a[0] == b[0] && StrLe(a[1..], b[1..]))))
  }

  lemma {:induction false} StrTotal(a: string, b: string)
    ensures StrLe(a, b) || StrLe(b, a)
    ensures StrLe(a, b) && StrLe(b, a) ==> a == b
  {
    if a != "" && b != "" && a[0] == b[0] {
      StrTotal(a[1..], b[1..]);
      assert a == [a[0]] + a[1..] && b == [b[0]] + b[1..];
    }
  }

  lemma {:induction false} StrTransitive(a: string, b: string, c: string)
    requires StrLe(a, b) && StrLe(b, c)
    ensures StrLe(a, c)
  {
    if a != "" && a[0] == b[0] == c[0] {
      StrTransitive(a[1..], b[1..], c[1..]);
    }
  }

  /** They differ at `k` for the first time, and there `a` is lower. */
  ghost predicate LowerAt(a: string, b: string, k: int) {
    0 <= k < |a| && k < |b| && a[..k] == b[..k] && a[k] < b[k]
  }

  /** A prefix comes first; otherwise the first difference decides. */
  lemma {:induction false} StrLeExactly(a: string, b: string)
    ensures StrLe(a, b) <==> a <= b || exists k :: LowerAt(a, b, k)
  {
    if a == "" {
      assert a <= b;
    } else if b == "" {
    } else if a[0] != b[0] {
      assert a[0] < b[0] ==> LowerAt(a, b, 0);
      forall k | 0 < k < |a| && k < |b| ensures a[..k] != b[..k] {
        assert a[..k][0] != b[..k][0];
      }
    } else {
      var s, t := a[1..], b[1..];
      StrLeExactly(s, t);
      assert a == [a[0]] + s && b == [b[0]] + t;
      assert a <= b <==> s <= t;
      if k :| LowerAt(s, t, k) {
        assert a[..k + 1] == [a[0]] + s[..k] && b[..k + 1] == [b[0]] + t[..k];
        assert LowerAt(a, b, k + 1);
      }
      if k :| LowerAt(a, b, k) {
        assert k > 0;
        assert s[..k - 1] == a[..k][1..] && t[..k - 1] == b[..k][1..];
        assert LowerAt(s, t, k - 1);
      }
    }
  }

  /** Order by node, GPU, Pod and policy. */
  predicate KeyLe(a: Assignment, b: Assignment) {
    if a.node != b.node then StrLe(a.node, b.node)
    else if a.gpu != b.gpu then a.gpu < b.gpu
    else if a.podUid != b.podUid then StrLe(a.podUid, b.podUid)
    else StrLe(a.policyUid, b.policyUid)
  }

  predicate SameKey(a: Assignment, b: Assignment) {
    a.node == b.node && a.gpu == b.gpu && a.podUid == b.podUid && a.policyUid == b.policyUid
  }

  lemma KeyTotal(a: Assignment, b: Assignment)
    ensures KeyLe(a, b) || KeyLe(b, a)
    ensures KeyLe(a, b) && KeyLe(b, a) ==> SameKey(a, b)
  {
    StrTotal(a.node, b.node);
    StrTotal(a.podUid, b.podUid);
    StrTotal(a.policyUid, b.policyUid);
  }

  lemma KeyTransitive(a: Assignment, b: Assignment, c: Assignment)
    requires KeyLe(a, b) && KeyLe(b, c)
    ensures KeyLe(a, c)
  {
    hide StrLe;
    if StrLe(a.node, b.node) && StrLe(b.node, c.node) { StrTransitive(a.node, b.node, c.node); }
    if StrLe(a.podUid, b.podUid) && StrLe(b.podUid, c.podUid) { StrTransitive(a.podUid, b.podUid, c.podUid); }
    if StrLe(a.policyUid, b.policyUid) && StrLe(b.policyUid, c.policyUid) { StrTransitive(a.policyUid, b.policyUid, c.policyUid); }
    StrTotal(a.node, b.node);
    StrTotal(b.node, c.node);
    StrTotal(a.podUid, b.podUid);
    StrTotal(b.podUid, c.podUid);
  }

  // ----- Stable sort -----

  /** `x` behind everything it is not below. */
  function Insert(s: seq<Assignment>, x: Assignment): seq<Assignment> {
    if s == [] || KeyLe(s[|s| - 1], x) then s + [x]
    else Insert(s[..|s| - 1], x) + [s[|s| - 1]]
  }

  function Sort(s: seq<Assignment>): seq<Assignment> {
    if s == [] then [] else Insert(Sort(s[..|s| - 1]), s[|s| - 1])
  }

  ghost predicate Sorted(s: seq<Assignment>) {
    forall i, j :: 0 <= i < j < |s| ==> KeyLe(s[i], s[j])
  }

  ghost predicate DistinctKeys(s: seq<Assignment>) {
    forall i, j :: 0 <= i < j < |s| ==> !SameKey(s[i], s[j])
  }

  lemma {:induction false} InsertMembers(s: seq<Assignment>, x: Assignment)
    ensures multiset(Insert(s, x)) == multiset(s) + multiset{x}
    ensures |Insert(s, x)| == |s| + 1
    ensures forall a :: a in Insert(s, x) <==> a in s || a == x
  {
    if s != [] && !KeyLe(s[|s| - 1], x) {
      InsertMembers(s[..|s| - 1], x);
      assert s == s[..|s| - 1] + [s[|s| - 1]];
    }
  }

  lemma {:induction false} InsertSorts(s: seq<Assignment>, x: Assignment)
    requires Sorted(s)
    ensures Sorted(Insert(s, x))
  {
    hide KeyLe;
    if s == [] {
    } else if KeyLe(s[|s| - 1], x) {
      forall i | 0 <= i < |s| ensures KeyLe(s[i], x) {
        if i < |s| - 1 {
          KeyTransitive(s[i], s[|s| - 1], x);
        }
      }
    } else {
      var init, last := s[..|s| - 1], s[|s| - 1];
      InsertSorts(init, x);
      InsertMembers(init, x);
      var r := Insert(init, x);
      forall i | 0 <= i < |r| ensures KeyLe(r[i], last) {
        assert r[i] in r;
        if r[i] in init {
          var k :| 0 <= k < |init| && init[k] == r[i];
          assert KeyLe(s[k], s[|s| - 1]);
        } else {
          KeyTotal(x, last);
        }
      }
    }
  }

  /** The result is sorted and has exactly the elements put in. */
  lemma {:induction false} SortSorts(s: seq<Assignment>)
    ensures Sorted(Sort(s)) && multiset(Sort(s)) == multiset(s) && |Sort(s)| == |s|
    ensures forall a :: a in Sort(s) <==> a in s
  {
    hide KeyLe, Insert;
    if s == [] {
    } else {
      var init, last := s[..|s| - 1], s[|s| - 1];
      SortSorts(init);
      hide Sorted;
      InsertSorts(Sort(init), last);
      InsertMembers(Sort(init), last);
      assert s == init + [last];
    }
  }

  /** Nodes in code-point order, on a node GPUs in ascending order, on a GPU Pods and for a Pod policies in code-point
      order. */
  lemma SortOrders(s: seq<Assignment>, i: nat, j: nat)
    requires i < j < |Sort(s)|
    ensures var a, b := Sort(s)[i], Sort(s)[j];
            && StrLe(a.node, b.node)
            && (a.node == b.node ==>
                  && a.gpu <= b.gpu
                  && (a.gpu == b.gpu ==> StrLe(a.podUid, b.podUid) && (a.podUid == b.podUid ==> StrLe(a.policyUid, b.policyUid))))
  {
    hide Sort, StrLe;
    SortSorts(s);
    var a, b := Sort(s)[i], Sort(s)[j];
    assert KeyLe(a, b);
    StrTotal(a.node, a.node);
    StrTotal(a.podUid, a.podUid);
  }

  lemma {:induction false} InsertKeepsDistinct(s: seq<Assignment>, x: Assignment)
    requires DistinctKeys(s) && forall a :: a in s ==> !SameKey(a, x)
    ensures DistinctKeys(Insert(s, x))
  {
    if s != [] && !KeyLe(s[|s| - 1], x) {
      var init, last := s[..|s| - 1], s[|s| - 1];
      InsertKeepsDistinct(init, x);
      InsertMembers(init, x);
      var r := Insert(init, x);
      forall i | 0 <= i < |r| ensures !SameKey(r[i], last) {
        assert r[i] in r;
        if r[i] in init {
          var k :| 0 <= k < |init| && init[k] == r[i];
          assert !SameKey(s[k], s[|s| - 1]);
        } else {
          assert last in s;
        }
      }
    }
  }

  lemma {:induction false} SortKeepsDistinct(s: seq<Assignment>)
    requires DistinctKeys(s)
    ensures DistinctKeys(Sort(s))
  {
    if s == [] {
    } else {
      var init, last := s[..|s| - 1], s[|s| - 1];
      SortKeepsDistinct(init);
      SortSorts(init);
      forall a | a in Sort(init) ensures !SameKey(a, last) {
        var k :| 0 <= k < |init| && init[k] == a;
        assert !SameKey(s[k], s[|s| - 1]);
      }
      InsertKeepsDistinct(Sort(init), last);
    }
  }

  ghost predicate StrictlySorted(s: seq<Assignment>) {
    Sorted(s) && DistinctKeys(s)
  }

  lemma LastIsGreatest(s: seq<Assignment>, a: Assignment)
    requires StrictlySorted(s) && a in s
    ensures KeyLe(a, s[|s| - 1]) && (SameKey(a, s[|s| - 1]) ==> a == s[|s| - 1])
  {
    KeyTotal(a, a);
    var k :| 0 <= k < |s| && s[k] == a;
  }

  lemma WithoutLast(s: seq<Assignment>, a: Assignment)
    requires StrictlySorted(s) && s != []
    ensures a in s[..|s| - 1] <==> a in s && a != s[|s| - 1]
  {
    if a in s[..|s| - 1] {
      var k :| 0 <= k < |s| - 1 && s[k] == a;
      assert !SameKey(s[k], s[|s| - 1]);
    }
  }

  /** A strictly sorted list is determined by its elements. */
  lemma {:induction false} StrictlySortedUnique(s: seq<Assignment>, t: seq<Assignment>)
    requires StrictlySorted(s) && StrictlySorted(t)
    requires forall a :: a in s <==> a in t
    ensures s == t
  {
    if t == [] {
    } else {
      assert t[0] in t && t[0] in s;
    }
    if s == [] {
    } else {
      assert s[0] in s;
      var x, y := s[|s| - 1], t[|t| - 1];
      assert x in t && y in s;
      LastIsGreatest(s, y);
      LastIsGreatest(t, x);
      KeyTotal(x, y);
      var before, before' := s[..|s| - 1], t[..|t| - 1];
      forall a ensures a in before <==> a in before' {
        WithoutLast(s, a);
        WithoutLast(t, a);
      }
      StrictlySortedUnique(before, before');
      assert s == before + [x] && t == before' + [y];
    }
  }
}
