/** Resolving one policy: from the Pods its selector lists to the GPU assignments it publishes. */
module Resolution {
  import opened Options
  import opened Assignments
  import Annotations
  import GpuIndices

  datatype Pod = Pod(
    uid: string, namespace: string, annotation: Option<string>, labels: map<string, string>,
    node: Option<string>, status: string)

  datatype Policy = Policy(
    namespace: string, uid: string, generation: int, selector: map<string, string>, tier: string, boost: real)

  predicate Matches(labels: map<string, string>, selector: map<string, string>) {
    forall k :: k in selector ==> k in labels && labels[k] == selector[k]
  }

  /** The Pods the API server lists for the policy. An empty selector selects nothing. */
  predicate Selected(pod: Pod, policy: Policy) {
    pod.namespace == policy.namespace && policy.selector != map[] && Matches(pod.labels, policy.selector)
  }

  function Advertised(annotation: Option<string>): Option<seq<nat>> {
    match annotation
    case None => None
    case Some(raw) => GpuIndices.Parse(raw)
  }

  function Assign(pod: Pod, policy: Policy, gpu: nat): Assignment {
    Assignment(pod.node.GetOr(""), gpu, pod.uid, policy.uid, policy.generation, policy.tier, policy.boost)
  }

  function AssignAll(pod: Pod, policy: Policy, gpus: seq<nat>): seq<Assignment> {
    if gpus == [] then [] else AssignAll(pod, policy, gpus[..|gpus| - 1]) + [Assign(pod, policy, gpus[|gpus| - 1])]
  }

  predicate Placed(pod: Pod) {
    pod.uid != "" && pod.node.GetOr("") != ""
  }

  /** What one listed Pod adds: nothing unless it has an identity, a node and a readable annotation. */
  function Contribution(pod: Pod, policy: Policy): seq<Assignment> {
    if !Placed(pod) then []
    else
      match Advertised(pod.annotation)
      case None => []
      case Some(gpus) => AssignAll(pod, policy, gpus)
  }

  function Gather(listing: seq<Pod>, policy: Policy): seq<Assignment> {
    if listing == [] then []
    else Gather(listing[..|listing| - 1], policy) + Contribution(listing[|listing| - 1], policy)
  }

  function Resolve(listing: seq<Pod>, policy: Policy): seq<Assignment> {
    Sort(Gather(listing, policy))
  }

  method ResolvedAssignments(pods: seq<Pod>, policy: Policy) returns (r: seq<Assignment>)
    ensures r == Resolve(pods, policy)
  {
    hide Sort, GpuIndices.Parse;
    var found: seq<Assignment> := [];
    for k := 0 to |pods|
      invariant found == Gather(pods[..k], policy)
    {
      assert pods[..k + 1][..k] == pods[..k];
      var pod := pods[k];
      if !Placed(pod) {
        continue;
      }
      var indices := Advertised(pod.annotation);
      if indices == None {
        continue;
      }
      ghost var before := found;
      for i := 0 to |indices.value|
        invariant found == before + AssignAll(pod, policy, indices.value[..i])
      {
        assert indices.value[..i + 1][..i] == indices.value[..i];
        found := found + [Assign(pod, policy, indices.value[i])];
      }
      assert indices.value[..|indices.value|] == indices.value;
    }
    assert pods[..|pods|] == pods;
    return Sort(found);
  }

  // ----- What one Pod contributes -----

  /** Every pair of the selector is among the labels, and there is one. */
  lemma SelectedExactly(pod: Pod, policy: Policy)
    ensures Selected(pod, policy)
            <==> pod.namespace == policy.namespace && policy.selector.Items != {} && policy.selector.Items <= pod.labels.Items
  {
    MatchesExactly(pod.labels, policy.selector);
    hide Matches;
    if policy.selector.Items == {} {
      assert forall k :: k in policy.selector ==> (k, policy.selector[k]) in policy.selector.Items;
    }
  }

  lemma MatchesExactly(labels: map<string, string>, selector: map<string, string>)
    ensures Matches(labels, selector) <==> selector.Items <= labels.Items
  {
    if selector.Items <= labels.Items {
      forall k | k in selector ensures k in labels && labels[k] == selector[k] {
        assert (k, selector[k]) in selector.Items;
      }
    }
  }

  /** The annotation lists the GPU, among numbers none of which it repeats. */
  ghost predicate Advertises(annotation: Option<string>, gpu: int) {
    annotation.Some? && exists values :: Annotations.Lists(annotation.value, values) && GpuIndices.NoRepeats(values) && gpu in values
  }

  lemma AdvertisedExactly(annotation: Option<string>, gpu: int)
    ensures Advertises(annotation, gpu) <==> Advertised(annotation).Some? && gpu in Advertised(annotation).value
  {
    hide GpuIndices.Parse, Annotations.Lists, GpuIndices.NoRepeats, GpuIndices.Ascending;
    if annotation.Some? {
      var parsed := GpuIndices.Parse(annotation.value);
      if parsed.Some? {
        Annotations.ParsesExactly(annotation.value, parsed.value);
      }
      if values :| Annotations.Lists(annotation.value, values) && GpuIndices.NoRepeats(values) && gpu in values {
        GpuIndices.SortAscending(values);
        Annotations.ParsesExactly(annotation.value, GpuIndices.SortNats(values));
      }
    }
  }

  lemma {:induction false} AssignAllHas(pod: Pod, policy: Policy, gpus: seq<nat>, a: Assignment)
    ensures a in AssignAll(pod, policy, gpus)
            <==> && a.gpu in gpus
                 && a == Assignment(pod.node.GetOr(""), a.gpu, pod.uid, policy.uid, policy.generation, policy.tier, policy.boost)
  {
    if gpus == [] {
    } else {
      AssignAllHas(pod, policy, gpus[..|gpus| - 1], a);
      assert gpus == gpus[..|gpus| - 1] + [gpus[|gpus| - 1]];
    }
  }

  /** A Pod with an identity and a node puts each GPU it advertises there on the list, with the policy's tier and boost;
      any other Pod puts nothing. */
  lemma ContributionHas(pod: Pod, policy: Policy, a: Assignment)
    ensures a in Contribution(pod, policy)
            <==> && pod.uid != "" && pod.node.Some? && pod.node.value != "" && Advertises(pod.annotation, a.gpu)
                 && a == Assignment(pod.node.value, a.gpu, pod.uid, policy.uid, policy.generation, policy.tier, policy.boost)
    ensures a in Contribution(pod, policy) ==> a.gpu >= 0
  {
    hide Advertised, Advertises;
    AdvertisedExactly(pod.annotation, a.gpu);
    if Placed(pod) && Advertised(pod.annotation).Some? {
      AssignAllHas(pod, policy, Advertised(pod.annotation).value, a);
    }
  }

  // ----- What the list means -----

  /** Some Pod of the cluster, selected by the policy, puts `a` on the list. */
  ghost predicate Assigned(a: Assignment, pods: map<string, Pod>, policy: Policy) {
    a.podUid in pods && Selected(pods[a.podUid], policy) && a in Contribution(pods[a.podUid], policy)
  }

  /** The one list that has every assignment of the cluster's Pods once, in order. */
  ghost predicate IsResolution(list: seq<Assignment>, pods: map<string, Pod>, policy: Policy) {
    StrictlySorted(list) && forall a :: a in list <==> Assigned(a, pods, policy)
  }

  ghost predicate KeyedByUid(pods: map<string, Pod>) {
    forall u :: u in pods ==> pods[u].uid == u
  }

  /** An API answer: every selected Pod once, in any order. */
  ghost predicate Lists(listing: seq<Pod>, pods: map<string, Pod>, policy: Policy) {
    && (forall i, j :: 0 <= i < j < |listing| ==> listing[i].uid != listing[j].uid)
    && (forall p :: p in listing <==> p.uid in pods && pods[p.uid] == p && Selected(p, policy))
  }

  lemma {:induction false} AssignAllMembers(pod: Pod, policy: Policy, gpus: seq<nat>)
    requires GpuIndices.Ascending(gpus)
    ensures forall a :: a in AssignAll(pod, policy, gpus) ==> a.podUid == pod.uid && a.gpu in gpus
    ensures DistinctKeys(AssignAll(pod, policy, gpus))
  {
    if gpus == [] {
    } else {
      var init, last := gpus[..|gpus| - 1], gpus[|gpus| - 1];
      AssignAllMembers(pod, policy, init);
      var before := AssignAll(pod, policy, init);
      forall i | 0 <= i < |before| ensures before[i].gpu != last {
        assert before[i] in before;
        assert before[i].gpu in init;
      }
    }
  }

  lemma ContributionDistinct(pod: Pod, policy: Policy)
    ensures forall a :: a in Contribution(pod, policy) ==> a.podUid == pod.uid
    ensures DistinctKeys(Contribution(pod, policy))
  {
    hide GpuIndices.Parse;
    if pod.annotation.Some? && GpuIndices.Parse(pod.annotation.value).Some? {
      GpuIndices.ParsedIsAscending(pod.annotation.value);
      AssignAllMembers(pod, policy, GpuIndices.Parse(pod.annotation.value).value);
    }
  }

  lemma {:induction false} GatherMembers(listing: seq<Pod>, policy: Policy)
    requires forall i, j :: 0 <= i < j < |listing| ==> listing[i].uid != listing[j].uid
    ensures forall a :: a in Gather(listing, policy)
                        <==> exists p :: p in listing && p.uid == a.podUid && a in Contribution(p, policy)
    ensures DistinctKeys(Gather(listing, policy))
  {
    hide Contribution;
    if listing == [] {
    } else {
      var init, last := listing[..|listing| - 1], listing[|listing| - 1];
      assert listing == init + [last];
      GatherMembers(init, policy);
      ContributionDistinct(last, policy);
      var before, more := Gather(init, policy), Contribution(last, policy);
      forall i, j | 0 <= i < |before| && 0 <= j < |more| ensures !SameKey(before[i], more[j]) {
        assert before[i] in before && more[j] in more;
        var p :| p in init && p.uid == before[i].podUid;
        var k :| 0 <= k < |init| && init[k] == p;
        assert listing[k].uid != listing[|init|].uid;
      }
    }
  }

  /** However the API server orders its answer, the policy resolves to the one list that lists its assignments. */
  lemma ResolveIsResolution(listing: seq<Pod>, pods: map<string, Pod>, policy: Policy)
    requires KeyedByUid(pods) && Lists(listing, pods, policy)
    ensures IsResolution(Resolve(listing, policy), pods, policy)
  {
    hide Contribution, Selected, Sort, Gather;
    GatherMembers(listing, policy);
    SortSorts(Gather(listing, policy));
    SortKeepsDistinct(Gather(listing, policy));
    forall a ensures a in Resolve(listing, policy) <==> Assigned(a, pods, policy) {
      if Assigned(a, pods, policy) {
        assert pods[a.podUid] in listing;
      }
    }
  }

  lemma ResolutionUnique(l: seq<Assignment>, l': seq<Assignment>, pods: map<string, Pod>, policy: Policy)
    requires IsResolution(l, pods, policy) && IsResolution(l', pods, policy)
    ensures l == l'
  {
    hide Assigned;
    StrictlySortedUnique(l, l');
  }
}
