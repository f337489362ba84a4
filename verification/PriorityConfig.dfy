/** The controller's side of the handoff: polling the aggregate and turning it into tiers for the local GPUs. */
module PriorityConfig {
  import opened Options
  import opened Tiers

  datatype Json =
    | Null
    | Bool(b: bool)
    | Int(n: int)
    | Float(x: real)
    | Str(s: string)
    | List(items: seq<Json>)
    | Obj(fields: map<string, Json>)

  function Field(fields: map<string, Json>, name: string): Json {
    if name in fields then fields[name] else Null
  }

  /** Equality with the number 1, which a true Boolean and 1.0 also have. */
  predicate IsOne(j: Json) {
    j == Int(1) || j == Float(1.0) || j == Bool(true)
  }

  // ----- One assignment -----

  datatype Candidate = Candidate(tier: Tier, boost: real) {
    /** Beats what is selected so far: by tier, then by boost. */
    predicate Beats(c: Candidate) {
      Rank(tier) > Rank(c.tier) || (Rank(tier) == Rank(c.tier) && boost > c.boost)
    }
  }

  datatype Claim = Elsewhere | Invalid | Local(gpu: int, candidate: Candidate)

  function Number(j: Json): Option<real> {
    match j
    case Int(n) => Some(n as real)
    case Float(x) => Some(x)
    case _ => None
  }

  function TierOf(j: Json): Option<Tier> {
    if j.Str? then ParseTier(j.s) else None
  }

  /** How one element of the list is understood on `node`. */
  function ClaimOf(j: Json, node: string): Claim {
    if !j.Obj? then Invalid
    else if Field(j.fields, "nodeName") != Str(node) then Elsewhere
    else
      var gpu := Field(j.fields, "gpuIndex");
      var tier := TierOf(Field(j.fields, "priorityClass"));
      var boost := Number(Field(j.fields, "gpuBoostPct"));
      if !gpu.Int? || gpu.n < 0 || tier == None || boost == None then Invalid
      else Local(gpu.n, Candidate(tier.value, boost.value))
  }

  // ----- The list -----

  type Selection = map<int, Candidate>

  function Select(selected: Selection, gpu: int, c: Candidate): Selection {
    if gpu !in selected || c.Beats(selected[gpu]) then selected[gpu := c] else selected
  }

  function SelectAll(items: seq<Json>, node: string): Option<Selection> {
    if items == [] then Some(map[])
    else
      match SelectAll(items[..|items| - 1], node)
      case None => None
      case Some(selected) =>
        match ClaimOf(items[|items| - 1], node)
        case Invalid => None
        case Elsewhere => Some(selected)
        case Local(gpu, c) => Some(Select(selected, gpu, c))
  }

  function TiersOf(selected: Selection): map<int, Tier> {
    map g | g in selected :: selected[g].tier
  }

  /** The aggregate's key in the polled object: missing, not JSON, or a JSON document. */
  datatype Payload = Missing | NotJson | Doc(json: Json)

  /** The list of assignments, if the payload has the right shape. */
  function AssignmentsIn(p: Payload): Option<seq<Json>> {
    if !p.Doc? || !p.json.Obj? || !IsOne(Field(p.json.fields, "schemaVersion")) then None
    else
      match Field(p.json.fields, "assignments")
      case List(items) => Some(items)
      case _ => None
  }

  function Parse(p: Payload, node: string): Option<map<int, Tier>> {
    match AssignmentsIn(p)
    case None => None
    case Some(items) =>
      match SelectAll(items, node)
      case None => None
      case Some(selected) => Some(TiersOf(selected))
  }

  lemma {:induction false} InvalidPrefix(items: seq<Json>, node: string, k: nat)
    requires k <= |items| && SelectAll(items[..k], node) == None
    ensures SelectAll(items, node) == None
    decreases |items| - k
  {
    hide ClaimOf;
    if k == |items| {
      assert items[..k] == items;
    } else {
      assert items[..k + 1][..k] == items[..k];
      InvalidPrefix(items, node, k + 1);
    }
  }

  method ParsePayload(p: Payload, node: string) returns (r: Option<map<int, Tier>>)
    ensures r == Parse(p, node)
  {
    hide ClaimOf, AssignmentsIn;
    var assignments := AssignmentsIn(p);
    if assignments == None {
      return None;
    }
    var items := assignments.value;
    var selected: Selection := map[];
    for i := 0 to |items|
      invariant SelectAll(items[..i], node) == Some(selected)
    {
      assert items[..i + 1][..i] == items[..i];
      match ClaimOf(items[i], node) {
        case Elsewhere =>
        case Invalid =>
          InvalidPrefix(items, node, i + 1);
          return None;
        case Local(gpu, c) =>
          if gpu !in selected || c.Beats(selected[gpu]) {
            selected := selected[gpu := c];
          }
      }
    }
    assert items[..|items|] == items;
    return Some(TiersOf(selected));
  }

  // ----- What the words mean -----

  ghost predicate Has(fields: map<string, Json>, name: string, value: Json) {
    name in fields && fields[name] == value
  }

  /** The payload is an object of schema version 1, which true and 1.0 also count as, with a list of assignments. */
  lemma ShapeExactly(p: Payload, items: seq<Json>)
    ensures AssignmentsIn(p) == Some(items)
            <==> && p.Doc? && p.json.Obj? && Has(p.json.fields, "assignments", List(items))
                 && (exists one :: one in {Int(1), Float(1.0), Bool(true)} && Has(p.json.fields, "schemaVersion", one))
  {
    if p.Doc? && p.json.Obj? {
      assert Has(p.json.fields, "schemaVersion", Field(p.json.fields, "schemaVersion"))
          || Field(p.json.fields, "schemaVersion") == Null;
    }
  }

  /** A claim is an object for this node with an index that is not negative, one of the four tiers, and a number as boost. */
  lemma ClaimExactly(j: Json, node: string, gpu: int, c: Candidate)
    ensures ClaimOf(j, node) == Local(gpu, c)
            <==> && j.Obj? && Has(j.fields, "nodeName", Str(node)) && gpu >= 0 && Has(j.fields, "gpuIndex", Int(gpu))
                 && (|| (c.tier.Low? && Has(j.fields, "priorityClass", Str("low")))
                     || (c.tier.Normal? && Has(j.fields, "priorityClass", Str("normal")))
                     || (c.tier.High? && Has(j.fields, "priorityClass", Str("high")))
                     || (c.tier.Critical? && Has(j.fields, "priorityClass", Str("critical"))))
                 && (|| Has(j.fields, "gpuBoostPct", Float(c.boost))
                     || exists n: int :: n as real == c.boost && Has(j.fields, "gpuBoostPct", Int(n)))
  {
    if j.Obj? {
      var tier := Field(j.fields, "priorityClass");
      if tier.Str? {
        NamesExactly(tier.s);
      }
      var boost := Field(j.fields, "gpuBoostPct");
      hide ParseTier;
      assert boost.Int? ==> Has(j.fields, "gpuBoostPct", Int(boost.n));
    }
  }

  /** An element for another node is passed over; one that is neither that nor a claim is invalid. */
  lemma ElsewhereExactly(j: Json, node: string)
    ensures ClaimOf(j, node) == Elsewhere <==> j.Obj? && !Has(j.fields, "nodeName", Str(node))
  {
    hide ParseTier;
  }

  // ----- What a parsed list means -----

  ghost predicate Claimed(items: seq<Json>, node: string, gpu: int, c: Candidate) {
    exists j :: j in items && ClaimOf(j, node) == Local(gpu, c)
  }

  /** `t` is the highest tier the list gives the GPU on this node. */
  ghost predicate HighestTier(items: seq<Json>, node: string, gpu: int, t: Tier) {
    && (exists c :: Claimed(items, node, gpu, c) && c.tier == t)
    && (forall c :: Claimed(items, node, gpu, c) ==> Rank(c.tier) <= Rank(t))
  }

  lemma ClaimedAppend(items: seq<Json>, node: string, gpu: int, c: Candidate)
    requires items != []
    ensures Claimed(items, node, gpu, c)
            <==> Claimed(items[..|items| - 1], node, gpu, c) || ClaimOf(items[|items| - 1], node) == Local(gpu, c)
  {
    hide ClaimOf;
    assert items == items[..|items| - 1] + [items[|items| - 1]];
  }

  lemma NothingClaimed(node: string)
    ensures forall g, c :: !Claimed([], node, g, c)
  {
  }

  /** What is selected for a GPU is claimed and not beaten by any claim. */
  ghost predicate Selects(selected: Selection, items: seq<Json>, node: string) {
    && (forall g :: g in selected ==> Claimed(items, node, g, selected[g]))
    && (forall g, c :: Claimed(items, node, g, c) ==> g in selected && !c.Beats(selected[g]))
  }

  lemma {:induction false} SelectAllSelects(items: seq<Json>, node: string)
    ensures SelectAll(items, node).Some? <==> forall j :: j in items ==> ClaimOf(j, node) != Invalid
    ensures SelectAll(items, node).Some? ==> Selects(SelectAll(items, node).value, items, node)
  {
    hide ClaimOf, Claimed;
    if items == [] {
      NothingClaimed(node);
    } else {
      var init, last := items[..|items| - 1], items[|items| - 1];
      assert items == init + [last];
      SelectAllSelects(init, node);
      if SelectAll(items, node).Some? {
        var before, after := SelectAll(init, node).value, SelectAll(items, node).value;
        forall g | g in after ensures Claimed(items, node, g, after[g]) {
          ClaimedAppend(items, node, g, after[g]);
        }
        forall g, c | Claimed(items, node, g, c) ensures g in after && !c.Beats(after[g]) {
          ClaimedAppend(items, node, g, c);
        }
      }
    }
  }

  /** A payload is accepted exactly when it has the right shape and every element that concerns the node is valid. */
  lemma AcceptedExactly(p: Payload, node: string)
    ensures Parse(p, node).Some?
            <==> AssignmentsIn(p).Some? && forall j :: j in AssignmentsIn(p).value ==> ClaimOf(j, node) != Invalid
  {
    hide ClaimOf, AssignmentsIn, SelectAll;
    if AssignmentsIn(p).Some? {
      SelectAllSelects(AssignmentsIn(p).value, node);
    }
  }

  /** An accepted payload gives each GPU the highest tier any element claims for it, and no tier to the others. */
  lemma HighestTierWins(p: Payload, node: string, gpu: int, t: Tier)
    requires Parse(p, node).Some?
    ensures gpu in Parse(p, node).value && Parse(p, node).value[gpu] == t
            <==> HighestTier(AssignmentsIn(p).value, node, gpu, t)
  {
    hide ClaimOf, AssignmentsIn, SelectAll, Claimed, Rank;
    var items := AssignmentsIn(p).value;
    SelectAllSelects(items, node);
    var selected := SelectAll(items, node).value;
    if gpu in selected {
      assert Claimed(items, node, gpu, selected[gpu]);
      if HighestTier(items, node, gpu, t) {
        var c :| Claimed(items, node, gpu, c) && c.tier == t;
        RankOrdersWeights(c.tier, selected[gpu].tier);
      }
    }
  }

  lemma SameTier(p: Payload, p': Payload, node: string, gpu: int)
    requires AssignmentsIn(p).Some? && AssignmentsIn(p').Some? && Parse(p, node).Some? && Parse(p', node).Some?
    requires forall j :: ClaimOf(j, node) != Elsewhere ==> (j in AssignmentsIn(p).value <==> j in AssignmentsIn(p').value)
    ensures gpu in Parse(p, node).value ==>
              gpu in Parse(p', node).value && Parse(p', node).value[gpu] == Parse(p, node).value[gpu]
  {
    hide ClaimOf, AssignmentsIn, Parse, HighestTier;
    if gpu in Parse(p, node).value {
      var t := Parse(p, node).value[gpu];
      HighestTierWins(p, node, gpu, t);
      SameHighest(AssignmentsIn(p).value, AssignmentsIn(p').value, node, gpu, t);
      HighestTierWins(p', node, gpu, t);
    }
  }

  /** Order and repetition do not matter, and neither do other nodes' assignments. */
  lemma OnlyLocalClaimsMatter(p: Payload, p': Payload, node: string)
    requires AssignmentsIn(p).Some? && AssignmentsIn(p').Some?
    requires forall j :: ClaimOf(j, node) != Elsewhere ==> (j in AssignmentsIn(p).value <==> j in AssignmentsIn(p').value)
    ensures Parse(p, node) == Parse(p', node)
  {
    hide ClaimOf, AssignmentsIn, Parse;
    AcceptedExactly(p, node);
    AcceptedExactly(p', node);
    if Parse(p, node).Some? {
      var tiers, tiers' := Parse(p, node).value, Parse(p', node).value;
      forall g ensures (g in tiers <==> g in tiers') && (g in tiers ==> tiers[g] == tiers'[g]) {
        SameTier(p, p', node, g);
        SameTier(p', p, node, g);
      }
      assert tiers == tiers';
    }
  }

  lemma SameHighest(items: seq<Json>, items': seq<Json>, node: string, gpu: int, t: Tier)
    requires forall j :: ClaimOf(j, node) != Elsewhere ==> (j in items <==> j in items')
    ensures HighestTier(items, node, gpu, t) <==> HighestTier(items', node, gpu, t)
  {
    hide ClaimOf;
    assert forall c :: Claimed(items, node, gpu, c) <==> Claimed(items', node, gpu, c);
  }

  // ----- Polling -----

  datatype Response =
    | Unavailable
    | NotFound
    | Denied
    | Failed
    | Found(version: Option<string>, payload: Payload)

  datatype Source = Source(snapshot: map<int, Tier>, version: Option<string>, reported: bool)

  /** The version shortcut applies only to a version that is there and not empty. */
  predicate SameVersion(a: Option<string>, b: Option<string>) {
    a.Some? && a.value != "" && a == b
  }

  function Overlay(baseline: map<int, Tier>, tiers: map<int, Tier>): map<int, Tier> {
    baseline + tiers
  }

  function AfterPoll(s: Source, baseline: map<int, Tier>, node: string, r: Response): Source {
    match r
    case Unavailable => s.(reported := true)
    case NotFound => Source(baseline, None, s.reported)
    case Denied => s.(reported := true)
    case Failed => s
    case Found(version, payload) =>
      if SameVersion(version, s.version) then s.(reported := false)
      else
        match Parse(payload, node)
        case None => s.(reported := true)
        case Some(tiers) => Source(Overlay(baseline, tiers), version, false)
  }

  class PriorityConfigSource {
    const node: string
    const baseline: map<int, Tier>
    var snapshot: map<int, Tier>
    var version: Option<string>
    var reported: bool

    ghost function Contents(): Source
      reads this
    {
      Source(snapshot, version, reported)
    }

    constructor (node: string, baseline: map<int, Tier>)
      ensures this.node == node && this.baseline == baseline
      ensures Contents() == Source(baseline, None, false)
    {
      this.node, this.baseline, snapshot, version, reported := node, baseline, baseline, None, false;
    }

    method Poll(r: Response) returns (tiers: map<int, Tier>)
      modifies this
      ensures Contents() == AfterPoll(old(Contents()), baseline, node, r) && tiers == snapshot
    {
      match r {
        case Unavailable =>
          if !reported {
            reported := true;
          }
        case NotFound =>
          version, snapshot := None, baseline;
        case Denied =>
          if !reported {
            reported := true;
          }
        case Failed =>
        case Found(found, payload) =>
          if SameVersion(found, version) {
            reported := false;
          } else {
            var parsed := ParsePayload(payload, node);
            if parsed == None {
              if !reported {
                reported := true;
              }
            } else {
              snapshot, version, reported := Overlay(baseline, parsed.value), found, false;
            }
          }
      }
      return snapshot;
    }
  }

  // ----- The poller without the shortcut -----

  /** Always parses what it gets and keeps its snapshot when that fails. */
  function Refreshed(snapshot: map<int, Tier>, baseline: map<int, Tier>, node: string, r: Response): map<int, Tier> {
    match r
    case NotFound => baseline
    case Found(_, payload) =>
      (match Parse(payload, node) case None => snapshot case Some(tiers) => Overlay(baseline, tiers))
    case _ => snapshot
  }

  function PollAll(baseline: map<int, Tier>, node: string, rs: seq<Response>): Source {
    if rs == [] then Source(baseline, None, false)
    else AfterPoll(PollAll(baseline, node, rs[..|rs| - 1]), baseline, node, rs[|rs| - 1])
  }

  function RefreshAll(baseline: map<int, Tier>, node: string, rs: seq<Response>): map<int, Tier> {
    if rs == [] then baseline
    else Refreshed(RefreshAll(baseline, node, rs[..|rs| - 1]), baseline, node, rs[|rs| - 1])
  }

  /** Equal versions come with equal contents. */
  ghost predicate VersionsIdentify(rs: seq<Response>) {
    forall i, j :: 0 <= i < |rs| && 0 <= j < |rs| && rs[i].Found? && rs[j].Found? && SameVersion(rs[i].version, rs[j].version) ==>
      rs[i].payload == rs[j].payload
  }

  /** The remembered version is that of an answer the snapshot was made from. */
  ghost predicate Remembers(s: Source, baseline: map<int, Tier>, node: string, rs: seq<Response>) {
    SameVersion(s.version, s.version) ==>
      exists i ::
        && 0 <= i < |rs| && rs[i].Found? && rs[i].version == s.version && Parse(rs[i].payload, node).Some?
        && s.snapshot == Overlay(baseline, Parse(rs[i].payload, node).value)
  }

  lemma {:induction false} PollRefinesRefresh(baseline: map<int, Tier>, node: string, rs: seq<Response>)
    requires VersionsIdentify(rs)
    ensures PollAll(baseline, node, rs).snapshot == RefreshAll(baseline, node, rs)
    ensures Remembers(PollAll(baseline, node, rs), baseline, node, rs)
  {
    hide Parse;
    if rs == [] {
    } else {
      var init, r := rs[..|rs| - 1], rs[|rs| - 1];
      assert rs == init + [r];
      PollRefinesRefresh(baseline, node, init);
      var s, s' := PollAll(baseline, node, init), PollAll(baseline, node, rs);
      if SameVersion(s.version, s.version) {
        var i :| && 0 <= i < |init| && init[i].Found? && init[i].version == s.version && Parse(init[i].payload, node).Some?
                 && s.snapshot == Overlay(baseline, Parse(init[i].payload, node).value);
        assert rs[i] == init[i];
        assert rs[|init|] == r;
      }
      if s'.version == s.version && s'.snapshot == s.snapshot {
      } else if r.Found? {
        assert rs[|init|].Found?;
      }
    }
  }

  /** With the shortcut or without it, a poller shows the same tiers, as long as versions identify contents. */
  lemma ShortcutIsInvisible(baseline: map<int, Tier>, node: string, rs: seq<Response>)
    requires VersionsIdentify(rs)
    ensures PollAll(baseline, node, rs).snapshot == RefreshAll(baseline, node, rs)
  {
    PollRefinesRefresh(baseline, node, rs);
  }

  /** A version that is missing or empty never lets a poll skip the payload. */
  lemma UnversionedIsParsed(s: Source, baseline: map<int, Tier>, node: string, version: Option<string>, payload: Payload)
    requires version == None || version == Some("")
    ensures AfterPoll(s, baseline, node, Found(version, payload)).snapshot
         == Refreshed(s.snapshot, baseline, node, Found(version, payload))
  {
    hide Parse;
  }

  // ----- The warning -----

  /** The controller is not served, or with something it cannot use. */
  ghost predicate Trouble(r: Response, node: string) {
    r.Unavailable? || r.Denied? || (r.Found? && Parse(r.payload, node) == None)
  }

  /** Trouble, and no usable payload since. */
  ghost predicate InTrouble(rs: seq<Response>, node: string) {
    exists i :: 0 <= i < |rs| && Trouble(rs[i], node) && forall j :: i < j < |rs| ==> !Usable(rs[j], node)
  }

  ghost predicate Usable(r: Response, node: string) {
    r.Found? && Parse(r.payload, node).Some?
  }

  lemma TroubleAppend(rs: seq<Response>, node: string)
    requires rs != []
    ensures InTrouble(rs, node)
            <==> Trouble(rs[|rs| - 1], node) || (InTrouble(rs[..|rs| - 1], node) && !Usable(rs[|rs| - 1], node))
  {
    hide Trouble, Usable;
    var k, init := |rs| - 1, rs[..|rs| - 1];
    if i :| 0 <= i < |init| && Trouble(init[i], node) && forall j :: i < j < |init| ==> !Usable(init[j], node) {
      assert Trouble(rs[i], node);
      forall j | i < j < |init| ensures !Usable(rs[j], node) {
        assert rs[j] == init[j];
      }
    }
    if i :| 0 <= i < |rs| && Trouble(rs[i], node) && forall j :: i < j < |rs| ==> !Usable(rs[j], node) {
      if i < k {
        assert init[i] == rs[i];
        forall j | i < j < |init| ensures !Usable(init[j], node) {
          assert rs[j] == init[j];
        }
      }
    }
  }

  /** The poller counts as having warned exactly while it is in trouble, skipped payloads included. */
  lemma {:induction false} WarnedExactly(baseline: map<int, Tier>, node: string, rs: seq<Response>)
    requires VersionsIdentify(rs)
    ensures PollAll(baseline, node, rs).reported <==> InTrouble(rs, node)
  {
    hide Parse, InTrouble;
    if rs == [] {
      assert !InTrouble([], node) by { NoTroubleYet(node); }
    } else {
      var init, r := rs[..|rs| - 1], rs[|rs| - 1];
      WarnedExactly(baseline, node, init);
      TroubleAppend(rs, node);
      PollRefinesRefresh(baseline, node, init);
      var s := PollAll(baseline, node, init);
      if r.Found? && SameVersion(r.version, s.version) {
        var i :| && 0 <= i < |init| && init[i].Found? && init[i].version == s.version && Parse(init[i].payload, node).Some?
                 && s.snapshot == Overlay(baseline, Parse(init[i].payload, node).value);
        assert rs[i] == init[i] && rs[|init|] == r;
      }
    }
  }

  lemma NoTroubleYet(node: string)
    ensures !InTrouble([], node)
  {
  }

  // ----- After errors -----

  /** A missing object or an empty list gives the baseline; any other error, or a bad payload, changes no tier. */
  lemma LastKnownGood(s: Source, baseline: map<int, Tier>, node: string, r: Response)
    ensures r == NotFound ==> AfterPoll(s, baseline, node, r).snapshot == baseline
    ensures r.Found? && AssignmentsIn(r.payload) == Some([]) && !SameVersion(r.version, s.version) ==>
              AfterPoll(s, baseline, node, r).snapshot == baseline
    ensures r.Unavailable? || r.Denied? || r.Failed? || (r.Found? && Parse(r.payload, node) == None) ==>
              AfterPoll(s, baseline, node, r).snapshot == s.snapshot && AfterPoll(s, baseline, node, r).version == s.version
  {
    hide AssignmentsIn;
    assert Overlay(baseline, map[]) == baseline;
    assert TiersOf(map[]) == map[];
  }
}
