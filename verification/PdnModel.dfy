/** The power-distribution topology: racks and PDUs over power domains, and the budgets adopted at run time. */
module PdnModel {
  import opened Options
  import opened Sums

  datatype PowerDomain = PowerDomain(
    name: string, budget: real, gpus: seq<int>, pdu: string, overhead: real, rack: Option<string>)

  datatype Pdu = Pdu(capacity: real, derating: real) {
    function EffectiveCapacity(): real {
      capacity * derating
    }
  }

  /** The caps proposed for one domain. */
  datatype Proposal = Proposal(gpus: seq<int>, caps: map<int, real>) {
    function Total(): real {
      Sum(gpus, caps)
    }
  }

  /** The static part of the topology; racks are given by their budgets. */
  datatype Pdn = Pdn(
    names: seq<string>, domains: map<string, PowerDomain>, pdus: map<string, Pdu>, racks: map<string, real>) {

    ghost predicate WellFormed() {
      && NoDup(names)
      && (forall n :: n in names <==> n in domains)
      && (forall n :: n in domains ==> domains[n].name == n && domains[n].pdu in pdus)
    }

    function OnPdu(pdu: string): seq<string> {
      Inside(names, set n | n in domains && domains[n].pdu == pdu)
    }

    function OnRack(rack: Option<string>): seq<string> {
      Inside(names, set n | n in domains && domains[n].rack == rack)
    }

    /** An absent or empty rack name means no rack. */
    function RackBudget(name: string): Option<real>
      requires name in domains
    {
      match domains[name].rack
      case None => None
      case Some(r) => if r != "" && r in racks then Some(racks[r]) else None
    }

    function Budgets(): map<string, real> {
      map n | n in domains :: domains[n].budget
    }

    /** A domain's static budget, cut to its share of an overcommitted rack. */
    function RackScaled(name: string): real
      requires name in domains
    {
      var d := domains[name];
      match RackBudget(name)
      case None => d.budget
      case Some(rackBudget) =>
        var total := Sum(OnRack(d.rack), Budgets());
        if total > rackBudget > 0.0 then ProRata(d.budget, rackBudget, total) else d.budget
    }

    function DomainBudget(adopted: map<string, real>, name: string): real
      requires name in domains
    {
      var base := if name in adopted then adopted[name] else RackScaled(name);
      Max(0.0, base - domains[name].overhead)
    }

    function DomainBudgets(adopted: map<string, real>): map<string, real> {
      map n | n in domains :: DomainBudget(adopted, n)
    }

    /** What validation charges each domain: the proposal where it applies, the full budget elsewhere. */
    function Charges(name: string, total: real): map<string, real> {
      map n | n in domains :: if n == name then total + domains[n].overhead else domains[n].budget
    }

    predicate Accepts(adopted: map<string, real>, name: string, proposal: Proposal)
      requires name in domains && domains[name].pdu in pdus
    {
      var d, total := domains[name], proposal.Total();
      && total <= DomainBudget(adopted, name)
      && Sum(OnPdu(d.pdu), Charges(name, total)) <= pdus[d.pdu].EffectiveCapacity()
      && (RackBudget(name).Some? ==> Sum(OnRack(d.rack), Charges(name, total)) <= RackBudget(name).value)
    }

    /** What the proposals really draw, node overhead included. */
    function Loads(proposals: map<string, Proposal>): map<string, real> {
      map n | n in domains && n in proposals :: proposals[n].Total() + domains[n].overhead
    }
  }

  class Topology {
    const pdn: Pdn
    var adopted: map<string, real>

    constructor (pdn: Pdn)
      ensures this.pdn == pdn && adopted == map[]
    {
      this.pdn := pdn;
      adopted := map[];
    }

    method AdoptBudget(name: string, watts: real)
      modifies this
      ensures adopted == old(adopted)[name := watts]
    {
      adopted := adopted[name := watts];
    }

    method ReleaseBudget(name: string)
      modifies this
      ensures adopted == old(adopted) - {name}
    {
      adopted := adopted - {name};
    }

    function DomainBudget(name: string): real
      requires name in pdn.domains
      reads this
    {
      pdn.DomainBudget(adopted, name)
    }

    method ValidateAllocation(name: string, proposal: Proposal) returns (ok: bool)
      requires pdn.WellFormed() && name in pdn.domains
      ensures ok == pdn.Accepts(adopted, name, proposal)
    {
      var domain := pdn.domains[name];
      var proposedTotal := proposal.Total();
      if proposedTotal > DomainBudget(name) {
        return false;
      }
      var pduTotal := ChargeAll(name, proposedTotal, pdn.OnPdu(domain.pdu));
      if pduTotal > pdn.pdus[domain.pdu].EffectiveCapacity() {
        return false;
      }
      var rackBudget := pdn.RackBudget(name);
      if rackBudget.Some? {
        var rackTotal := ChargeAll(name, proposedTotal, pdn.OnRack(domain.rack));
        if rackTotal > rackBudget.value {
          return false;
        }
      }
      return true;
    }

    /** The accumulation loop that the PDU check and the rack check share. */
    method ChargeAll(name: string, proposedTotal: real, peers: seq<string>) returns (total: real)
      requires pdn.WellFormed() && name in pdn.domains
      requires forall n :: n in peers ==> n in pdn.domains
      ensures total == Sum(peers, pdn.Charges(name, proposedTotal))
    {
      total := 0.0;
      for i := 0 to |peers|
        invariant total == Sum(peers[..i], pdn.Charges(name, proposedTotal))
      {
        var d := pdn.domains[peers[i]];
        if d.name == name {
          total := total + (proposedTotal + pdn.domains[name].overhead);
        } else {
          total := total + d.budget;
        }
        assert peers[..i + 1][..i] == peers[..i];
      }
      assert peers[..|peers|] == peers;
    }
  }

  // ----- The numbers behind the checks -----

  /** The domains of a PDU or of a rack, each once. */
  lemma PeersExactly(p: Pdn, pdu: string, rack: Option<string>)
    requires p.WellFormed()
    ensures NoDup(p.OnPdu(pdu)) && forall n :: n in p.OnPdu(pdu) <==> n in p.domains && p.domains[n].pdu == pdu
    ensures NoDup(p.OnRack(rack)) && forall n :: n in p.OnRack(rack) <==> n in p.domains && p.domains[n].rack == rack
  {
  }

  /** The watts a limited rack allows; a rack that is blank or unknown has no limit. */
  ghost predicate RackLimit(p: Pdn, name: string, watts: real)
    requires name in p.domains
  {
    exists r :: p.domains[name].rack == Some(r) && r != "" && r in p.racks && p.racks[r] == watts
  }

  lemma RackLimitExactly(p: Pdn, name: string, watts: real)
    requires name in p.domains
    ensures RackLimit(p, name, watts) <==> p.RackBudget(name) == Some(watts)
  {
  }

  /** What a brain may spend in a domain: the adopted budget, or the static one scaled down where the rack is positive and
      overcommitted, without the overhead and never negative. */
  lemma DomainBudgetExactly(p: Pdn, adopted: map<string, real>, name: string)
    requires name in p.domains
    ensures var d, budget := p.domains[name], p.DomainBudget(adopted, name);
            var asked := Sum(p.OnRack(d.rack), p.Budgets());
            && (name in adopted ==> IsRest(budget, d.overhead, adopted[name], 1.0))
            && (name !in adopted ==>
                  && (forall watts :: RackLimit(p, name, watts) && asked > watts > 0.0 ==>
                        IsRest(budget, d.overhead, d.budget * watts, asked))
                  && ((forall watts :: RackLimit(p, name, watts) ==> !(asked > watts > 0.0)) ==>
                        IsRest(budget, d.overhead, d.budget, 1.0)))
  {
    hide Sum, ProRata, Pdn.OnRack;
    var d, asked := p.domains[name], Sum(p.OnRack(p.domains[name].rack), p.Budgets());
    if name !in adopted && p.RackBudget(name).Some? {
      var watts := p.RackBudget(name).value;
      RackLimitExactly(p, name, watts);
      if asked > watts > 0.0 {
        ProRataProduct(d.budget, watts, asked);
        RestExactly(ProRata(d.budget, watts, asked), d.overhead, d.budget * watts, asked);
      }
    }
    forall watts | RackLimit(p, name, watts) ensures p.RackBudget(name) == Some(watts) {
      RackLimitExactly(p, name, watts);
    }
  }

  /** `part / whole` less the overhead, or nothing. */
  ghost predicate IsRest(rest: real, overhead: real, part: real, whole: real) {
    if part <= overhead * whole then rest == 0.0 else (rest + overhead) * whole == part
  }

  lemma RestExactly(base: real, overhead: real, part: real, whole: real)
    requires whole > 0.0 && base * whole == part
    ensures IsRest(Max(0.0, base - overhead), overhead, part, whole)
  {
    ScaleOrderExactly(base, overhead, whole);
  }

  // ----- Rack cascade -----

  /** The static budgets of a rack's members after scaling. */
  ghost function ScaledBudgets(p: Pdn): map<string, real> {
    map n | n in p.domains :: p.RackScaled(n)
  }

  lemma ScaledBudgetsFit(p: Pdn, rack: string)
    requires rack != "" && rack in p.racks && p.racks[rack] > 0.0
    ensures Sum(p.OnRack(Some(rack)), ScaledBudgets(p)) == Min(Sum(p.OnRack(Some(rack)), p.Budgets()), p.racks[rack])
  {
    hide ProRata;
    var members := p.OnRack(Some(rack));
    var total := Sum(members, p.Budgets());
    if total > p.racks[rack] {
      forall n | n in members ensures At(ScaledBudgets(p), n) == ProRata(At(p.Budgets(), n), p.racks[rack], total) {
        assert p.RackBudget(n) == Some(p.racks[rack]);
      }
      SumProRata(members, p.Budgets(), ScaledBudgets(p), p.racks[rack]);
    } else {
      SumSame(members, ScaledBudgets(p), p.Budgets());
    }
  }

  /** No rack is oversubscribed by the budgets its domains hand to the brains, and an overcommitted rack
      whose nodes have no overhead is used up exactly. */
  lemma RackCascade(p: Pdn, adopted: map<string, real>, rack: string)
    requires rack != "" && rack in p.racks && p.racks[rack] > 0.0
    requires forall n :: n in p.OnRack(Some(rack)) ==>
      n !in adopted && p.domains[n].budget >= 0.0 && p.domains[n].overhead >= 0.0
    ensures Sum(p.OnRack(Some(rack)), p.DomainBudgets(adopted)) <= p.racks[rack]
    ensures Sum(p.OnRack(Some(rack)), p.Budgets()) > p.racks[rack]
            && (forall n :: n in p.OnRack(Some(rack)) ==> p.domains[n].overhead == 0.0)
            ==> Sum(p.OnRack(Some(rack)), p.DomainBudgets(adopted)) == p.racks[rack]
  {
    var members, budgets, scaled := p.OnRack(Some(rack)), p.DomainBudgets(adopted), ScaledBudgets(p);
    ScaledBudgetsFit(p, rack);
    forall n | n in members
      ensures At(budgets, n) <= At(scaled, n)
      ensures p.domains[n].overhead == 0.0 ==> At(budgets, n) == At(scaled, n)
    {
      RackScaledBounds(p, n);
    }
    SumMonotone(members, budgets, scaled);
    if forall n :: n in members ==> p.domains[n].overhead == 0.0 {
      SumSame(members, budgets, scaled);
    }
  }

  lemma RackScaledBounds(p: Pdn, name: string)
    requires name in p.domains && p.domains[name].budget >= 0.0
    ensures 0.0 <= p.RackScaled(name) <= p.domains[name].budget
  {
    hide ProRata;
    var budget := p.domains[name].budget;
    if p.RackBudget(name).Some? {
      var limit, total := p.RackBudget(name).value, Sum(p.OnRack(p.domains[name].rack), p.Budgets());
      if total > limit > 0.0 {
        ProRataBounds(budget, limit, total);
      }
    }
  }

  /** Scaling keeps the proportions between the members of a rack. */
  lemma RackKeepsProportions(p: Pdn, a: string, b: string)
    requires a in p.domains && b in p.domains && p.domains[a].rack == p.domains[b].rack
    ensures p.RackScaled(a) * p.domains[b].budget == p.RackScaled(b) * p.domains[a].budget
  {
    hide ProRata;
    var x, y := p.domains[a].budget, p.domains[b].budget;
    if p.RackBudget(a).Some? {
      var limit, total := p.RackBudget(a).value, Sum(p.OnRack(p.domains[a].rack), p.Budgets());
      if total > limit > 0.0 {
        ProRataExchange(x, y, limit, total);
      }
    }
  }

  // ----- Individually accepted means jointly safe -----

  /** No adopted budget exceeds the static one, and every overhead fits its budget. */
  ghost predicate Tame(p: Pdn, adopted: map<string, real>) {
    forall n :: n in p.domains ==>
      && 0.0 <= p.domains[n].overhead <= p.domains[n].budget
      && (n in adopted ==> adopted[n] <= p.domains[n].budget)
  }

  ghost predicate AllAccepted(p: Pdn, adopted: map<string, real>, proposals: map<string, Proposal>)
    requires p.WellFormed()
  {
    forall n :: n in p.domains ==> n in proposals && p.Accepts(adopted, n, proposals[n])
  }

  /** Each check charges the neighbours their full budget, so proposals accepted one by one fit together. */
  lemma AcceptedTogetherOnPdu(p: Pdn, adopted: map<string, real>, proposals: map<string, Proposal>, pdu: string)
    requires p.WellFormed() && Tame(p, adopted) && AllAccepted(p, adopted, proposals)
    requires p.OnPdu(pdu) != []
    ensures pdu in p.pdus && Sum(p.OnPdu(pdu), p.Loads(proposals)) <= p.pdus[pdu].EffectiveCapacity()
  {
    hide Pdn.DomainBudget, Pdn.Charges, Pdn.Loads, Proposal.Total, Tame, Sum;
    var n := p.OnPdu(pdu)[0];
    assert n in p.OnPdu(pdu);
    assert p.Accepts(adopted, n, proposals[n]);
    LoadsWithinCharges(p, adopted, proposals, n, p.OnPdu(pdu));
  }

  lemma AcceptedTogetherOnRack(p: Pdn, adopted: map<string, real>, proposals: map<string, Proposal>, rack: string)
    requires p.WellFormed() && Tame(p, adopted) && AllAccepted(p, adopted, proposals)
    requires rack != "" && rack in p.racks && p.OnRack(Some(rack)) != []
    ensures Sum(p.OnRack(Some(rack)), p.Loads(proposals)) <= p.racks[rack]
  {
    hide Pdn.DomainBudget, Pdn.Charges, Pdn.Loads, Proposal.Total, Tame, Sum;
    var n := p.OnRack(Some(rack))[0];
    assert n in p.OnRack(Some(rack));
    assert p.Accepts(adopted, n, proposals[n]);
    LoadsWithinCharges(p, adopted, proposals, n, p.OnRack(Some(rack)));
  }

  lemma AcceptedWithinBudget(p: Pdn, adopted: map<string, real>, name: string, proposal: Proposal)
    requires p.WellFormed() && Tame(p, adopted) && name in p.domains && p.Accepts(adopted, name, proposal)
    ensures proposal.Total() + p.domains[name].overhead <= p.domains[name].budget
  {
    hide Pdn.RackScaled, Pdn.RackBudget, Pdn.Charges, Proposal.Total, Sum;
    RackScaledBounds(p, name);
  }

  lemma LoadsWithinCharges(p: Pdn, adopted: map<string, real>, proposals: map<string, Proposal>, name: string,
      peers: seq<string>)
    requires p.WellFormed() && Tame(p, adopted) && AllAccepted(p, adopted, proposals)
    requires name in p.domains && forall n :: n in peers ==> n in p.domains
    ensures Sum(peers, p.Loads(proposals)) <= Sum(peers, p.Charges(name, proposals[name].Total()))
  {
    hide Pdn.Accepts, Proposal.Total, Sum, Tame;
    forall n | n in peers
      ensures At(p.Loads(proposals), n) <= At(p.Charges(name, proposals[name].Total()), n)
    {
      AcceptedWithinBudget(p, adopted, n, proposals[n]);
    }
    SumMonotone(peers, p.Loads(proposals), p.Charges(name, proposals[name].Total()));
  }

  /** Lowering caps never turns an accepted proposal into a rejected one. */
  lemma AcceptanceSurvivesLowering(p: Pdn, adopted: map<string, real>, name: string, proposal: Proposal,
      lowered: Proposal)
    requires p.WellFormed() && name in p.domains && p.Accepts(adopted, name, proposal)
    requires lowered.gpus == proposal.gpus
    requires forall g :: g in proposal.gpus ==> At(lowered.caps, g) <= At(proposal.caps, g)
    ensures p.Accepts(adopted, name, lowered)
  {
    hide ProRata;
    forall g | g in proposal.gpus ensures At(lowered.caps, g) <= At(proposal.caps, g) {
    }
    SumMonotone(proposal.gpus, lowered.caps, proposal.caps);
    var before, after := p.Charges(name, proposal.Total()), p.Charges(name, lowered.Total());
    SumMonotone(p.OnPdu(p.domains[name].pdu), after, before);
    SumMonotone(p.OnRack(p.domains[name].rack), after, before);
  }

  // ----- Exactly when the checks compose -----

  /** The room the others leave a domain under a limit that its peers share. */
  function RoomFor(p: Pdn, name: string, peers: seq<string>, limit: real): real {
    limit - Sum(peers, p.Charges(name, 0.0))
  }

  /** The largest total that validation accepts for the domain. */
  function LargestAccepted(p: Pdn, adopted: map<string, real>, name: string): real
    requires name in p.domains && p.domains[name].pdu in p.pdus
  {
    var d := p.domains[name];
    var byPdu := Min(p.DomainBudget(adopted, name), RoomFor(p, name, p.OnPdu(d.pdu), p.pdus[d.pdu].EffectiveCapacity()));
    match p.RackBudget(name)
    case None => byPdu
    case Some(rackBudget) => Min(byPdu, RoomFor(p, name, p.OnRack(d.rack), rackBudget))
  }

  lemma ChargesGrow(p: Pdn, name: string, total: real, peers: seq<string>)
    requires name in p.domains && NoDup(peers) && name in peers && forall n :: n in peers ==> n in p.domains
    ensures Sum(peers, p.Charges(name, total)) == Sum(peers, p.Charges(name, 0.0)) + total
  {
    hide Sum;
    var before, after := p.Charges(name, 0.0), p.Charges(name, total);
    forall n | n in peers && n != name ensures At(before, n) == At(after, n) {
    }
    SumChangeOne(peers, name, before, after);
  }

  /** The room under a limit: what the overhead and the others' full budgets leave. */
  lemma RoomExactly(p: Pdn, name: string, peers: seq<string>, limit: real)
    requires name in p.domains && NoDup(peers) && name in peers && forall n :: n in peers ==> n in p.domains
    ensures RoomFor(p, name, peers, limit)
         == limit - p.domains[name].overhead - (Sum(peers, p.Budgets()) - p.domains[name].budget)
  {
    hide Sum;
    forall n | n in peers && n != name ensures At(p.Budgets(), n) == At(p.Charges(name, 0.0), n) {
    }
    SumChangeOne(peers, name, p.Budgets(), p.Charges(name, 0.0));
  }

  lemma AcceptsUpTo(p: Pdn, adopted: map<string, real>, name: string, proposal: Proposal)
    requires p.WellFormed() && name in p.domains
    ensures p.Accepts(adopted, name, proposal) <==> proposal.Total() <= LargestAccepted(p, adopted, name)
  {
    hide Pdn.DomainBudget, Pdn.Charges, Proposal.Total, Sum, Pdu.EffectiveCapacity;
    var d := p.domains[name];
    ChargesGrow(p, name, proposal.Total(), p.OnPdu(d.pdu));
    ChargesGrow(p, name, proposal.Total(), p.OnRack(d.rack));
  }

  /** A proposal is accepted exactly when it fits the domain's budget and, with the overhead and the others' full budgets,
      the derated PDU and a limited rack. */
  lemma AcceptsExactly(p: Pdn, adopted: map<string, real>, name: string, proposal: Proposal)
    requires p.WellFormed() && name in p.domains
    ensures var d, total := p.domains[name], Sum(proposal.gpus, proposal.caps);
            p.Accepts(adopted, name, proposal)
            <==> && total <= p.DomainBudget(adopted, name)
                 && total + d.overhead + (Sum(p.OnPdu(d.pdu), p.Budgets()) - d.budget)
                    <= p.pdus[d.pdu].capacity * p.pdus[d.pdu].derating
                 && forall watts :: RackLimit(p, name, watts) ==>
                      total + d.overhead + (Sum(p.OnRack(d.rack), p.Budgets()) - d.budget) <= watts
  {
    var d := p.domains[name];
    assert proposal.Total() == Sum(proposal.gpus, proposal.caps);
    assert p.pdus[d.pdu].EffectiveCapacity() == p.pdus[d.pdu].capacity * p.pdus[d.pdu].derating;
    hide Pdn.DomainBudget, Pdn.Charges, Proposal.Total, Sum, Pdu.EffectiveCapacity, RoomFor, Pdn.RackBudget, RackLimit, Pdn.Accepts;
    AcceptsUpTo(p, adopted, name, proposal);
    PeersExactly(p, d.pdu, d.rack);
    hide Pdn.OnPdu, Pdn.OnRack;
    RoomExactly(p, name, p.OnPdu(d.pdu), p.pdus[d.pdu].EffectiveCapacity());
    if p.RackBudget(name).Some? {
      RoomExactly(p, name, p.OnRack(d.rack), p.RackBudget(name).value);
      RackLimitExactly(p, name, p.RackBudget(name).value);
    }
    forall watts ensures RackLimit(p, name, watts) <==> p.RackBudget(name) == Some(watts) {
      RackLimitExactly(p, name, watts);
    }
  }

  /** The most the domains can draw on proposals that were all accepted. */
  ghost function LargestLoads(p: Pdn, adopted: map<string, real>): map<string, real>
    requires p.WellFormed()
  {
    map n | n in p.domains :: LargestAccepted(p, adopted, n) + p.domains[n].overhead
  }

  /** The peers' proposals have no negative caps and were accepted one by one. */
  ghost predicate PeersAccepted(p: Pdn, adopted: map<string, real>, peers: seq<string>, proposals: map<string, Proposal>)
    requires p.WellFormed() && forall n :: n in peers ==> n in p.domains
  {
    forall n :: n in peers ==>
      && n in proposals && p.Accepts(adopted, n, proposals[n])
      && forall g :: g in proposals[n].gpus ==> At(proposals[n].caps, g) >= 0.0
  }

  /** Whatever the peers propose and have accepted one by one, their loads together fit the limit. */
  ghost predicate Composes(p: Pdn, adopted: map<string, real>, peers: seq<string>, limit: real)
    requires p.WellFormed() && forall n :: n in peers ==> n in p.domains
  {
    forall proposals :: PeersAccepted(p, adopted, peers, proposals) ==> Sum(peers, p.Loads(proposals)) <= limit
  }

  /** Some peer cannot have any caps accepted. */
  ghost predicate Blocked(p: Pdn, adopted: map<string, real>, peers: seq<string>)
    requires p.WellFormed() && forall n :: n in peers ==> n in p.domains
  {
    exists n :: n in peers && LargestAccepted(p, adopted, n) < 0.0
  }

  lemma TotalNonNegative(proposal: Proposal)
    requires forall g :: g in proposal.gpus ==> At(proposal.caps, g) >= 0.0
    ensures proposal.Total() >= 0.0
  {
    hide Sum;
    forall g | g in proposal.gpus ensures At(proposal.caps, g) >= 0.0 {
    }
    SumNonNegative(proposal.gpus, proposal.caps);
  }

  lemma AcceptedBelowLargest(p: Pdn, adopted: map<string, real>, peers: seq<string>, proposals: map<string, Proposal>)
    requires p.WellFormed() && forall n :: n in peers ==> n in p.domains
    requires PeersAccepted(p, adopted, peers, proposals)
    ensures Sum(peers, p.Loads(proposals)) <= Sum(peers, LargestLoads(p, adopted))
    ensures !Blocked(p, adopted, peers)
  {
    hide LargestAccepted, Pdn.Accepts, Proposal.Total, Sum;
    forall n | n in peers
      ensures At(p.Loads(proposals), n) <= At(LargestLoads(p, adopted), n) && LargestAccepted(p, adopted, n) >= 0.0
    {
      AcceptsUpTo(p, adopted, n, proposals[n]);
      TotalNonNegative(proposals[n]);
    }
    SumMonotone(peers, p.Loads(proposals), LargestLoads(p, adopted));
  }

  /** Every domain proposes, on one GPU, the most it can. */
  ghost function LargestProposals(p: Pdn, adopted: map<string, real>): map<string, Proposal>
    requires p.WellFormed()
  {
    map n | n in p.domains :: Proposal([0], map[0 := LargestAccepted(p, adopted, n)])
  }

  lemma LoneCapTotal(watts: real)
    ensures Proposal([0], map[0 := watts]).Total() == watts
  {
    SumOne(0, map[0 := watts]);
  }

  lemma LargestAreAccepted(p: Pdn, adopted: map<string, real>, peers: seq<string>)
    requires p.WellFormed() && (forall n :: n in peers ==> n in p.domains) && !Blocked(p, adopted, peers)
    ensures PeersAccepted(p, adopted, peers, LargestProposals(p, adopted))
    ensures Sum(peers, p.Loads(LargestProposals(p, adopted))) == Sum(peers, LargestLoads(p, adopted))
  {
    hide LargestAccepted, Pdn.Accepts, Proposal.Total, Sum;
    var largest := LargestProposals(p, adopted);
    forall n | n in peers
      ensures p.Accepts(adopted, n, largest[n]) && largest[n].Total() == LargestAccepted(p, adopted, n)
    {
      LoneCapTotal(LargestAccepted(p, adopted, n));
      AcceptsUpTo(p, adopted, n, largest[n]);
    }
    forall n | n in peers ensures At(p.Loads(largest), n) == At(LargestLoads(p, adopted), n) {
    }
    SumSame(peers, p.Loads(largest), LargestLoads(p, adopted));
  }

  /** The checks compose under a limit exactly when the largest acceptable loads fit it, or nothing can be accepted. */
  lemma ComposesExactly(p: Pdn, adopted: map<string, real>, peers: seq<string>, limit: real)
    requires p.WellFormed() && forall n :: n in peers ==> n in p.domains
    ensures Composes(p, adopted, peers, limit)
            <==> Blocked(p, adopted, peers) || Sum(peers, LargestLoads(p, adopted)) <= limit
  {
    hide LargestAccepted, LargestProposals, LargestLoads, PeersAccepted, Blocked, Sum, Pdn.Loads;
    if !Blocked(p, adopted, peers) {
      LargestAreAccepted(p, adopted, peers);
    }
    forall proposals | PeersAccepted(p, adopted, peers, proposals)
      ensures Sum(peers, p.Loads(proposals)) <= Sum(peers, LargestLoads(p, adopted)) && !Blocked(p, adopted, peers)
    {
      AcceptedBelowLargest(p, adopted, peers, proposals);
    }
  }

  /** Individually accepted means jointly safe, for whatever budgets are adopted, exactly under these two conditions. */
  lemma ComposesOnPduExactly(p: Pdn, adopted: map<string, real>, pdu: string)
    requires p.WellFormed() && pdu in p.pdus
    ensures Composes(p, adopted, p.OnPdu(pdu), p.pdus[pdu].EffectiveCapacity())
            <==> Blocked(p, adopted, p.OnPdu(pdu)) || Sum(p.OnPdu(pdu), LargestLoads(p, adopted)) <= p.pdus[pdu].EffectiveCapacity()
  {
    hide Composes, Blocked, LargestLoads, Sum;
    ComposesExactly(p, adopted, p.OnPdu(pdu), p.pdus[pdu].EffectiveCapacity());
  }

  lemma ComposesOnRackExactly(p: Pdn, adopted: map<string, real>, rack: string)
    requires p.WellFormed() && rack in p.racks
    ensures Composes(p, adopted, p.OnRack(Some(rack)), p.racks[rack])
            <==> Blocked(p, adopted, p.OnRack(Some(rack))) || Sum(p.OnRack(Some(rack)), LargestLoads(p, adopted)) <= p.racks[rack]
  {
    hide Composes, Blocked, LargestLoads, Sum;
    ComposesExactly(p, adopted, p.OnRack(Some(rack)), p.racks[rack]);
  }

  /** Two domains with 10 W each on one PDU. */
  ghost predicate SharePdu(p: Pdn, a: string, b: string, pdu: string) {
    && a != b && p.names == [a, b]
    && p.domains == map[a := PowerDomain(a, 10.0, [0], pdu, 0.0, None), b := PowerDomain(b, 10.0, [1], pdu, 0.0, None)]
    && pdu in p.pdus && p.pdus[pdu].EffectiveCapacity() == 30.0
  }

  lemma SharedPduSum(p: Pdn, a: string, b: string, pdu: string, m: map<string, real>)
    requires SharePdu(p, a, b, pdu)
    ensures Sum(p.OnPdu(pdu), m) == At(m, a) + At(m, b)
  {
    var members := set n | n in p.domains && p.domains[n].pdu == pdu;
    assert [a, b][..1] == [a] && [a][..0] == [];
    assert Inside([a], members) == [a];
    assert p.OnPdu(pdu) == [a, b];
    assert Sum([a], m) == At(m, a);
  }

  /** An adopted budget can break it: both domains adopt 20 W,
      both 20 W proposals are accepted, and together they draw 40 W through a 30 W PDU. */
  lemma AdoptionCanBreakJointSafety(p: Pdn, a: string, b: string, pdu: string, proposals: map<string, Proposal>)
    requires SharePdu(p, a, b, pdu)
    requires proposals.Keys == {a, b} && proposals[a].Total() == proposals[b].Total() == 20.0
    ensures p.WellFormed() && AllAccepted(p, map[a := 20.0, b := 20.0], proposals)
    ensures Sum(p.OnPdu(pdu), p.Loads(proposals)) == 40.0 > p.pdus[pdu].EffectiveCapacity()
  {
    hide Pdn.OnPdu, Pdn.OnRack, ProRata, Sum;
    var adopted := map[a := 20.0, b := 20.0];
    SharedPduSum(p, a, b, pdu, p.Charges(a, 20.0));
    SharedPduSum(p, a, b, pdu, p.Charges(b, 20.0));
    SharedPduSum(p, a, b, pdu, p.Loads(proposals));
    assert p.domains[a].rack == None && p.domains[b].rack == None;
    assert p.DomainBudget(adopted, a) == p.DomainBudget(adopted, b) == 20.0;
  }
}
