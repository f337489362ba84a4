/** What the controller tells the brain of each GPU, from either telemetry, and what a tick leaves alone. */
module Telemetry {
  import opened Options
  import opened Sums
  import opened PdnModel
  import opened Prs
  import opened Controller
  import Sim

  /** The brain is told of the domain's GPUs that the telemetry has, in the domain's order, and of each the draw, the cap
      and the maximum. */
  lemma TellsOfSeen(s: Setup, n: Node, domain: string, sample: Sample)
    requires s.Fits(n.fleet.Keys) && domain in s.managed
    ensures var st, gpus := TickFor(s, n, domain, sample).st, s.pdn.domains[domain].gpus;
            && (s.ReadsActuator() ==> st.gpus == gpus)
            && (!s.ReadsActuator() ==> st.gpus == Inside(gpus, sample.Keys))
            && (forall g :: g in st.draws <==> g in st.gpus) && st.draws.Keys == st.caps.Keys == st.maxCaps.Keys
            && (forall g :: g in st.throttled ==> g in st.gpus)
  {
    hide Sim.DrawAt, Pdn.DomainBudget, Quotient;
    var st := TickFor(s, n, domain, sample).st;
    ObservedIsValid(s, s.pdn.DomainBudget(n.adopted, domain), s.pdn.domains[domain].gpus, n.fleet, sample);
    assert forall g :: g in st.caps.Keys <==> g in st.draws.Keys;
    assert forall g :: g in st.maxCaps.Keys <==> g in st.draws.Keys;
  }

  /** The GPU's equal part of the domain budget, which stands in for a reading that is missing. */
  ghost function EqualShare(s: Setup, n: Node, domain: string): real
    requires domain in s.pdn.domains && s.pdn.domains[domain].gpus != []
  {
    s.pdn.DomainBudget(n.adopted, domain) / |s.pdn.domains[domain].gpus| as real
  }

  lemma ShareIsFallback(s: Setup, n: Node, domain: string)
    requires domain in s.pdn.domains && s.pdn.domains[domain].gpus != []
    ensures Quotient(s.pdn.DomainBudget(n.adopted, domain), |s.pdn.domains[domain].gpus|) == EqualShare(s, n, domain)
  {
  }

  lemma Listed(m: map<int, real>, gpus: seq<int>, g: int)
    requires g in gpus && g in m
    ensures g in Restrict(m, gpus) && Restrict(m, gpus)[g] == m[g]
  {
  }

  /** From the actuator: 85 percent of the cap times the utilisation, over 50 W idle, but no more than the cap. */
  lemma ActuatorReads(s: Setup, n: Node, domain: string, sample: Sample, g: int)
    requires s.Fits(n.fleet.Keys) && domain in s.managed && s.ReadsActuator() && g in s.pdn.domains[domain].gpus
    ensures var st, gpu := TickFor(s, n, domain, sample).st, n.fleet[g];
            var working := 0.85 * gpu.cap * gpu.util / 100.0 + 50.0;
            && g in st.draws && st.draws[g] == (if working <= gpu.cap then working else gpu.cap)
            && g in st.caps && st.caps[g] == gpu.cap
            && g in st.maxCaps && st.maxCaps[g] == (if s.knowsMaxima then gpu.maxCap else EqualShare(s, n, domain))
            && (g in st.throttled <==> g in s.throttled)
  {
    var fleet, fallback := n.fleet, Quotient(s.pdn.DomainBudget(n.adopted, domain), |s.pdn.domains[domain].gpus|);
    ShareIsFallback(s, n, domain);
    hide Quotient, Pdn.DomainBudget, Restrict, EqualShare;
    Listed(DrawsOf(fleet), s.pdn.domains[domain].gpus, g);
    Listed(CapsOf(fleet), s.pdn.domains[domain].gpus, g);
    Listed(MaxCapsOf(fleet, s.knowsMaxima, fallback), s.pdn.domains[domain].gpus, g);
  }

  /** From Prometheus: what the sample has, no draw where it has none, and an equal part of the budget for a missing limit
      or maximum; throttled by configuration or by temperature. */
  lemma SampleReads(s: Setup, n: Node, domain: string, sample: Sample, g: int)
    requires s.Fits(n.fleet.Keys) && domain in s.managed && !s.ReadsActuator() && g in s.pdn.domains[domain].gpus && g in sample
    ensures var st, gpu := TickFor(s, n, domain, sample).st, sample[g];
            && g in st.draws && st.draws[g] == (match gpu.draw case Some(watts) => watts case None => 0.0)
            && g in st.caps && st.caps[g] == (match gpu.limit case Some(watts) => watts case None => EqualShare(s, n, domain))
            && g in st.maxCaps
            && st.maxCaps[g] == (match gpu.maxLimit case Some(watts) => watts case None => EqualShare(s, n, domain))
            && (g in st.throttled
                <==> g in s.throttled || (gpu.temperature.Some? && gpu.temperature.value >= s.throttleTemperature))
  {
    var fallback := Quotient(s.pdn.DomainBudget(n.adopted, domain), |s.pdn.domains[domain].gpus|);
    ShareIsFallback(s, n, domain);
    hide Quotient, Pdn.DomainBudget, Restrict, EqualShare, Sim.DrawAt;
    Listed(SampleDraws(sample), s.pdn.domains[domain].gpus, g);
    Listed(SampleCaps(sample, fallback), s.pdn.domains[domain].gpus, g);
    Listed(SampleMaxCaps(sample, fallback), s.pdn.domains[domain].gpus, g);
  }

  /** One GPU at 700 W and ten percent utilisation. */
  ghost function QuietNode(): (Setup, Node) {
    var pdn := Pdn(["d"], map["d" := PowerDomain("d", 700.0, [0], "pdu", 0.0, None)], map["pdu" := Pdu(700.0, 1.0)], map[]);
    (Setup(pdn, ["d"], PrsConfig(200.0, 0.3, 0.6, 0.3, 0.0), {}, 85.0, 100.0, false, true, false, true, false),
     Node(map[], map[], map[0 := Sim.GpuView(700.0, 10.0, 700.0)], []))
  }

  /** It is read as drawing 109.5 W. */
  lemma QuietNodeReads()
    ensures var (s, n) := QuietNode();
            var st := TickFor(s, n, "d", map[]).st;
            0 in st.draws && st.draws[0] == 109.5
  {
    var (s, n) := QuietNode();
    ActuatorReads(s, n, "d", map[], 0);
  }

  // ----- Budgets -----

  /** An offer that reaches the minimum is adopted; any other, or none, takes the domain back to its own budget. Without a
      store nothing changes, and no other domain is affected. */
  lemma OfferExactly(s: Setup, n: Node, domain: string, offer: Option<real>)
    ensures var after := WithOffer(s, n, domain, offer);
            && after == n.(adopted := after.adopted)
            && (s.usesStore && offer.Some? && offer.value >= s.adoptedMin ==> after.adopted == n.adopted[domain := offer.value])
            && (s.usesStore && !(offer.Some? && offer.value >= s.adoptedMin) ==> after.adopted == n.adopted - {domain})
            && (!s.usesStore ==> after.adopted == n.adopted)
  {
  }

  // ----- What a tick leaves alone -----

  /** Some of the first `k` managed domains list the GPU. */
  ghost predicate Managed(s: Setup, g: int, k: nat)
    requires k <= |s.managed| && forall d :: d in s.managed ==> d in s.pdn.domains
  {
    exists i :: 0 <= i < k && g in s.pdn.domains[s.managed[i]].gpus
  }

  lemma {:induction false} DomainsLeaveAlone(s: Setup, kind: Kind, w: World, n: Node, k: nat, g: int)
    requires s.Fits(n.fleet.Keys) && k <= |s.managed| && g in n.fleet && (s.dryRun || !Managed(s, g, k))
    ensures TickDomains(s, kind, w, n, k).fleet[g] == n.fleet[g]
  {
    hide Decide, TickFor, Adoption, World.Offer, Sim.Enforced, PrsConfig.Valid;
    if k == 0 {
    } else {
      assert s.dryRun || (g !in s.pdn.domains[s.managed[k - 1]].gpus && !Managed(s, g, k - 1));
      DomainsLeaveAlone(s, kind, w, n, k - 1, g);
    }
  }

  /** A dry run changes no cap, and a tick no cap of a GPU outside the managed domains; the simulator only moves
      utilisation, and only in simulation. */
  lemma TickLeavesAlone(s: Setup, kind: Kind, w: World, n: Node, g: int)
    requires s.Fits(n.fleet.Keys) && g in n.fleet && (s.dryRun || !Managed(s, g, |s.managed|))
    ensures RunTick(s, kind, w, n).fleet[g]
         == n.fleet[g].(util := if s.simMode && g in w.utilisation then w.utilisation[g] else n.fleet[g].util)
  {
    hide TickDomains, PrsConfig.Valid;
    DomainsLeaveAlone(s, kind, w, n.(decided := []), |s.managed|, g);
  }

  lemma {:induction false} DomainsForget(s: Setup, kind: Kind, w: World, n: Node, k: nat, d: string)
    requires s.Fits(n.fleet.Keys) && k <= |s.managed| && d !in s.managed[..k]
    ensures var after := TickDomains(s, kind, w, n, k);
            && (d in after.memory <==> d in n.memory) && (d in n.memory ==> after.memory[d] == n.memory[d])
            && (d in after.adopted <==> d in n.adopted) && (d in n.adopted ==> after.adopted[d] == n.adopted[d])
  {
    hide Decide, TickFor, World.Offer, Pushed, PrsConfig.Valid;
    if k == 0 {
    } else {
      assert s.managed[..k] == s.managed[..k - 1] + [s.managed[k - 1]];
      DomainsForget(s, kind, w, n, k - 1, d);
    }
  }

  lemma OneMoreDecision(s: Setup, kind: Kind, n: Node, domain: string, offer: Option<real>, sample: Sample)
    requires domain in s.pdn.domains
    ensures TickDomain(s, kind, n, domain, offer, sample).decided
         == n.decided + [Decide(kind, TickFor(s, WithOffer(s, n, domain, offer), domain, sample)).caps]
  {
    hide Decide, TickFor, Pushed, Adoption;
  }

  /** One decision for each managed domain, in order, each made with the offer adopted and the hardware as the domains
      before it left it. */
  lemma {:induction false} EachDomainDecides(s: Setup, kind: Kind, w: World, n: Node, k: nat, i: nat)
    requires s.Fits(n.fleet.Keys) && i < k <= |s.managed| && n.decided == []
    ensures |TickDomains(s, kind, w, n, k).decided| == k
    ensures var found := WithOffer(s, TickDomains(s, kind, w, n, i), s.managed[i], w.Offer(s.managed[i]));
            TickDomains(s, kind, w, n, k).decided[i] == Decide(kind, TickFor(s, found, s.managed[i], w.sample)).caps
  {
    hide Decide, TickFor, TickDomain, World.Offer, PrsConfig.Valid, WithOffer;
    var domain := s.managed[k - 1];
    OneMoreDecision(s, kind, TickDomains(s, kind, w, n, k - 1), domain, w.Offer(domain), w.sample);
    if k > 1 {
      EachDomainDecides(s, kind, w, n, k - 1, if i < k - 1 then i else 0);
    }
  }
}
