/** The whole cascade: cluster budget to node budgets to domain budgets to the caps the hardware enforces. */
module Cascade {
  import opened Options
  import opened Sums
  import opened PdnModel
  import opened Prs
  import opened Thermal
  import opened Coordinator
  import opened Controller
  import opened BrainBudgets
  import PrsBudget
  import Sim

  // ----- What a tick does to the hardware -----

  /** A node with one domain, and the inputs of one control tick. */
  datatype Site = Site(setup: Setup, kind: Kind, node: Node, sample: Sample, utilisation: map<int, real>) {
    ghost predicate Valid(domain: string) {
      setup.managed == [domain] && !setup.dryRun && setup.Fits(node.fleet.Keys)
    }

    function Domain(domain: string): PowerDomain
      requires domain in setup.pdn.domains
    {
      setup.pdn.domains[domain]
    }

    /** The domain's GPUs that a Prometheus sample leaves out; an actuator leaves out none. */
    function Unseen(domain: string): seq<int>
      requires domain in setup.pdn.domains
    {
      if setup.ReadsActuator() then [] else Outside(setup.pdn.domains[domain].gpus, sample.Keys)
    }

    /** What the brain is asked, once the offered budget is adopted or refused. */
    function Asked(domain: string, offer: Option<real>): Tick
      requires domain in setup.pdn.domains
    {
      TickFor(setup, WithOffer(setup, node, domain, offer), domain, sample)
    }

    function After(offers: map<string, real>): Node
      requires setup.Fits(node.fleet.Keys)
    {
      RunTick(setup, kind, World(offers, sample, utilisation), node)
    }

    function Offered(offers: map<string, real>, domain: string): Option<real> {
      World(offers, sample, utilisation).Offer(domain)
    }
  }

  /** The brain is asked about the GPUs that are seen, and no others. */
  lemma AskedAboutSeen(site: Site, domain: string, offer: Option<real>)
    requires site.Valid(domain)
    ensures site.Asked(domain, offer).Valid()
    ensures site.Asked(domain, offer).st.gpus
         == if site.setup.ReadsActuator() then site.Domain(domain).gpus else Inside(site.Domain(domain).gpus, site.sample.Keys)
  {
    hide Pdn.DomainBudget, Adoption, Restrict, SampleDraws, SampleCaps, SampleMaxCaps, DrawsOf, CapsOf, MaxCapsOf, Quotient;
    var budget := site.setup.pdn.DomainBudget(WithOffer(site.setup, site.node, domain, offer).adopted, domain);
    ObservedIsValid(site.setup, budget, site.Domain(domain).gpus, site.node.fleet, site.sample);
  }

  lemma OneDomain(site: Site, domain: string, w: World)
    requires site.setup.Fits(site.node.fleet.Keys) && site.setup.managed == [domain]
    ensures TickDomains(site.setup, site.kind, w, site.node.(decided := []), 1)
         == TickDomain(site.setup, site.kind, site.node.(decided := []), domain, w.Offer(domain), w.sample)
  {
    hide TickDomain;
  }

  /** After a tick the hardware enforces what the brain decided for the GPUs it saw; an unseen GPU keeps its cap. */
  lemma TickEnforces(site: Site, domain: string, offers: map<string, real>, g: int)
    requires site.Valid(domain) && g in site.Domain(domain).gpus
    ensures var t := site.Asked(domain, site.Offered(offers, domain));
            && g in site.After(offers).fleet
            && (g in Decide(site.kind, t).caps <==> g in t.st.gpus) && (g in t.st.gpus <==> g !in site.Unseen(domain))
            && site.After(offers).fleet[g].cap ==
               if g in site.Unseen(domain) then site.node.fleet[g].cap
               else Sim.Enforced(Decide(site.kind, t).caps[g], site.node.fleet[g].maxCap)
  {
    hide Decide, Sim.Enforced, Pdn.DomainBudget, Adoption, TickDomains, Observed;
    AskedAboutSeen(site, domain, site.Offered(offers, domain));
    DecisionCovers(site.kind, site.Asked(domain, site.Offered(offers, domain)), g);
    OneDomain(site, domain, World(offers, site.sample, site.utilisation));
  }

  lemma TickAdopts(site: Site, domain: string, offers: map<string, real>)
    requires site.Valid(domain) && site.setup.usesStore
    ensures site.After(offers).adopted
         == Adoption(site.node.adopted, domain, site.Offered(offers, domain), site.setup.adoptedMin)
  {
    hide Decide, Pushed, TickFor, Adoption, TickDomains;
    OneDomain(site, domain, World(offers, site.sample, site.utilisation));
  }

  // ----- Physical watts -----

  ghost predicate PhysicalFleet(fleet: Sim.FleetView) {
    forall g :: g in fleet ==> fleet[g].cap >= 0.0 && fleet[g].maxCap >= 0.0 && fleet[g].util >= 0.0
  }

  ghost predicate PhysicalReading(x: Option<real>) {
    x.GetOr(0.0) >= 0.0
  }

  ghost predicate PhysicalSample(sample: Sample) {
    forall g :: g in sample ==>
      PhysicalReading(sample[g].draw) && PhysicalReading(sample[g].limit) && PhysicalReading(sample[g].maxLimit)
  }

  ghost predicate PhysicalNode(n: Node) {
    PhysicalFleet(n.fleet) && forall d :: d in n.memory ==> NonNegative(n.memory[d].lastCaps)
  }

  ghost predicate PhysicalSetup(s: Setup, kind: Kind) {
    s.cfg.Valid() && s.cfg.minCap >= 0.0 && Sensible(kind)
  }

  ghost predicate PhysicalWorld(w: World) {
    PhysicalSample(w.sample) && NonNegative(w.utilisation)
  }

  lemma DrawNonNegative(cap: real, util: real)
    requires cap >= 0.0 && util >= 0.0
    ensures Sim.DrawAt(cap, util) >= 0.0
  {
    assert cap * (util / 100.0) >= 0.0;
  }

  lemma EnforcedPhysical(watts: real, maxCap: real)
    requires maxCap >= 0.0
    ensures Sim.Enforced(watts, maxCap) >= 0.0
    ensures watts >= 0.0 ==> Sim.Enforced(watts, maxCap) <= watts
  {
  }

  lemma FleetReadsPhysical(fleet: Sim.FleetView, known: bool, fallback: real)
    requires PhysicalFleet(fleet)
    ensures NonNegative(DrawsOf(fleet)) && NonNegative(CapsOf(fleet))
    ensures fallback >= 0.0 ==> NonNegative(MaxCapsOf(fleet, known, fallback))
  {
    hide Sim.DrawAt;
    forall g | g in fleet ensures fleet[g].Draw() >= 0.0 {
      DrawNonNegative(fleet[g].cap, fleet[g].util);
    }
  }

  lemma RestrictPhysical(m: map<int, real>, gpus: seq<int>)
    requires NonNegative(m)
    ensures NonNegative(Restrict(m, gpus))
  {
  }

  lemma ObservedPhysical(s: Setup, budget: real, gpus: seq<int>, fleet: Sim.FleetView, sample: Sample)
    requires budget >= 0.0 && PhysicalFleet(fleet) && PhysicalSample(sample)
    ensures var st := Observed(s, budget, gpus, fleet, sample);
            NonNegative(st.draws) && NonNegative(st.caps) && NonNegative(st.maxCaps)
  {
    hide Restrict, DrawsOf, CapsOf, MaxCapsOf, NonNegative;
    var fallback := Quotient(budget, |gpus|);
    QuotientNonNegative(budget, (if |gpus| == 0 then 1 else |gpus|) as real);
    if s.ReadsActuator() {
      FleetReadsPhysical(fleet, s.knowsMaxima, fallback);
      RestrictPhysical(DrawsOf(fleet), gpus);
      RestrictPhysical(CapsOf(fleet), gpus);
      RestrictPhysical(MaxCapsOf(fleet, s.knowsMaxima, fallback), gpus);
    } else {
      SampleReadsPhysical(sample, fallback);
      RestrictPhysical(SampleDraws(sample), gpus);
      RestrictPhysical(SampleCaps(sample, fallback), gpus);
      RestrictPhysical(SampleMaxCaps(sample, fallback), gpus);
    }
  }

  lemma SampleReadsPhysical(sample: Sample, fallback: real)
    requires PhysicalSample(sample) && fallback >= 0.0
    ensures NonNegative(SampleDraws(sample)) && NonNegative(SampleCaps(sample, fallback))
    ensures NonNegative(SampleMaxCaps(sample, fallback))
  {
  }

  lemma TickIsPhysical(s: Setup, kind: Kind, n: Node, domain: string, sample: Sample)
    requires PhysicalSetup(s, kind) && PhysicalNode(n) && PhysicalSample(sample) && s.Fits(n.fleet.Keys) && domain in s.managed
    ensures PhysicalTick(TickFor(s, n, domain, sample))
  {
    hide Observed, Sim.DrawAt;
    var budget := s.pdn.DomainBudget(n.adopted, domain);
    ObservedIsValid(s, budget, s.pdn.domains[domain].gpus, n.fleet, sample);
    ObservedPhysical(s, budget, s.pdn.domains[domain].gpus, n.fleet, sample);
  }

  lemma PushKeepsPhysical(fleet: Sim.FleetView, gpus: seq<int>, caps: map<int, real>)
    requires PhysicalFleet(fleet)
    ensures PhysicalFleet(Pushed(fleet, gpus, caps))
  {
    hide Sim.Enforced;
    forall g | g in fleet && g in caps ensures Sim.Enforced(caps[g], fleet[g].maxCap) >= 0.0 {
      EnforcedPhysical(caps[g], fleet[g].maxCap);
    }
  }

  lemma DomainTickStaysPhysical(s: Setup, kind: Kind, n: Node, domain: string, offer: Option<real>, sample: Sample)
    requires PhysicalSetup(s, kind) && PhysicalNode(n) && PhysicalSample(sample) && s.Fits(n.fleet.Keys) && domain in s.managed
    ensures PhysicalNode(TickDomain(s, kind, n, domain, offer, sample))
  {
    hide TickFor, Decide, Pushed, PhysicalFleet, NonNegative, PhysicalSetup, PhysicalSample, PhysicalTick, Sensible;
    var asked := WithOffer(s, n, domain, offer);
    TickIsPhysical(s, kind, asked, domain, sample);
    assert Sensible(kind) by { SetupIsSensible(s, kind); }
    DecisionNonNegative(kind, TickFor(s, asked, domain, sample));
    PushKeepsPhysical(n.fleet, s.pdn.domains[domain].gpus, Decide(kind, TickFor(s, asked, domain, sample)).caps);
  }

  lemma SetupIsSensible(s: Setup, kind: Kind)
    requires PhysicalSetup(s, kind)
    ensures Sensible(kind)
  {
  }

  lemma {:induction false} DomainsStayPhysical(s: Setup, kind: Kind, w: World, n: Node, k: nat)
    requires PhysicalSetup(s, kind) && PhysicalNode(n) && PhysicalWorld(w) && s.Fits(n.fleet.Keys) && k <= |s.managed|
    ensures PhysicalNode(TickDomains(s, kind, w, n, k))
  {
    hide TickDomain, PhysicalNode, PhysicalSetup;
    if k == 0 {
    } else {
      DomainsStayPhysical(s, kind, w, n, k - 1);
      DomainTickStaysPhysical(s, kind, TickDomains(s, kind, w, n, k - 1), s.managed[k - 1],
                              w.Offer(s.managed[k - 1]), w.sample);
    }
  }

  lemma PhysicalWithoutDecisions(n: Node)
    ensures PhysicalNode(n.(decided := [])) <==> PhysicalNode(n)
  {
  }

  /** From physical inputs a node never comes to hold, remember or report a negative watt. */
  lemma NodeStaysPhysical(s: Setup, kind: Kind, w: World, n: Node)
    requires PhysicalSetup(s, kind) && PhysicalNode(n) && PhysicalWorld(w) && s.Fits(n.fleet.Keys)
    ensures PhysicalNode(RunTick(s, kind, w, n))
  {
    hide TickDomains, PhysicalSetup;
    PhysicalWithoutDecisions(n);
    DomainsStayPhysical(s, kind, w, n.(decided := []), |s.managed|);
  }

  // ----- From the cluster budget to the caps -----

  /** The brain's caps add up to no more than the domain budget it is given. */
  ghost predicate KeepsBudget(kind: Kind, t: Tick) {
    Sum(t.st.gpus, Decide(kind, t).caps) <= t.budget
  }

  /** The node's GPUs and its overhead. */
  function Load(site: Site, domain: string, offers: map<string, real>): real
    requires site.Valid(domain)
  {
    Sum(site.Domain(domain).gpus, CapsOf(site.After(offers).fleet)) + site.Domain(domain).overhead
  }

  ghost predicate PhysicalSite(site: Site) {
    PhysicalSetup(site.setup, site.kind) && PhysicalNode(site.node) && PhysicalSample(site.sample)
  }

  lemma AskedIsPhysical(site: Site, domain: string, offer: Option<real>)
    requires site.Valid(domain) && PhysicalSite(site)
    ensures PhysicalTick(site.Asked(domain, offer)) && Sensible(site.kind)
  {
    hide TickFor, PhysicalTick, PhysicalFleet, PhysicalSample, NonNegative;
    TickIsPhysical(site.setup, site.kind, WithOffer(site.setup, site.node, domain, offer), domain, site.sample);
  }

  lemma CapBelowDecision(site: Site, domain: string, offers: map<string, real>, g: int)
    requires site.Valid(domain) && PhysicalSite(site) && g in site.Domain(domain).gpus && g !in site.Unseen(domain)
    ensures At(CapsOf(site.After(offers).fleet), g) <= At(Decide(site.kind, site.Asked(domain, site.Offered(offers, domain))).caps, g)
  {
    hide Decide, Sim.Enforced, Site.After, Site.Asked, PhysicalTick, Site.Unseen;
    var t := site.Asked(domain, site.Offered(offers, domain));
    TickEnforces(site, domain, offers, g);
    AskedIsPhysical(site, domain, site.Offered(offers, domain));
    DecisionNonNegative(site.kind, t);
    EnforcedPhysical(Decide(site.kind, t).caps[g], site.node.fleet[g].maxCap);
  }

  /** The caps that unseen GPUs hold on to. */
  function UnseenWatts(site: Site, domain: string): real
    requires domain in site.setup.pdn.domains
  {
    Sum(site.Unseen(domain), CapsOf(site.node.fleet))
  }

  lemma SumSeenAndUnseen(site: Site, domain: string, offer: Option<real>, m: map<int, real>)
    requires site.Valid(domain)
    ensures Sum(site.Domain(domain).gpus, m) == Sum(site.Asked(domain, offer).st.gpus, m) + Sum(site.Unseen(domain), m)
  {
    hide Site.Asked;
    AskedAboutSeen(site, domain, offer);
    SumPartition(site.Domain(domain).gpus, site.sample.Keys, m);
  }

  lemma SeenOrUnseen(site: Site, domain: string, offer: Option<real>, g: int)
    requires site.Valid(domain)
    ensures g in site.Asked(domain, offer).st.gpus <==> g in site.Domain(domain).gpus && g !in site.Unseen(domain)
    ensures g in site.Unseen(domain) ==> g in site.Domain(domain).gpus
  {
    hide Site.Asked;
    AskedAboutSeen(site, domain, offer);
  }

  /** A node's load is its domain budget, its overhead, and what the unseen GPUs hold. */
  lemma LoadWithinDomain(site: Site, domain: string, offers: map<string, real>)
    requires site.Valid(domain) && PhysicalSite(site)
    requires KeepsBudget(site.kind, site.Asked(domain, site.Offered(offers, domain)))
    ensures Load(site, domain, offers)
         <= site.Asked(domain, site.Offered(offers, domain)).budget + site.Domain(domain).overhead + UnseenWatts(site, domain)
  {
    hide Decide, Site.After, Site.Asked, Site.Unseen, Sum, PhysicalSite, CapsOf;
    var t, gpus := site.Asked(domain, site.Offered(offers, domain)), site.Domain(domain).gpus;
    var caps, decided := CapsOf(site.After(offers).fleet), Decide(site.kind, t).caps;
    SumSeenAndUnseen(site, domain, site.Offered(offers, domain), caps);
    forall g | g in t.st.gpus ensures At(caps, g) <= At(decided, g) {
      SeenOrUnseen(site, domain, site.Offered(offers, domain), g);
      CapBelowDecision(site, domain, offers, g);
    }
    SumMonotone(t.st.gpus, caps, decided);
    forall g | g in site.Unseen(domain) ensures At(caps, g) == At(CapsOf(site.node.fleet), g) {
      SeenOrUnseen(site, domain, site.Offered(offers, domain), g);
      UnseenKeeps(site, domain, offers, g);
    }
    SumSame(site.Unseen(domain), caps, CapsOf(site.node.fleet));
  }

  lemma UnseenKeeps(site: Site, domain: string, offers: map<string, real>, g: int)
    requires site.Valid(domain) && g in site.Domain(domain).gpus && g in site.Unseen(domain)
    ensures At(CapsOf(site.After(offers).fleet), g) == At(CapsOf(site.node.fleet), g)
  {
    hide Decide, Site.After, Site.Asked, Site.Unseen;
    TickEnforces(site, domain, offers, g);
  }

  /** A node whose offer reaches the minimum and covers its overhead adopts it, and keeps its load within the offer and
      what unseen GPUs hold. */
  lemma LoadWithinOffer(site: Site, domain: string, offers: map<string, real>, watts: real)
    requires site.Valid(domain) && PhysicalSite(site) && site.setup.usesStore
    requires site.Offered(offers, domain) == Some(watts)
    requires site.setup.adoptedMin <= watts && site.Domain(domain).overhead <= watts
    requires KeepsBudget(site.kind, site.Asked(domain, Some(watts)))
    ensures site.After(offers).adopted == site.node.adopted[domain := watts]
    ensures Load(site, domain, offers) <= watts + UnseenWatts(site, domain)
  {
    hide Decide, Load, KeepsBudget, Site.After, PhysicalSite, Observed, UnseenWatts;
    TickAdopts(site, domain, offers);
    LoadWithinDomain(site, domain, offers);
  }

  /** A node on Prometheus telemetry with one GPU, capped at 300 W, that the sample leaves out. */
  ghost function BlindSite(): Site {
    var pdn := Pdn(["d"], map["d" := PowerDomain("d", 300.0, [0], "pdu", 0.0, None)], map["pdu" := Pdu(300.0, 1.0)], map[]);
    Site(Setup(pdn, ["d"], PrsConfig(200.0, 0.3, 0.6, 0.3, 0.0), {}, 85.0, 100.0, false, false, false, true, true), Plain,
         Node(map[], map[], map[0 := Sim.GpuView(300.0, 50.0, 700.0)], []), map[], map[])
  }

  /** It adopts an offer of 100 W, its brain keeps the budget, and the node holds 300 W. */
  lemma UnseenGpuBreaksOffer()
    ensures var site := BlindSite();
            && site.Valid("d") && PhysicalSite(site) && KeepsBudget(site.kind, site.Asked("d", Some(100.0)))
            && site.After(map["d" := 100.0]).adopted == map["d" := 100.0]
            && Load(site, "d", map["d" := 100.0]) == 300.0
  {
    hide Site.After, Decide, Site.Asked;
    var site, offers := BlindSite(), map["d" := 100.0];
    TickAdopts(site, "d", offers);
    BlindSiteSeesNothing();
    UnseenKeeps(site, "d", offers, 0);
    SumOne(0, CapsOf(site.After(offers).fleet));
    assert At(CapsOf(site.node.fleet), 0) == 300.0;
    assert site.Domain("d").gpus == [0];
    DecidesForNobody();
  }

  lemma NothingInside(gpu: int)
    ensures Inside([gpu], {}) == [] && Outside([gpu], {}) == [gpu]
  {
    SplitNothing<int>({});
    SplitGrows([], gpu, {});
    assert [] + [gpu] == [gpu];
  }

  lemma BlindSiteIsValid()
    ensures BlindSite().Valid("d") && BlindSite().Domain("d").gpus == [0] && BlindSite().sample.Keys == {}
    ensures !BlindSite().setup.ReadsActuator()
  {
  }

  lemma BlindSiteSeesNothing()
    ensures BlindSite().Valid("d") && BlindSite().Unseen("d") == [0]
    ensures BlindSite().Asked("d", Some(100.0)).st.gpus == []
  {
    BlindSiteIsValid();
    hide Site.Asked, Inside, Outside, BlindSite;
    NothingInside(0);
    AskedAboutSeen(BlindSite(), "d", Some(100.0));
  }

  lemma DecidesForNobody()
    ensures KeepsBudget(Plain, BlindSite().Asked("d", Some(100.0)))
  {
    BlindSiteSeesNothing();
    hide Decide;
    assert BlindSite().Asked("d", Some(100.0)).budget >= 0.0;
  }

  // ----- The cluster -----

  /** One site for each node of the fleet, small enough in minimum and overhead for half its fair share. */
  ghost predicate Ready(clusterBudget: real, f: Fleet, sites: map<string, Site>) {
    && f.order != [] && f.states.Keys == sites.Keys
    && forall id :: id in sites ==>
         && sites[id].Valid(f.states[id].domain) && PhysicalSite(sites[id]) && sites[id].setup.usesStore
         && sites[id].setup.adoptedMin <= NodeFloor(clusterBudget, |f.order|)
         && sites[id].Domain(f.states[id].domain).overhead <= NodeFloor(clusterBudget, |f.order|)
  }

  type Store = map<(string, string), real>

  /** What a store offers the node. */
  function OffersTo(adopted: Store, f: Fleet, id: string): map<string, real>
    requires id in f.states
  {
    match Offer(adopted, id, f.states[id].domain)
    case None => map[]
    case Some(watts) => map[f.states[id].domain := watts]
  }

  /** `stores` has what each node finds when it ticks; it offers the node its budget, at least half a fair share. */
  ghost predicate OffersBudgets(
      clusterBudget: real, f: Fleet, stores: map<string, Store>, budgets: map<string, real>)
    requires f.order != []
  {
    forall id :: id in f.states ==>
      && id in stores && id in budgets && Offer(stores[id], id, f.states[id].domain) == Some(budgets[id])
      && budgets[id] >= NodeFloor(clusterBudget, |f.order|)
  }

  /** What each node's brain is asked once the node has adopted its budget. */
  function AskedWith(f: Fleet, sites: map<string, Site>, budgets: map<string, real>, id: string): Tick
    requires id in sites && id in f.states && f.states[id].domain in sites[id].setup.pdn.domains && id in budgets
  {
    sites[id].Asked(f.states[id].domain, Some(budgets[id]))
  }

  /** Each node's brain stays within the domain budget it is given. */
  ghost predicate BrainsKeepBudget(clusterBudget: real, f: Fleet, sites: map<string, Site>, budgets: map<string, real>)
    requires Ready(clusterBudget, f, sites) && budgets.Keys == sites.Keys
  {
    forall id :: id in sites ==> KeepsBudget(sites[id].kind, AskedWith(f, sites, budgets, id))
  }

  ghost function Loads(clusterBudget: real, f: Fleet, sites: map<string, Site>, stores: map<string, Store>): map<string, real>
    requires Ready(clusterBudget, f, sites) && stores.Keys == sites.Keys
  {
    map id | id in sites :: Load(sites[id], f.states[id].domain, OffersTo(stores[id], f, id))
  }

  ghost function AllUnseen(clusterBudget: real, f: Fleet, sites: map<string, Site>): map<string, real>
    requires Ready(clusterBudget, f, sites)
  {
    map id | id in sites :: UnseenWatts(sites[id], f.states[id].domain)
  }

  /** Every node adopted its budget: no one fell back to the topology. */
  ghost predicate AllAdopt(
      clusterBudget: real, f: Fleet, sites: map<string, Site>, stores: map<string, Store>, budgets: map<string, real>)
    requires Ready(clusterBudget, f, sites) && stores.Keys == sites.Keys == budgets.Keys
  {
    forall id :: id in sites ==>
      sites[id].After(OffersTo(stores[id], f, id)).adopted == sites[id].node.adopted[f.states[id].domain := budgets[id]]
  }

  lemma OneNode(
      clusterBudget: real, f: Fleet, sites: map<string, Site>, stores: map<string, Store>, budgets: map<string, real>,
      id: string)
    requires Ready(clusterBudget, f, sites) && stores.Keys == sites.Keys == budgets.Keys && id in sites
    requires OffersBudgets(clusterBudget, f, stores, budgets) && BrainsKeepBudget(clusterBudget, f, sites, budgets)
    ensures sites[id].After(OffersTo(stores[id], f, id)).adopted
         == sites[id].node.adopted[f.states[id].domain := budgets[id]]
    ensures At(Loads(clusterBudget, f, sites, stores), id) <= budgets[id] + At(AllUnseen(clusterBudget, f, sites), id)
  {
    hide NodeFloor, Load, Site.After, KeepsBudget, Site.Asked, PhysicalSite, UnseenWatts;
    LoadWithinOffer(sites[id], f.states[id].domain, OffersTo(stores[id], f, id), budgets[id]);
  }

  /** Whatever budgets the nodes find, all adopt them, and the cluster's load is at most their sum and what unseen GPUs
      hold. */
  lemma ClusterLoad(
      clusterBudget: real, f: Fleet, sites: map<string, Site>, stores: map<string, Store>, budgets: map<string, real>)
    requires f.Valid() && Ready(clusterBudget, f, sites) && stores.Keys == sites.Keys == budgets.Keys
    requires OffersBudgets(clusterBudget, f, stores, budgets) && BrainsKeepBudget(clusterBudget, f, sites, budgets)
    ensures AllAdopt(clusterBudget, f, sites, stores, budgets)
    ensures Sum(f.order, Loads(clusterBudget, f, sites, stores))
         <= Sum(f.order, budgets) + Sum(f.order, AllUnseen(clusterBudget, f, sites))
  {
    hide Loads, AllUnseen, BrainsKeepBudget, Sum, Site.After, OffersTo, PhysicalSite, OffersBudgets;
    var loads, unseen := Loads(clusterBudget, f, sites, stores), AllUnseen(clusterBudget, f, sites);
    forall id | id in sites
      ensures sites[id].After(OffersTo(stores[id], f, id)).adopted
           == sites[id].node.adopted[f.states[id].domain := budgets[id]]
      ensures At(loads, id) <= budgets[id] + At(unseen, id)
    {
      OneNode(clusterBudget, f, sites, stores, budgets, id);
    }
    var upper := map id | id in sites :: budgets[id] + At(unseen, id);
    forall id | id in f.order
      ensures At(loads, id) <= At(upper, id) && At(upper, id) == At(budgets, id) + At(unseen, id)
    {
      assert id in sites;
    }
    SumMonotone(f.order, loads, upper);
    SumPlus(f.order, budgets, unseen, upper);
  }

  // ----- After a rebalance -----

  function Rebalanced(clusterBudget: real, adopted: Store, f: Fleet): Store
    requires f.order != [] && forall id :: id in f.order ==> id in f.states
  {
    Published(adopted, f, NodeBudgets(clusterBudget, f), |f.order|)
  }

  lemma {:induction false} PublishedHas(adopted: Store, f: Fleet, budgets: map<string, real>, k: nat, key: (string, string))
    requires k <= |f.order| && forall id :: id in f.order ==> id in f.states && id in budgets
    ensures key in adopted || (exists j :: 0 <= j < k && f.KeyOf(f.order[j]) == key) ==> key in Published(adopted, f, budgets, k)
  {
    if k == 0 {
    } else {
      PublishedHas(adopted, f, budgets, k - 1, key);
    }
  }

  /** Every node reads the store after the rebalance. */
  ghost function SameStore(f: Fleet, store: Store): map<string, Store> {
    map id | id in f.states :: store
  }

  lemma RebalanceOffers(clusterBudget: real, adopted: Store, f: Fleet)
    requires Physical(clusterBudget, f)
    ensures OffersBudgets(clusterBudget, f, SameStore(f, Rebalanced(clusterBudget, adopted, f)), NodeBudgets(clusterBudget, f))
  {
    hide NodeBudgets, Published, NodeFloor;
    forall id | id in f.states
      ensures Offer(Rebalanced(clusterBudget, adopted, f), id, f.states[id].domain) == Some(NodeBudgets(clusterBudget, f)[id])
      ensures NodeBudgets(clusterBudget, f)[id] >= NodeFloor(clusterBudget, |f.order|)
    {
      assert id in f.order;
      var j :| 0 <= j < |f.order| && f.order[j] == id;
      PublishedSoFar(adopted, f, NodeBudgets(clusterBudget, f), |f.order|, j);
      PublishedHas(adopted, f, NodeBudgets(clusterBudget, f), |f.order|, f.KeyOf(id));
      BudgetBounds(clusterBudget, f, id);
    }
  }

  /**
   * After a rebalance and one tick of every node, every node has adopted its share, and the caps the hardware enforces
   * and the nodes' overheads together exceed the cluster budget by no more than what GPUs missing from a sample hold: when
   * every GPU is seen, not at all.
   */
  lemma CascadeIsSafe(clusterBudget: real, adopted: Store, f: Fleet, sites: map<string, Site>)
    requires Physical(clusterBudget, f) && Ready(clusterBudget, f, sites)
    requires BrainsKeepBudget(clusterBudget, f, sites, NodeBudgets(clusterBudget, f))
    ensures var stores := SameStore(f, Rebalanced(clusterBudget, adopted, f));
            var load := Sum(f.order, Loads(clusterBudget, f, sites, stores));
            && AllAdopt(clusterBudget, f, sites, stores, NodeBudgets(clusterBudget, f))
            && load <= clusterBudget + Sum(f.order, AllUnseen(clusterBudget, f, sites))
            && ((forall id :: id in sites ==> sites[id].Unseen(f.states[id].domain) == []) ==> load <= clusterBudget)
  {
    hide NodeBudgets, Loads, BrainsKeepBudget, Sum, Rebalanced, PhysicalSite, AllAdopt, OffersBudgets;
    RebalanceOffers(clusterBudget, adopted, f);
    ClusterLoad(clusterBudget, f, sites, SameStore(f, Rebalanced(clusterBudget, adopted, f)), NodeBudgets(clusterBudget, f));
    NeverOversubscribed(clusterBudget, f);
    if forall id :: id in sites ==> sites[id].Unseen(f.states[id].domain) == [] {
      AllSeen(clusterBudget, f, sites);
    }
  }

  lemma AllSeen(clusterBudget: real, f: Fleet, sites: map<string, Site>)
    requires f.Valid() && Ready(clusterBudget, f, sites)
    requires forall id :: id in sites ==> sites[id].Unseen(f.states[id].domain) == []
    ensures Sum(f.order, AllUnseen(clusterBudget, f, sites)) == 0.0
  {
    hide Site.Unseen, PhysicalSite, CapsOf;
    forall id | id in f.order ensures At(AllUnseen(clusterBudget, f, sites), id) == 0.0 {
      assert id in sites;
    }
    SumConstant(f.order, AllUnseen(clusterBudget, f, sites), 0.0);
  }

  /** What PRS needs of one tick to keep its budget: the idle floors fit, and no hot share is below the floor. */
  ghost predicate SharesSuffice(t: Tick) {
    t.IdleTotal() <= t.budget && forall g :: g in t.Hot() ==> At(t.Shares(), g) >= t.cfg.minCap
  }

  /** The same safety from a condition on the ticks alone, whichever brains the nodes run. */
  lemma CascadeIsSafeWhenSharesSuffice(clusterBudget: real, adopted: Store, f: Fleet, sites: map<string, Site>)
    requires Physical(clusterBudget, f) && Ready(clusterBudget, f, sites)
    requires forall id :: id in sites ==> SharesSuffice(AskedWith(f, sites, NodeBudgets(clusterBudget, f), id))
    ensures var load := Sum(f.order, Loads(clusterBudget, f, sites, SameStore(f, Rebalanced(clusterBudget, adopted, f))));
            && load <= clusterBudget + Sum(f.order, AllUnseen(clusterBudget, f, sites))
            && ((forall id :: id in sites ==> sites[id].Unseen(f.states[id].domain) == []) ==> load <= clusterBudget)
  {
    hide Loads, Site.Asked, SharesSuffice, PhysicalSite, NodeBudgets, Sum, PhysicalTick, Decide, Rebalanced, AllUnseen;
    forall id | id in sites ensures KeepsBudget(sites[id].kind, AskedWith(f, sites, NodeBudgets(clusterBudget, f), id)) {
      AskedIsPhysical(sites[id], f.states[id].domain, Some(NodeBudgets(clusterBudget, f)[id]));
      SharesSufficeForAll(sites[id].kind, AskedWith(f, sites, NodeBudgets(clusterBudget, f), id));
    }
    CascadeIsSafe(clusterBudget, adopted, f, sites);
  }

  lemma SharesSufficeForAll(kind: Kind, t: Tick)
    requires PhysicalTick(t) && Sensible(kind) && SharesSuffice(t)
    ensures KeepsBudget(kind, t)
  {
    hide Tick.IdleTotal, Tick.Hot, Tick.Shares, Decide;
    DecisionFits(kind, t);
  }

  // ----- While budgets are published -----

  /** The store at the step of the publish loop at which each node ticks. */
  ghost function StoresAt(
      clusterBudget: real, adopted: Store, f: Fleet, g: Fleet, steps: map<string, nat>): map<string, Store>
    requires Physical(clusterBudget, f) && Physical(clusterBudget, g) && SameNodes(f, g)
    requires steps.Keys == g.states.Keys && forall id :: id in steps ==> steps[id] <= |g.order|
  {
    map id | id in g.states ::
      Published(Rebalanced(clusterBudget, adopted, f), g, NodeBudgets(clusterBudget, g), steps[id])
  }

  /** The budget each node finds there: the old one or the new one. */
  ghost function BudgetsAt(
      clusterBudget: real, adopted: Store, f: Fleet, g: Fleet, steps: map<string, nat>): map<string, real>
    requires Physical(clusterBudget, f) && Physical(clusterBudget, g) && SameNodes(f, g)
    requires steps.Keys == g.states.Keys && forall id :: id in steps ==> steps[id] <= |g.order|
  {
    map id | id in g.states :: At(StoreAt(clusterBudget, adopted, f, g, steps[id]), id)
  }

  lemma PublishOffers(clusterBudget: real, adopted: Store, f: Fleet, g: Fleet, steps: map<string, nat>)
    requires Physical(clusterBudget, f) && Physical(clusterBudget, g) && SameNodes(f, g)
    requires steps.Keys == g.states.Keys && forall id :: id in steps ==> steps[id] <= |g.order|
    ensures OffersBudgets(clusterBudget, g, StoresAt(clusterBudget, adopted, f, g, steps),
                          BudgetsAt(clusterBudget, adopted, f, g, steps))
  {
    hide NodeBudgets, Published, NodeFloor;
    forall id | id in g.states
      ensures Offer(StoresAt(clusterBudget, adopted, f, g, steps)[id], id, g.states[id].domain)
           == Some(BudgetsAt(clusterBudget, adopted, f, g, steps)[id])
      ensures BudgetsAt(clusterBudget, adopted, f, g, steps)[id] >= NodeFloor(clusterBudget, |g.order|)
    {
      assert id in g.order;
      var j :| 0 <= j < |g.order| && g.order[j] == id;
      assert f.KeyOf(id) == f.KeyOf(f.order[j]) == g.KeyOf(id);
      PublishedHas(adopted, f, NodeBudgets(clusterBudget, f), |f.order|, g.KeyOf(id));
      PublishedHas(Rebalanced(clusterBudget, adopted, f), g, NodeBudgets(clusterBudget, g), steps[id], g.KeyOf(id));
      StoreEntry(clusterBudget, adopted, f, g, steps[id], j);
      BudgetBounds(clusterBudget, f, id);
      BudgetBounds(clusterBudget, g, id);
    }
  }

  lemma BudgetsAtTotal(clusterBudget: real, adopted: Store, f: Fleet, g: Fleet, steps: map<string, nat>)
    requires Physical(clusterBudget, f) && Physical(clusterBudget, g) && SameNodes(f, g)
    requires steps.Keys == g.states.Keys && forall id :: id in steps ==> steps[id] <= |g.order|
    ensures Sum(g.order, BudgetsAt(clusterBudget, adopted, f, g, steps)) <= 1.5 * clusterBudget
  {
    hide NodeBudgets, Extras, NodeFloor, Sum, Times, StoreAt;
    var budgets := BudgetsAt(clusterBudget, adopted, f, g, steps);
    forall id | id in g.order
      ensures At(budgets, id)
           <= NodeFloor(clusterBudget, |g.order|) + At(Extras(clusterBudget, f), id) + At(Extras(clusterBudget, g), id)
    {
      MidPublishEntry(clusterBudget, adopted, f, g, steps[id], id);
    }
    SumBelowBoth(g.order, NodeFloor(clusterBudget, |g.order|), Extras(clusterBudget, f), Extras(clusterBudget, g), budgets);
    ExtrasTotal(clusterBudget, f);
    ExtrasTotal(clusterBudget, g);
    Shares(clusterBudget, |g.order|);
  }

  /**
   * When each node ticks at its own step of the publish loop, some on old and some already on new budgets, all adopt what
   * they find, and the cluster's load stays within one and a half budgets and what unseen GPUs hold.
   */
  lemma MixedLoads(
      clusterBudget: real, adopted: Store, f: Fleet, g: Fleet, sites: map<string, Site>, steps: map<string, nat>)
    requires Physical(clusterBudget, f) && Physical(clusterBudget, g) && SameNodes(f, g)
    requires steps.Keys == g.states.Keys && forall id :: id in steps ==> steps[id] <= |g.order|
    requires Ready(clusterBudget, g, sites)
    requires BrainsKeepBudget(clusterBudget, g, sites, BudgetsAt(clusterBudget, adopted, f, g, steps))
    ensures var stores := StoresAt(clusterBudget, adopted, f, g, steps);
            && AllAdopt(clusterBudget, g, sites, stores, BudgetsAt(clusterBudget, adopted, f, g, steps))
            && Sum(g.order, Loads(clusterBudget, g, sites, stores))
               <= 1.5 * clusterBudget + Sum(g.order, AllUnseen(clusterBudget, g, sites))
  {
    hide Loads, BrainsKeepBudget, Sum, PhysicalSite, AllAdopt, OffersBudgets, AllUnseen;
    var stores, budgets := StoresAt(clusterBudget, adopted, f, g, steps), BudgetsAt(clusterBudget, adopted, f, g, steps);
    PublishOffers(clusterBudget, adopted, f, g, steps);
    ClusterLoad(clusterBudget, g, sites, stores, budgets);
    BudgetsAtTotal(clusterBudget, adopted, f, g, steps);
  }
}
