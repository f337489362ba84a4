/** SLA tiers, their ranks and their power weights. */
module Tiers {
  import opened Options

  datatype Tier = Low | Normal | High | Critical

  function Rank(t: Tier): nat {
    match t
    case Low => 0
    case Normal => 1
    case High => 2
    case Critical => 3
  }

  function Weight(t: Tier): real {
    match t
    case Low => 0.5
    case Normal => 1.0
    case High => 2.0
    case Critical => 4.0
  }

  function ParseTier(s: string): Option<Tier> {
    if s == "low" then Some(Low)
    else if s == "normal" then Some(Normal)
    else if s == "high" then Some(High)
    else if s == "critical" then Some(Critical)
    else None
  }

  /** Four names, and no others. */
  lemma NamesExactly(s: string)
    ensures ParseTier(s) == Some(Low) <==> s == "low"
    ensures ParseTier(s) == Some(Normal) <==> s == "normal"
    ensures ParseTier(s) == Some(High) <==> s == "high"
    ensures ParseTier(s) == Some(Critical) <==> s == "critical"
  {
  }

  /** The rank that settles conflicting assignments and the weight that splits power order the tiers alike. */
  lemma RankOrdersWeights(a: Tier, b: Tier)
    ensures Rank(a) <= Rank(b) <==> Weight(a) <= Weight(b)
    ensures Rank(a) == Rank(b) ==> a == b
  {
  }
}
