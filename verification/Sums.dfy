/** Watts added up over lists of keys.
    A Python dictionary of watts is a map here, together with the list of its keys in insertion order.
    Sums recurse from the end of the list, so a loop that has visited `ks[..i]` has summed exactly that prefix. */
module Sums {

  function Min(a: real, b: real): real {
    if a <= b then a else b
  }

  function Max(a: real, b: real): real {
    if a >= b then a else b
  }

  /** `m.get(k, default)` */
  function Get<K, V>(m: map<K, V>, k: K, default: V): V {
    if k in m then m[k] else default
  }

  /** `m.get(k, 0.0)` */
  function At<K>(m: map<K, real>, k: K): real {
    Get(m, k, 0.0)
  }

  function Times(x: real, n: nat): real {
    x * n as real
  }

  predicate NoDup<K(==)>(ks: seq<K>) {
    forall i, j :: 0 <= i < j < |ks| ==> ks[i] != ks[j]
  }

  /** `sum(m[k] for k in ks)` */
  function Sum<K>(ks: seq<K>, m: map<K, real>): real {
    if ks == [] then 0.0 else Sum(ks[..|ks| - 1], m) + At(m, ks[|ks| - 1])
  }

  /** The members of `ks` that lie in `s`, in order. */
  function Inside<K(==,!new)>(ks: seq<K>, s: set<K>): (r: seq<K>)
    ensures forall k :: k in r <==> k in ks && k in s
    ensures NoDup(ks) ==> NoDup(r)
    ensures |r| <= |ks|
  {
    if ks == [] then []
    else
      var init := Inside(ks[..|ks| - 1], s);
      var last := ks[|ks| - 1];
      if last in s then init + [last] else init
  }

  /** The members of `ks` that lie outside `s`, in order. */
  function Outside<K(==,!new)>(ks: seq<K>, s: set<K>): (r: seq<K>)
    ensures forall k :: k in r <==> k in ks && k !in s
    ensures NoDup(ks) ==> NoDup(r)
    ensures |r| <= |ks|
  {
    if ks == [] then []
    else
      var init := Outside(ks[..|ks| - 1], s);
      var last := ks[|ks| - 1];
      if last !in s then init + [last] else init
  }

  lemma SplitNothing<K(!new)>(s: set<K>)
    ensures Inside([], s) == Outside([], s) == []
  {
  }

  lemma SplitGrows<K(!new)>(ks: seq<K>, k: K, s: set<K>)
    ensures Inside(ks + [k], s) == Inside(ks, s) + if k in s then [k] else []
    ensures Outside(ks + [k], s) == Outside(ks, s) + if k in s then [] else [k]
  {
    assert (ks + [k])[..|ks|] == ks;
  }

  lemma {:induction false} InsideAll<K(!new)>(ks: seq<K>, s: set<K>)
    requires forall k :: k in ks ==> k in s
    ensures Inside(ks, s) == ks && Outside(ks, s) == []
  {
    if ks == [] {
    } else {
      InsideAll(ks[..|ks| - 1], s);
      assert ks == ks[..|ks| - 1] + [ks[|ks| - 1]];
    }
  }

  /** x * x * ... * x, k times */
  ghost function Pow(x: real, k: nat): real {
    if k == 0 then 1.0 else x * Pow(x, k - 1)
  }

  lemma {:induction false} PowNonNegative(x: real, k: nat)
    requires x >= 0.0
    ensures Pow(x, k) >= 0.0
  {
    if k == 0 {
    } else {
      PowNonNegative(x, k - 1);
    }
  }

  /** What `k` steps that each keep `1 - rate` leave of `start`. */
  ghost function Decayed(rate: real, k: nat, start: real): real {
    Pow(1.0 - rate, k) * start
  }

  lemma DecaySteps(rate: real, k: nat, start: real)
    ensures Decayed(rate, 0, start) == start
    ensures Decayed(rate, k + 1, start) == (1.0 - rate) * Decayed(rate, k, start)
  {
    assert Pow(1.0 - rate, k + 1) == (1.0 - rate) * Pow(1.0 - rate, k);
  }

  lemma DecayedNonNegative(rate: real, k: nat, start: real)
    requires rate <= 1.0 && start >= 0.0
    ensures Decayed(rate, k, start) >= 0.0
  {
    PowNonNegative(1.0 - rate, k);
  }

  lemma {:induction false} SumSame<K>(ks: seq<K>, m: map<K, real>, m': map<K, real>)
    requires forall k :: k in ks ==> At(m, k) == At(m', k)
    ensures Sum(ks, m) == Sum(ks, m')
  {
    if ks == [] {
    } else {
      SumSame(ks[..|ks| - 1], m, m');
    }
  }

  lemma {:induction false} SumMonotone<K>(ks: seq<K>, m: map<K, real>, m': map<K, real>)
    requires forall k :: k in ks ==> At(m, k) <= At(m', k)
    ensures Sum(ks, m) <= Sum(ks, m')
  {
    if ks == [] {
    } else {
      SumMonotone(ks[..|ks| - 1], m, m');
    }
  }

  lemma {:induction false} SumNonNegative<K>(ks: seq<K>, m: map<K, real>)
    requires forall k :: k in ks ==> At(m, k) >= 0.0
    ensures Sum(ks, m) >= 0.0
    ensures forall k :: k in ks ==> At(m, k) <= Sum(ks, m)
  {
    if ks == [] {
    } else {
      SumNonNegative(ks[..|ks| - 1], m);
      assert forall k :: k in ks ==> k in ks[..|ks| - 1] || k == ks[|ks| - 1];
    }
  }

  lemma Fraction(part: real, whole: real)
    requires 0.0 <= part <= whole && whole > 0.0
    ensures 0.0 <= part / whole <= 1.0
    ensures part / whole * whole == part
  {
  }

  lemma ScaleOrder(x: real, y: real, c: real)
    requires x <= y && c >= 0.0
    ensures x * c <= y * c
    ensures c <= 1.0 && y >= 0.0 ==> y * c <= y
  {
  }

  lemma StrictScale(x: real, y: real, c: real)
    requires x < y && c > 0.0
    ensures x * c < y * c
  {
  }

  lemma ScaleOrderExactly(x: real, y: real, whole: real)
    requires whole > 0.0
    ensures x * whole <= y * whole <==> x <= y
  {
    if x <= y { ScaleOrder(x, y, whole); } else { StrictScale(y, x, whole); }
  }

  lemma Cancel(c: real, u: real, v: real)
    requires c != 0.0
    ensures c * u == c * v <==> u == v
  {
    assert c * u / c == u && c * v / c == v;
  }

  lemma Distribute(a: real, x: real, y: real)
    ensures a * (x + y) == a * x + a * y
  {
  }

  lemma {:induction false} SumScale<K>(ks: seq<K>, c: real, m: map<K, real>, m': map<K, real>)
    requires forall k :: k in ks ==> At(m', k) == c * At(m, k)
    ensures Sum(ks, m') == c * Sum(ks, m)
  {
    if ks == [] {
    } else {
      SumScale(ks[..|ks| - 1], c, m, m');
      Distribute(c, Sum(ks[..|ks| - 1], m), At(m, ks[|ks| - 1]));
    }
  }

  /** The part of `limit` that falls to a holder of `x` out of `total`. The program writes it as `x / total * limit`,
      `x * limit / total` or `x * (limit / total)`; without rounding these are one number. */
  function ProRata(x: real, limit: real, total: real): real
    requires total != 0.0
  {
    x * limit / total
  }

  lemma ProRataIsScaling(x: real, limit: real, total: real, c: real)
    requires total != 0.0 && c == limit / total
    ensures ProRata(x, limit, total) == c * x == x / total * limit
    ensures c * total == limit
  {
  }

  lemma ProRataProduct(x: real, limit: real, total: real)
    requires total != 0.0
    ensures ProRata(x, limit, total) * total == x * limit
  {
  }

  lemma ProRataBounds(x: real, limit: real, total: real)
    requires x >= 0.0 && 0.0 <= limit <= total && total > 0.0
    ensures 0.0 <= ProRata(x, limit, total) <= x
  {
    ProRataIsScaling(x, limit, total, limit / total);
    Fraction(limit, total);
    var c := limit / total;
    assert 0.0 <= c * x <= x;
  }

  lemma ProRataExchange(x: real, y: real, limit: real, total: real)
    requires total != 0.0
    ensures ProRata(x, limit, total) * y == ProRata(y, limit, total) * x
  {
    ProRataIsScaling(x, limit, total, limit / total);
    ProRataIsScaling(y, limit, total, limit / total);
    var c := limit / total;
    assert (c * x) * y == (c * y) * x;
  }

  lemma ProRataNonNegative(x: real, limit: real, total: real)
    requires x >= 0.0 && limit >= 0.0 && total > 0.0
    ensures ProRata(x, limit, total) >= 0.0
  {
    assert x * limit >= 0.0;
  }

  lemma ProRataOfNothing(limit: real, total: real)
    requires total != 0.0
    ensures ProRata(0.0, limit, total) == 0.0
    ensures ProRata(limit, 0.0, total) == 0.0
  {
  }

  lemma ScaleFactor<K>(ks: seq<K>, m: map<K, real>, m': map<K, real>, limit: real, total: real) returns (c: real)
    requires total != 0.0
    requires forall k :: k in ks ==> At(m', k) == ProRata(At(m, k), limit, total)
    ensures c * total == limit
    ensures forall k :: k in ks ==> At(m', k) == c * At(m, k)
  {
    hide ProRata;
    c := limit / total;
    ProRataIsScaling(0.0, limit, total, c);
    forall k | k in ks ensures At(m', k) == c * At(m, k) {
      ProRataIsScaling(At(m, k), limit, total, c);
    }
  }

  /** Handing out `limit` in proportion to the entries of `m` hands out all of it. */
  lemma SumProRata<K>(ks: seq<K>, m: map<K, real>, m': map<K, real>, limit: real)
    requires Sum(ks, m) != 0.0
    requires forall k :: k in ks ==> At(m', k) == ProRata(At(m, k), limit, Sum(ks, m))
    ensures Sum(ks, m') == limit
  {
    hide ProRata;
    var c := ScaleFactor(ks, m, m', limit, Sum(ks, m));
    SumScale(ks, c, m, m');
  }

  lemma {:induction false} SumPlus<K>(ks: seq<K>, m1: map<K, real>, m2: map<K, real>, m: map<K, real>)
    requires forall k :: k in ks ==> At(m, k) == At(m1, k) + At(m2, k)
    ensures Sum(ks, m) == Sum(ks, m1) + Sum(ks, m2)
  {
    if ks == [] {
    } else {
      SumPlus(ks[..|ks| - 1], m1, m2, m);
    }
  }

  lemma {:induction false} SumConstant<K>(ks: seq<K>, m: map<K, real>, c: real)
    requires forall k :: k in ks ==> At(m, k) == c
    ensures Sum(ks, m) == Times(c, |ks|)
  {
    if ks == [] {
    } else {
      SumConstant(ks[..|ks| - 1], m, c);
    }
  }

  lemma {:induction false} SumAppend<K>(ks: seq<K>, ls: seq<K>, m: map<K, real>)
    ensures Sum(ks + ls, m) == Sum(ks, m) + Sum(ls, m)
  {
    if ls == [] {
      assert ks + ls == ks;
    } else {
      assert (ks + ls)[..|ks + ls| - 1] == ks + ls[..|ls| - 1];
      SumAppend(ks, ls[..|ls| - 1], m);
    }
  }

  lemma {:induction false} SumPartition<K(!new)>(ks: seq<K>, s: set<K>, m: map<K, real>)
    ensures Sum(ks, m) == Sum(Inside(ks, s), m) + Sum(Outside(ks, s), m)
  {
    if ks == [] {
    } else {
      var init, last := ks[..|ks| - 1], ks[|ks| - 1];
      SumPartition(init, s, m);
      if last in s {
        assert Inside(ks, s)[..|Inside(ks, s)| - 1] == Inside(init, s);
      } else {
        assert Outside(ks, s)[..|Outside(ks, s)| - 1] == Outside(init, s);
      }
    }
  }

  /** Changing the watts of one key changes the sum by the same amount. */
  lemma {:induction false} SumChangeOne<K>(ks: seq<K>, k: K, m: map<K, real>, m': map<K, real>)
    requires NoDup(ks) && k in ks
    requires forall l :: l in ks && l != k ==> At(m, l) == At(m', l)
    ensures Sum(ks, m') == Sum(ks, m) + (At(m', k) - At(m, k))
  {
    var init, last := ks[..|ks| - 1], ks[|ks| - 1];
    if last == k {
      SumSame(init, m, m');
    } else {
      SumChangeOne(init, k, m, m');
    }
  }

  lemma SumOne<K>(k: K, m: map<K, real>)
    ensures Sum([k], m) == At(m, k)
  {
    assert [k][..0] == [];
    assert Sum([k], m) == Sum([k][..0], m) + At(m, k);
  }

  lemma SumTwo<K>(k: K, l: K, m: map<K, real>)
    ensures Sum([k, l], m) == At(m, k) + At(m, l)
  {
    SumOne(k, m);
    assert [k, l][..1] == [k];
    assert Sum([k, l], m) == Sum([k, l][..1], m) + At(m, l);
  }

  /** A constant on top of every entry. */
  lemma {:induction false} SumOffset<K>(ks: seq<K>, c: real, m: map<K, real>, m': map<K, real>)
    requires forall k :: k in ks ==> At(m', k) == c + At(m, k)
    ensures Sum(ks, m') == Times(c, |ks|) + Sum(ks, m)
  {
    if ks == [] {
    } else {
      SumOffset(ks[..|ks| - 1], c, m, m');
    }
  }
}
