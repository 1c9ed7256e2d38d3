/** Sums and maxima over the values of a finite map, and over sequences. */
module Sums {
  import opened Arith

  ghost function Sum<K>(m: map<K, real>): real
    decreases |m|
  {
    if m == map[] then 0.0
    else
      var k :| k in m;
      RemoveShrinks(m, k);
      m[k] + Sum(m - {k})
  }

  lemma RemoveShrinks<K, V>(m: map<K, V>, k: K)
    requires k in m
    ensures (m - {k}).Keys == m.Keys - {k} && |m - {k}| == |m| - 1
  {
  }

  /** Any key may be taken out of a sum first. */
  lemma {:induction false} SumRemove<K>(m: map<K, real>, k: K)
    requires k in m
    ensures Sum(m) == m[k] + Sum(m - {k})
    decreases |m|
  {
    var first :| first in m && Sum(m) == m[first] + Sum(m - {first});
    if first != k {
      RemoveShrinks(m, first);
      RemoveShrinks(m, k);
      SumRemove(m - {first}, k);
      SumRemove(m - {k}, first);
      assert m - {first} - {k} == m - {k} - {first};
    }
  }

  lemma {:induction false} SumScale<K>(m: map<K, real>, scaled: map<K, real>, c: real)
    requires scaled.Keys == m.Keys
    requires forall k :: k in m ==> scaled[k] == Times(c, m[k])
    ensures Sum(scaled) == Times(c, Sum(m))
    decreases |m|
  {
    if m == map[] {
      assert scaled == map[];
    } else {
      hide Sum, Times;
      var k :| k in m;
      RemoveShrinks(m, k);
      RemoveShrinks(scaled, k);
      SumRemove(m, k);
      SumRemove(scaled, k);
      SumScale(m - {k}, scaled - {k}, c);
      TimesAdd(c, m[k], Sum(m - {k}));
    }
  }

  lemma {:induction false} SumBounds<K>(m: map<K, real>, lo: real, hi: real)
    requires forall k :: k in m ==> lo <= m[k] <= hi
    ensures Times(lo, |m| as real) <= Sum(m) <= Times(hi, |m| as real)
    decreases |m|
  {
    TimesAdd(lo, 0.0, 0.0);
    TimesAdd(hi, 0.0, 0.0);
    if m != map[] {
      hide Sum, Times;
      var k :| k in m;
      RemoveShrinks(m, k);
      SumRemove(m, k);
      assert forall j :: j in m - {k} ==> (m - {k})[j] == m[j];
      SumBounds(m - {k}, lo, hi);
      var n := |m - {k}| as real;
      TimesAdd(lo, n, 1.0);
      TimesAdd(hi, n, 1.0);
    }
  }

  lemma {:induction false} SumPositive<K>(m: map<K, real>)
    requires forall k :: k in m ==> 0.0 < m[k]
    ensures 0.0 <= Sum(m) && (m != map[] ==> 0.0 < Sum(m))
    decreases |m|
  {
    if m != map[] {
      var k :| k in m;
      RemoveShrinks(m, k);
      SumRemove(m, k);
      SumPositive(m - {k});
    }
  }

  lemma SumEmpty<K>(m: map<K, real>)
    requires m == map[]
    ensures Sum(m) == 0.0
  {
  }

  /** A sum splits along any part of the map. */
  lemma {:induction false} SumSplit<K>(m: map<K, real>, part: map<K, real>)
    requires forall k :: k in part ==> k in m && m[k] == part[k]
    ensures Sum(m) == Sum(part) + Sum(m - part.Keys)
    decreases |part|
  {
    hide Sum;
    if part == map[] {
      SumEmpty(part);
      assert m - part.Keys == m;
    } else {
      var k :| k in part;
      RemoveShrinks(part, k);
      SumRemove(part, k);
      SumRemove(m, k);
      SumSplit(m - {k}, part - {k});
      RemoveTwice(m, part, k);
    }
  }

  lemma RemoveTwice<K>(m: map<K, real>, part: map<K, real>, k: K)
    requires k in part
    ensures m - {k} - (part - {k}).Keys == m - part.Keys
  {
  }

  /** Values that are never negative add up to zero exactly when all are. */
  lemma {:induction false} SumZeroIff<K>(m: map<K, real>)
    requires forall k :: k in m ==> 0.0 <= m[k]
    ensures 0.0 <= Sum(m)
    ensures Sum(m) == 0.0 <==> forall k :: k in m ==> m[k] == 0.0
    decreases |m|
  {
    if m != map[] {
      var k :| k in m;
      RemoveShrinks(m, k);
      SumRemove(m, k);
      SumZeroIff(m - {k});
      assert forall j :: j in m ==> j == k || j in m - {k};
    }
  }

  /** The sum of an arbitrary map by a loop over its keys. */
  method SumOf<K(==)>(m: map<K, real>) returns (total: real)
    ensures total == Sum(m)
  {
    total := 0.0;
    var rest := m;
    while rest != map[]
      invariant total + Sum(rest) == Sum(m)
      decreases |rest|
    {
      var k :| k in rest;
      SumRemove(rest, k);
      RemoveShrinks(rest, k);
      total := total + rest[k];
      rest := rest - {k};
    }
  }

  ghost predicate IsMax<K>(m: map<K, real>, x: real) {
    (exists k :: k in m && m[k] == x) && (forall k :: k in m ==> m[k] <= x)
  }

  ghost function MaxValue<K>(m: map<K, real>): (x: real)
    requires m != map[]
    ensures IsMax(m, x)
  {
    MaxExists(m);
    var x :| IsMax(m, x);
    x
  }

  lemma {:induction false} MaxExists<K>(m: map<K, real>)
    requires m != map[]
    ensures exists x :: IsMax(m, x)
    decreases |m|
  {
    var k :| k in m;
    if m - {k} == map[] {
      assert forall j :: j in m ==> j == k || j in m - {k};
      assert IsMax(m, m[k]);
    } else {
      RemoveShrinks(m, k);
      MaxExists(m - {k});
      var x :| IsMax(m - {k}, x);
      assert forall j :: j in m ==> j == k || j in m - {k};
      assert IsMax(m, Max(x, m[k]));
    }
  }

  method MaxOf<K(==)>(m: map<K, real>) returns (x: real)
    requires m != map[]
    ensures x == MaxValue(m)
  {
    var first :| first in m;
    x := m[first];
    var rest := m - {first};
    while rest != map[]
      invariant rest.Keys <= m.Keys && forall k :: k in rest ==> rest[k] == m[k]
      invariant exists k :: k in m && m[k] == x
      invariant forall k :: k in m && k !in rest ==> m[k] <= x
      decreases |rest|
    {
      var k :| k in rest;
      RemoveShrinks(rest, k);
      if x < rest[k] {
        x := rest[k];
      }
      rest := rest - {k};
    }
    assert IsMax(m, x);
  }

  // ---- Sequences --------------------------------------------------------------

  function Total(xs: seq<real>): real {
    if xs == [] then 0.0 else Total(xs[..|xs| - 1]) + xs[|xs| - 1]
  }

  predicate Distinct<K(==)>(ids: seq<K>) { forall i, j :: 0 <= i < j < |ids| ==> ids[i] != ids[j] }

  /** A duplicate-free listing of exactly these keys. */
  ghost predicate Enumerates<K>(ids: seq<K>, keys: set<K>) {
    Distinct(ids) && (forall k | k in keys :: k in ids) && (forall i | 0 <= i < |ids| :: ids[i] in keys)
  }

  lemma EnumerationFront<K>(ids: seq<K>, keys: set<K>)
    requires Enumerates(ids, keys) && ids != []
    ensures var n := |ids| - 1; ids[n] in keys && Enumerates(ids[..n], keys - {ids[n]})
  {
  }

  /** The values of m in the order of ids. */
  function Along<K>(ids: seq<K>, m: map<K, real>): seq<real> {
    seq(|ids|, i requires 0 <= i < |ids| => if ids[i] in m then m[ids[i]] else 0.0)
  }

  /** An enumeration of the keys sums to the map's sum, whatever its order. */
  lemma {:induction false} SumAlong<K>(ids: seq<K>, m: map<K, real>)
    requires Enumerates(ids, m.Keys)
    ensures Sum(m) == Total(Along(ids, m)) && |ids| == |m|
    decreases |ids|
  {
    if ids == [] {
      assert m == map[];
    } else {
      hide Sum, Enumerates;
      var n := |ids| - 1;
      var front, k := ids[..n], ids[n];
      EnumerationFront(ids, m.Keys);
      RemoveShrinks(m, k);
      SumRemove(m, k);
      SumAlong(front, m - {k});
      AlongFront(ids, m);
    }
  }

  lemma AlongFront<K>(ids: seq<K>, m: map<K, real>)
    requires Enumerates(ids, m.Keys) && ids != []
    ensures var n := |ids| - 1;
      Along(ids, m)[..n] == Along(ids[..n], m - {ids[n]}) && Along(ids, m)[n] == m[ids[n]]
  {
  }
}
