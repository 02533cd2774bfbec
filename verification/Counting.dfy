/** Counting the entries of a finite map that satisfy a predicate. */
module Counting {

  ghost function Keys<K(!new), V(!new)>(m: map<K, V>, p: V -> bool): set<K> {
    set k | k in m && p(m[k])
  }

  ghost function Count<K(!new), V(!new)>(m: map<K, V>, p: V -> bool): nat {
    |Keys(m, p)|
  }

  function Bit(b: bool): nat { if b then 1 else 0 }

  lemma KeysUpdate<K(!new), V(!new)>(m: map<K, V>, k: K, v: V, p: V -> bool)
    ensures Keys(m[k := v], p) == if p(v) then Keys(m, p) + {k} else Keys(m, p) - {k}
  {
    var n := m[k := v];
    forall j ensures j in Keys(n, p) <==> if j == k then p(v) else j in Keys(m, p) {}
  }

  lemma CountUpdate<K(!new), V(!new)>(m: map<K, V>, k: K, v: V, p: V -> bool)
    ensures Count(m[k := v], p) == Count(m, p) - Bit(k in m && p(m[k])) + Bit(p(v))
  {
    KeysUpdate(m, k, v, p);
    KeysHas(m, k, p);
    hide Keys;
    WithOrWithout(Keys(m, p), k);
    OneMore(Keys(m, p), k);
  }

  lemma KeysHas<K(!new), V(!new)>(m: map<K, V>, k: K, p: V -> bool)
    ensures k in Keys(m, p) <==> k in m && p(m[k])
  {
  }

  lemma OneMore<K>(s: set<K>, k: K)
    ensures |s + {k}| == |s| + Bit(k !in s)
  {
    if k in s { assert s + {k} == s; }
  }

  lemma WithOrWithout<K>(s: set<K>, k: K)
    ensures |s| == |s - {k}| + Bit(k in s)
  {
    if k in s {
      assert s == (s - {k}) + {k};
    } else {
      assert s == s - {k};
    }
  }

  lemma CountRemove<K(!new), V(!new)>(m: map<K, V>, k: K, p: V -> bool)
    requires k in m
    ensures Count(m - {k}, p) == Count(m, p) - Bit(p(m[k]))
  {
    assert Keys(m - {k}, p) == Keys(m, p) - {k};
    WithOrWithout(Keys(m, p), k);
  }

  lemma CountSame<K(!new), V(!new)>(m: map<K, V>, n: map<K, V>, p: V -> bool)
    requires m.Keys == n.Keys
    requires forall k | k in m :: p(m[k]) == p(n[k])
    ensures Count(m, p) == Count(n, p)
  {
    assert Keys(m, p) == Keys(n, p);
  }

  /** A positive count has a witness, and a witness makes the count positive. */
  lemma CountWitness<K(!new), V(!new)>(m: map<K, V>, p: V -> bool)
    ensures Count(m, p) > 0 <==> exists k :: k in m && p(m[k])
  {
    var s := Keys(m, p);
    if Count(m, p) > 0 {
      var k :| k in s;
      assert k in m && p(m[k]);
    }
    if k :| k in m && p(m[k]) {
      assert k in s;
    }
  }

  lemma CountBounded<K(!new), V(!new)>(m: map<K, V>, p: V -> bool)
    ensures Count(m, p) <= |m.Keys|
  {
    SubsetSize(Keys(m, p), m.Keys);
  }

  lemma {:induction false} SubsetSize<K>(a: set<K>, b: set<K>)
    requires a <= b
    ensures |a| <= |b|
  {
    if a != {} {
      var x :| x in a;
      SubsetSize(a - {x}, b - {x});
    }
  }
}
