/** Counting: how many keys of a map have a given value (reference counts), and how many
    different values a sequence can hold. */
module Counting {
  function Holders<K, V(==)>(m: map<K, V>, v: V): set<K> {
    set k | k in m && m[k] == v
  }

  function Count<K, V(==)>(m: map<K, V>, v: V): nat { |Holders(m, v)| }

  lemma CountAdd<K, V>(m: map<K, V>, k: K, v: V, q: V)
    requires k !in m
    ensures Count(m[k := v], q) == Count(m, q) + (if q == v then 1 else 0)
  {
    if q == v {
      assert Holders(m[k := v], q) == Holders(m, q) + {k};
    } else {
      assert Holders(m[k := v], q) == Holders(m, q);
    }
  }

  lemma CountDrop<K, V>(m: map<K, V>, k: K, q: V)
    requires k in m
    ensures Count(m - {k}, q) == Count(m, q) - (if q == m[k] then 1 else 0)
  {
    if q == m[k] {
      assert Holders(m, q) == Holders(m - {k}, q) + {k};
    } else {
      assert Holders(m - {k}, q) == Holders(m, q);
    }
  }

  lemma CountPositive<K, V>(m: map<K, V>, k: K)
    requires k in m
    ensures Count(m, m[k]) >= 1
  {
    assert k in Holders(m, m[k]);
  }

  lemma CountOne<K, V>(m: map<K, V>, k: K, l: K)
    requires k in m && l in m && m[k] == m[l] && Count(m, m[k]) == 1
    ensures k == l
  {
    if k != l {
      assert {k, l} <= Holders(m, m[k]);
      assert |{k, l}| == 2;
      Subset({k, l}, Holders(m, m[k]));
    }
  }

  lemma {:induction false} Subset<T>(a: set<T>, b: set<T>)
    requires a <= b
    ensures |a| <= |b|
    decreases a
  {
    if a != {} {
      var x :| x in a;
      Subset(a - {x}, b - {x});
    }
  }

  function Below(n: nat): (s: set<nat>)
    ensures forall i: nat :: i in s <==> i < n
  {
    if n == 0 then {} else Below(n - 1) + {n - 1}
  }

  lemma {:induction false} BelowSize(n: nat)
    ensures |Below(n)| == n
  {
    if n > 0 {
      BelowSize(n - 1);
    }
  }

  predicate NoRepeats(q: seq<nat>) { forall i, j :: 0 <= i < j < |q| ==> q[i] != q[j] }

  function Elements(q: seq<nat>): (s: set<nat>)
    ensures forall x :: x in s <==> x in q
    decreases |q|
  {
    if q == [] then {} else Elements(q[..|q| - 1]) + {q[|q| - 1]}
  }

  lemma {:induction false} ElementsSize(q: seq<nat>)
    requires NoRepeats(q)
    ensures |Elements(q)| == |q|
    decreases |q|
  {
    if q != [] {
      var k := |q| - 1;
      ElementsSize(q[..k]);
      assert q[k] !in q[..k];
    }
  }

  lemma {:induction false} DistinctSize(q: seq<nat>, s: set<nat>)
    requires NoRepeats(q) && forall i :: 0 <= i < |q| ==> q[i] in s
    ensures |q| <= |s|
    decreases |q|
  {
    if q != [] {
      var n := |q| - 1;
      DistinctSize(q[..n], s - {q[n]});
    }
  }
}
