/** Counting the entries of a finite map whose value has a property. */
module Tally {

  ghost function Those<K, V>(m: map<K, V>, p: V -> bool): set<K> {
    set k | k in m && p(m[k])
  }

  ghost function Num<K, V>(m: map<K, V>, p: V -> bool): nat {
    |Those(m, p)|
  }

  function Bit(b: bool): nat {
    if b then 1 else 0
  }

  lemma NumAfterPut<K, V>(m: map<K, V>, k: K, v: V, p: V -> bool)
    ensures Num(m[k := v], p) == Num(m, p) - Bit(k in m && p(m[k])) + Bit(p(v))
  {
    var rest := Those(m, p) - {k};
    assert Those(m, p) == if k in m && p(m[k]) then rest + {k} else rest;
    assert Those(m[k := v], p) == if p(v) then rest + {k} else rest;
  }

  lemma NumAfterRemove<K, V>(m: map<K, V>, k: K, p: V -> bool)
    ensures Num(m - {k}, p) == Num(m, p) - Bit(k in m && p(m[k]))
  {
    assert Those(m - {k}, p) == Those(m, p) - {k};
    assert k !in Those(m, p) ==> Those(m, p) - {k} == Those(m, p);
  }

  lemma NumPositive<K, V>(m: map<K, V>, k: K, p: V -> bool)
    requires k in m && p(m[k])
    ensures Num(m, p) > 0
  {
    assert k in Those(m, p);
  }

  /** Some number is not in a finite set. */
  lemma Unused(taken: set<nat>) returns (n: nat)
    ensures n !in taken
  {
    n := 0;
    var seen: set<nat> := {};
    while n in taken
      invariant seen <= taken && forall k :: k in seen <==> 0 <= k < n
      decreases taken - seen
    {
      seen := seen + {n};
      n := n + 1;
    }
  }
}
