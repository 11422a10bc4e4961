/** Sums over finite maps. The ledger's conservation laws are sums over storage maps that
    grow and are updated one key at a time; this module says how such a sum moves. */
module MapTotals {

  ghost function Pick<K, V>(m: map<K, V>): (k: K)
    requires m != map[]
    ensures k in m
  {
    assert m.Keys != {};
    var k :| k in m;
    k
  }

  /** The sum of `weight(m[k])` over all keys `k` of `m`. */
  ghost function Total<K, V>(m: map<K, V>, weight: V -> nat): nat
    decreases |m|
  {
    if m == map[] then 0 else var k := Pick(m); weight(m[k]) + Total(m - {k}, weight)
  }

  /** Any key can be split off, whichever one the definition picks. */
  lemma {:induction false} TotalRemove<K, V>(m: map<K, V>, k: K, weight: V -> nat)
    requires k in m
    ensures Total(m, weight) == weight(m[k]) + Total(m - {k}, weight)
    decreases |m|
  {
    var j := Pick(m);
    if j != k {
      TotalRemove(m - {j}, k, weight);
      TotalRemove(m - {k}, j, weight);
      assert m - {j} - {k} == m - {k} - {j};
    }
  }

  /** Writing one key moves the sum by the difference of the two weights. */
  lemma TotalPut<K, V>(m: map<K, V>, k: K, v: V, weight: V -> nat)
    ensures Total(m[k := v], weight) + (if k in m then weight(m[k]) else 0) == Total(m, weight) + weight(v)
  {
    TotalRemove(m[k := v], k, weight);
    if k in m {
      TotalRemove(m, k, weight);
      assert m[k := v] - {k} == m - {k};
    } else {
      assert m[k := v] - {k} == m;
    }
  }

  lemma TotalMember<K, V>(m: map<K, V>, k: K, weight: V -> nat)
    requires k in m
    ensures weight(m[k]) <= Total(m, weight)
  {
    TotalRemove(m, k, weight);
  }

  lemma {:induction false} TotalMonotone<K, V>(m: map<K, V>, low: V -> nat, high: V -> nat)
    requires forall k :: k in m ==> low(m[k]) <= high(m[k])
    ensures Total(m, low) <= Total(m, high)
    decreases |m|
  {
    if m != map[] {
      TotalMonotone(m - {Pick(m)}, low, high);
    }
  }

  lemma {:induction false} TotalZero<K, V>(m: map<K, V>, weight: V -> nat)
    requires forall k :: k in m ==> weight(m[k]) == 0
    ensures Total(m, weight) == 0
    decreases |m|
  {
    if m != map[] {
      TotalZero(m - {Pick(m)}, weight);
    }
  }

  /** The sum of the values themselves, which may be negative. */
  ghost function Sum<K>(m: map<K, int>): int
    decreases |m|
  {
    if m == map[] then 0 else var k := Pick(m); m[k] + Sum(m - {k})
  }

  lemma {:induction false} SumRemove<K>(m: map<K, int>, k: K)
    requires k in m
    ensures Sum(m) == m[k] + Sum(m - {k})
    decreases |m|
  {
    var j := Pick(m);
    if j != k {
      SumRemove(m - {j}, k);
      SumRemove(m - {k}, j);
      assert m - {j} - {k} == m - {k} - {j};
    }
  }

  /** A weighted sum is the plain sum of the weights, and keys without weight can be left out. */
  lemma {:induction false} TotalIsSum<K, V>(m: map<K, V>, weight: V -> nat, part: map<K, int>)
    requires forall k :: k in part ==> k in m && part[k] == weight(m[k])
    requires forall k :: k in m && k !in part ==> weight(m[k]) == 0
    ensures Total(m, weight) == Sum(part)
    decreases |m|
  {
    if m == map[] {
      assert part == map[];
    } else {
      var k := Pick(m);
      if k in part {
        SumRemove(part, k);
      } else {
        assert part - {k} == part;
      }
      TotalIsSum(m - {k}, weight, part - {k});
    }
  }

  /** The sum taken along a sequence of keys. */
  ghost function TotalAlong<K, V>(m: map<K, V>, keys: seq<K>, weight: V -> nat): nat
    requires forall i :: 0 <= i < |keys| ==> keys[i] in m
  {
    if keys == [] then 0
    else TotalAlong(m, keys[..|keys| - 1], weight) + weight(m[keys[|keys| - 1]])
  }

  /** `keys` lists every key of `m` exactly once, in some order. */
  ghost predicate Enumerates<K, V>(keys: seq<K>, m: map<K, V>) {
    && (forall i :: 0 <= i < |keys| ==> keys[i] in m)
    && (forall i, j :: 0 <= i < j < |keys| ==> keys[i] != keys[j])
    && (forall k :: k in m ==> k in keys)
  }

  lemma {:induction false} TotalAlongWithout<K, V>(m: map<K, V>, k: K, keys: seq<K>, weight: V -> nat)
    requires forall i :: 0 <= i < |keys| ==> keys[i] in m && keys[i] != k
    ensures TotalAlong(m, keys, weight) == TotalAlong(m - {k}, keys, weight)
  {
    if keys != [] {
      TotalAlongWithout(m, k, keys[..|keys| - 1], weight);
    }
  }

  /** The order in which a storage map is iterated does not matter to the sum. */
  lemma {:induction false} TotalOfEnumeration<K, V>(m: map<K, V>, keys: seq<K>, weight: V -> nat)
    requires Enumerates(keys, m)
    ensures TotalAlong(m, keys, weight) == Total(m, weight)
    decreases |keys|
  {
    if keys == [] {
      assert m == map[];
    } else {
      var last := keys[|keys| - 1];
      var front := keys[..|keys| - 1];
      assert Enumerates(front, m - {last}) by {
        forall k | k in m - {last} ensures k in front {
          var i :| 0 <= i < |keys| && keys[i] == k;
          assert front[i] == k;
        }
      }
      TotalAlongWithout(m, last, front, weight);
      TotalOfEnumeration(m - {last}, front, weight);
      TotalRemove(m, last, weight);
    }
  }
}
