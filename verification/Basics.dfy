/**
 What several modules share: an optional value, the size of a 64-bit word,
 lists without repetition, and sums of the values of a map over some of its keys.
 */
module Basics {

  datatype Option<T> = None | Some(value: T)

  const TWO_64: nat := 0x1_0000_0000_0000_0000

  predicate Distinct(keys: seq<string>) {
    forall i, j :: 0 <= i < j < |keys| ==> keys[i] != keys[j]
  }

  lemma DistinctTail(keys: seq<string>)
    requires Distinct(keys) && keys != []
    ensures Distinct(keys[1..]) && keys[0] !in keys[1..]
    ensures forall k :: k in keys <==> k == keys[0] || k in keys[1..]
  {
    assert keys == [keys[0]] + keys[1..];
  }

  lemma OneMore(k: int, x: int)
    ensures (k + 1) * x == k * x + x
  {
  }

  ghost function Sum<K>(keys: set<K>, m: map<K, int>): int
    requires keys <= m.Keys
  {
    if keys == {} then 0
    else
      var k :| k in keys;
      m[k] + Sum(keys - {k}, m)
  }

  lemma {:induction false} SumSplit<K>(keys: set<K>, m: map<K, int>, k: K)
    requires keys <= m.Keys && k in keys
    ensures Sum(keys, m) == m[k] + Sum(keys - {k}, m)
    decreases |keys|
  {
    var j :| j in keys && Sum(keys, m) == m[j] + Sum(keys - {j}, m);
    if j != k {
      SumSplit(keys - {j}, m, k);
      SumSplit(keys - {k}, m, j);
      assert keys - {j} - {k} == keys - {k} - {j};
    }
  }

  lemma {:induction false} SumAgrees<K>(keys: set<K>, m: map<K, int>, n: map<K, int>)
    requires keys <= m.Keys && keys <= n.Keys && forall k :: k in keys ==> m[k] == n[k]
    ensures Sum(keys, m) == Sum(keys, n)
    decreases |keys|
  {
    if k :| k in keys {
      SumSplit(keys, m, k);
      SumSplit(keys, n, k);
      SumAgrees(keys - {k}, m, n);
    } else {
      assert keys == {};
    }
  }

  lemma {:induction false} SumOfSubset<K>(few: set<K>, keys: set<K>, m: map<K, int>)
    requires few <= keys <= m.Keys
    requires forall k :: k in keys ==> m[k] > 0
    ensures 0 <= Sum(few, m) <= Sum(keys, m)
    ensures keys != {} ==> Sum(keys, m) > 0
    decreases |keys|
  {
    if keys == {} {
      assert few == {};
    } else if k :| k in keys {
      SumSplit(keys, m, k);
      if k in few {
        SumSplit(few, m, k);
      }
      SumOfSubset(few - {k}, keys - {k}, m);
      if k !in few {
        assert few - {k} == few;
      }
    }
  }
}
