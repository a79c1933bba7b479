/**
 What the modules rely on in the key-value store: keys are byte strings, and an
 iterator visits the keys that were there when it was made, in ascending
 byte order.
 */
module KVStore {

  predicate LexLeq(a: string, b: string) {
    a == [] || (b != [] && (a[0] < b[0] || (a[0] == b[0] && LexLeq(a[1..], b[1..]))))
  }

  lemma {:induction false} LexTotal(a: string, b: string)
    ensures LexLeq(a, b) || LexLeq(b, a)
  {
    if a != [] && b != [] {
      LexTotal(a[1..], b[1..]);
    }
  }

  lemma {:induction false} LexAntisymmetric(a: string, b: string)
    requires LexLeq(a, b) && LexLeq(b, a)
    ensures a == b
  {
    if a != [] && b != [] {
      LexAntisymmetric(a[1..], b[1..]);
      assert a == [a[0]] + a[1..];
    }
  }

  lemma {:induction false} LexTransitive(a: string, b: string, c: string)
    requires LexLeq(a, b) && LexLeq(b, c)
    ensures LexLeq(a, c)
  {
    if a != [] && a[0] == b[0] && b[0] == c[0] {
      LexTransitive(a[1..], b[1..], c[1..]);
    }
  }

  predicate IsLeast(k: string, keys: set<string>) {
    k in keys && forall x :: x in keys ==> LexLeq(k, x)
  }

  lemma {:induction false} LeastExists(keys: set<string>)
    requires keys != {}
    ensures exists k :: IsLeast(k, keys)
  {
    var x :| x in keys;
    var rest := keys - {x};
    LexTotal(x, x);
    if rest == {} {
      assert keys == {x};
      assert IsLeast(x, keys);
    } else {
      LeastExists(rest);
      var y :| IsLeast(y, rest);
      LexTotal(x, y);
      var k := if LexLeq(x, y) then x else y;
      forall z | z in keys
        ensures LexLeq(k, z)
      {
        if z != x && k == x {
          LexTransitive(x, y, z);
        }
      }
      assert IsLeast(k, keys);
    }
  }

  lemma LeastIsUnique(j: string, k: string, keys: set<string>)
    requires IsLeast(j, keys) && IsLeast(k, keys)
    ensures j == k
  {
    LexAntisymmetric(j, k);
  }

  function Least(keys: set<string>): (k: string)
    requires keys != {}
    ensures IsLeast(k, keys)
  {
    LeastExists(keys);
    assert forall j, k :: IsLeast(j, keys) && IsLeast(k, keys) ==> j == k by {
      forall j, k | IsLeast(j, keys) && IsLeast(k, keys)
        ensures j == k
      {
        LeastIsUnique(j, k, keys);
      }
    }
    var k :| k in keys && IsLeast(k, keys);
    k
  }

  /** The order in which an iterator over these keys visits them. */
  function SortedKeys(keys: set<string>): (order: seq<string>)
    ensures forall k :: k in order <==> k in keys
    ensures forall i, j :: 0 <= i < j < |order| ==> order[i] != order[j] && LexLeq(order[i], order[j])
    ensures |order| == |keys|
  {
    if keys == {} then []
    else
      var k := Least(keys);
      [k] + SortedKeys(keys - {k})
  }

  // --------------------------------------------------------------- ascending keys

  predicate Ascending(keys: seq<string>) {
    forall i, j :: 0 <= i < j < |keys| ==> keys[i] != keys[j] && LexLeq(keys[i], keys[j])
  }

  /** The first of ascending keys comes strictly before the others. */
  lemma FirstOfAscending(keys: seq<string>)
    requires Ascending(keys) && keys != []
    ensures Ascending(keys[1..])
    ensures forall m :: m in keys <==> m == keys[0] || m in keys[1..]
    ensures LexLeq(keys[0], keys[0])
    ensures forall m :: m in keys[1..] ==> m != keys[0] && LexLeq(keys[0], m) && !LexLeq(m, keys[0])
  {
    assert keys == [keys[0]] + keys[1..];
    LexTotal(keys[0], keys[0]);
    forall m | m in keys[1..]
      ensures m != keys[0] && LexLeq(keys[0], m) && !LexLeq(m, keys[0])
    {
      var i :| 0 <= i < |keys[1..]| && keys[1..][i] == m;
      assert keys[i + 1] == m;
      if LexLeq(m, keys[0]) {
        LexAntisymmetric(m, keys[0]);
      }
    }
  }
}
