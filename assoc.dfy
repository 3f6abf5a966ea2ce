/**
 * PHP arrays with string keys, as the request classes and the fetcher use
 * them: entries keep their insertion order, and assigning to an existing key
 * replaces its value where it stands.
 */
module Assoc {
  import opened Base

  type Assoc<V> = seq<(string, V)>

  /** The keys of the entries, in order. */
  function Keys<V>(m: Assoc<V>): seq<string>
  {
    seq(|m|, i requires 0 <= i < |m| => m[i].0)
  }

  function KeySet<V>(m: Assoc<V>): set<string>
  {
    set i | 0 <= i < |m| :: m[i].0
  }

  /** The keys of a non-empty array: its first key and the keys of the rest. */
  lemma KeySetCons<V>(m: Assoc<V>)
    requires |m| > 0
    ensures KeySet(m) == {m[0].0} + KeySet(m[1..])
  {
    forall x | x in KeySet(m) ensures x == m[0].0 || x in KeySet(m[1..]) {
      var i :| 0 <= i < |m| && m[i].0 == x;
      if i > 0 { assert m[1..][i - 1].0 == x; }
    }
    forall x | x in KeySet(m[1..]) ensures x in KeySet(m) {
      var i :| 0 <= i < |m[1..]| && m[1..][i].0 == x;
      assert m[i + 1].0 == x;
    }
  }

  /** $m[$k], or None where PHP would warn of an undefined key. */
  function Get<V>(m: Assoc<V>, k: string): (r: Option<V>)
    ensures r.Some? <==> k in KeySet(m)
    decreases |m|
  {
    if |m| == 0 then None
    else if m[0].0 == k then Some(m[0].1)
    else
      KeySetCons(m);
      Get(m[1..], k)
  }

  /** $m[$k] = $v: replaces the value of an existing key in place, or appends a new entry. */
  function Put<V>(m: Assoc<V>, k: string, v: V): (r: Assoc<V>)
    ensures Get(r, k) == Some(v)
    ensures forall k' :: k' != k ==> Get(r, k') == Get(m, k')
    ensures KeySet(r) == KeySet(m) + {k}
    ensures |r| == if k in KeySet(m) then |m| else |m| + 1
    ensures forall i :: 0 <= i < |m| ==> r[i].0 == m[i].0
    ensures k !in KeySet(m) ==> r[|m|].0 == k
    decreases |m|
  {
    if |m| == 0 then [(k, v)]
    else if m[0].0 == k then
      var r := [(k, v)] + m[1..];
      KeySetCons(m);
      KeySetCons(r);
      assert r[1..] == m[1..];
      r
    else
      var tail := Put(m[1..], k, v);
      var r := [m[0]] + tail;
      KeySetCons(m);
      assert r[1..] == tail;
      KeySetCons(r);
      assert k !in KeySet(m) ==> r[|m|].0 == k by {
        if k !in KeySet(m) {
          assert r[|m|] == tail[|m| - 1];
        }
      }
      r
  }

  /** No key occurs twice, as in every PHP array. */
  predicate DistinctKeys<V>(m: Assoc<V>)
  {
    forall i, j :: 0 <= i < j < |m| ==> m[i].0 != m[j].0
  }

  /** A non-empty array has distinct keys when its first key is not among the rest and the rest have distinct keys. */
  lemma DistinctCons<V>(m: Assoc<V>)
    requires |m| > 0
    ensures DistinctKeys(m) <==> m[0].0 !in KeySet(m[1..]) && DistinctKeys(m[1..])
  {
    if DistinctKeys(m) {
      forall i | 0 <= i < |m[1..]| ensures m[1..][i].0 != m[0].0 {
        assert m[1..][i] == m[i + 1];
      }
      forall a, b | 0 <= a < b < |m[1..]| ensures m[1..][a].0 != m[1..][b].0 {
        assert m[1..][a] == m[a + 1] && m[1..][b] == m[b + 1];
      }
    }
    if m[0].0 !in KeySet(m[1..]) && DistinctKeys(m[1..]) {
      forall a, b | 0 <= a < b < |m| ensures m[a].0 != m[b].0 {
        assert m[b] == m[1..][b - 1];
        if a > 0 {
          assert m[a] == m[1..][a - 1];
        }
      }
    }
  }

  /** Assignment keeps keys distinct. */
  lemma {:induction false} PutDistinct<V>(m: Assoc<V>, k: string, v: V)
    requires DistinctKeys(m)
    ensures DistinctKeys(Put(m, k, v))
    decreases |m|
  {
    var r := Put(m, k, v);
    if |m| > 0 {
      DistinctCons(m);
      if m[0].0 != k {
        PutDistinct(m[1..], k, v);
        assert r[1..] == Put(m[1..], k, v);
      } else {
        assert r[1..] == m[1..];
      }
      DistinctCons(r);
    }
  }

  /** In a PHP array the value stored at an entry is what a lookup of its key yields. */
  lemma {:induction false} GetAt<V>(m: Assoc<V>, i: nat)
    requires DistinctKeys(m) && i < |m|
    ensures Get(m, m[i].0) == Some(m[i].1)
    decreases i
  {
    if i > 0 {
      assert DistinctKeys(m[1..]) by {
        forall a, b | 0 <= a < b < |m[1..]| ensures m[1..][a].0 != m[1..][b].0 {
          assert m[1..][a] == m[a + 1] && m[1..][b] == m[b + 1];
        }
      }
      GetAt(m[1..], i - 1);
      assert m[1..][i - 1] == m[i];
    }
  }

  /** The keys after an assignment: unchanged for an existing key, the new key appended otherwise. */
  lemma PutKeys<V>(m: Assoc<V>, k: string, v: V)
    ensures Keys(Put(m, k, v)) == if k in KeySet(m) then Keys(m) else Keys(m) + [k]
  {
    var r := Put(m, k, v);
    var want := if k in KeySet(m) then Keys(m) else Keys(m) + [k];
    assert |Keys(r)| == |want|;
    forall i | 0 <= i < |r| ensures Keys(r)[i] == want[i] {
      if i < |m| {
        assert r[i].0 == m[i].0;
      }
    }
  }

  /** Two arrays with distinct keys, the same keys in the same order and the same lookups are equal. */
  lemma Extensional<V>(a: Assoc<V>, b: Assoc<V>)
    requires DistinctKeys(a) && DistinctKeys(b)
    requires Keys(a) == Keys(b)
    requires forall k :: Get(a, k) == Get(b, k)
    ensures a == b
  {
    assert |a| == |Keys(a)| == |Keys(b)| == |b|;
    forall i | 0 <= i < |a| ensures a[i] == b[i] {
      assert a[i].0 == Keys(a)[i] == Keys(b)[i] == b[i].0;
      GetAt(a, i);
      GetAt(b, i);
    }
  }

  /** The keys of a one-longer prefix: those of the prefix and the key of the next entry. */
  lemma KeySetPrefix<V>(m: Assoc<V>, i: nat)
    requires i < |m|
    ensures KeySet(m[..i + 1]) == KeySet(m[..i]) + {m[i].0}
  {
    forall x | x in KeySet(m[..i + 1]) ensures x in KeySet(m[..i]) + {m[i].0} {
      var j :| 0 <= j < i + 1 && m[..i + 1][j].0 == x;
      if j < i { assert m[..i][j].0 == x; }
    }
    forall x | x in KeySet(m[..i]) ensures x in KeySet(m[..i + 1]) {
      var j :| 0 <= j < i && m[..i][j].0 == x;
      assert m[..i + 1][j].0 == x;
    }
  }
}
