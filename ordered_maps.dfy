/** Python's `dict` as the core uses it: a sequence of key/value entries with
    distinct keys, kept in insertion order. Assigning to an existing key keeps
    its position; assigning to a new key appends it. */
module OrderedMaps {
  import opened Wrappers

  type Entries<K, V> = seq<(K, V)>

  /** No key occurs twice. */
  predicate UniqueKeys<K(==), V>(m: Entries<K, V>) {
    forall i, j :: 0 <= i < j < |m| ==> m[i].0 != m[j].0
  }

  /** `list(d.keys())`. */
  function Keys<K(==), V>(m: Entries<K, V>): (r: seq<K>)
    ensures |r| == |m| && forall i :: 0 <= i < |m| ==> r[i] == m[i].0
  {
    seq(|m|, i requires 0 <= i < |m| => m[i].0)
  }

  /** `list(d.values())`. */
  function Values<K(==), V>(m: Entries<K, V>): (r: seq<V>)
    ensures |r| == |m| && forall i :: 0 <= i < |m| ==> r[i] == m[i].1
  {
    seq(|m|, i requires 0 <= i < |m| => m[i].1)
  }

  predicate HasKey<K(==), V>(m: Entries<K, V>, k: K) {
    exists i :: 0 <= i < |m| && m[i].0 == k
  }

  /** Position of `k`, or -1 when it is absent. */
  function IndexOf<K(==), V>(m: Entries<K, V>, k: K): (r: int)
    ensures -1 <= r < |m|
    ensures r == -1 <==> !HasKey(m, k)
    ensures r >= 0 ==> m[r].0 == k && forall j :: 0 <= j < r ==> m[j].0 != k
  {
    if |m| == 0 then -1
    else if m[0].0 == k then 0
    else
      var i := IndexOf(m[1..], k);
      assert forall j :: 1 <= j < |m| ==> m[1..][j - 1] == m[j];
      if i == -1 then -1 else i + 1
  }

  /** `d.get(k)`. */
  function Get<K(==), V>(m: Entries<K, V>, k: K): (r: Option<V>)
    ensures r.None? <==> !HasKey(m, k)
    ensures r.Some? ==> exists i :: 0 <= i < |m| && m[i] == (k, r.value)
  {
    var i := IndexOf(m, k);
    if i < 0 then None else Some(m[i].1)
  }

  /** `d[k] = v`. */
  function Put<K(==), V>(m: Entries<K, V>, k: K, v: V): (r: Entries<K, V>)
    ensures HasKey(m, k) ==> |r| == |m| && Keys(r) == Keys(m)
    ensures !HasKey(m, k) ==> Keys(r) == Keys(m) + [k]
  {
    var i := IndexOf(m, k);
    if i < 0 then m + [(k, v)] else m[i := (k, v)]
  }

  /** In a map with distinct keys, the entry for `k` is the one at its index. */
  lemma GetAt<K, V>(m: Entries<K, V>, i: nat)
    requires UniqueKeys(m) && i < |m|
    ensures Get(m, m[i].0) == Some(m[i].1)
  {
    assert HasKey(m, m[i].0);
  }

  /** Assignment keeps the keys distinct, stores `v` under `k` and leaves every
      other key's value as it was. */
  lemma PutProperties<K, V>(m: Entries<K, V>, k: K, v: V)
    requires UniqueKeys(m)
    ensures UniqueKeys(Put(m, k, v))
    ensures Get(Put(m, k, v), k) == Some(v)
    ensures forall k' :: k' != k ==> Get(Put(m, k, v), k') == Get(m, k')
  {
    var r := Put(m, k, v);
    var i := IndexOf(m, k);
    assert forall j :: 0 <= j < |r| ==> r[j].0 == Keys(r)[j];
    assert UniqueKeys(r);
    if i < 0 {
      GetAt(r, |m|);
    } else {
      GetAt(r, i);
    }
    forall k' | k' != k
      ensures Get(r, k') == Get(m, k')
    {
      if HasKey(m, k') {
        var j := IndexOf(m, k');
        GetAt(m, j);
        assert r[j] == m[j];
        GetAt(r, j);
      } else {
        assert !HasKey(r, k');
      }
    }
  }
}
