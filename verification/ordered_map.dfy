/** A JavaScript `Map<number, V>`: key/value entries in insertion order.
    `set` on a present key replaces the value in place; on a new key it
    appends. Iterating `values()` follows the entry order. */
module OrderedMap {
  import opened Util

  type Entries<V> = seq<(int, V)>

  predicate HasKey<V>(m: Entries<V>, k: int) {
    exists i :: 0 <= i < |m| && m[i].0 == k
  }

  /** `m.get(k)`. */
  function Get<V>(m: Entries<V>, k: int): (r: Option<V>)
    ensures r.Some? <==> HasKey(m, k)
    ensures r.Some? ==> exists i :: 0 <= i < |m| && m[i] == (k, r.value)
  {
    if |m| == 0 then None
    else if m[0].0 == k then Some(m[0].1)
    else
      var r := Get(m[1..], k);
      assert forall i :: 1 <= i < |m| ==> m[1..][i - 1] == m[i];
      r
  }

  /** `m.set(k, v)`: entries keep their positions and keys; the entry under
      `k` is replaced, or a new one is appended when `k` is absent. */
  function Set<V>(m: Entries<V>, k: int, v: V): (r: Entries<V>)
    ensures !HasKey(m, k) ==> r == m + [(k, v)]
    ensures HasKey(m, k) ==> |r| == |m|
    ensures forall i :: 0 <= i < |m| ==> r[i].0 == m[i].0
    ensures forall i :: 0 <= i < |m| ==> r[i] == m[i] || (m[i].0 == k && r[i] == (k, v))
    ensures HasKey(m, k) ==> exists i :: 0 <= i < |m| && m[i].0 == k && r[i] == (k, v)
  {
    if |m| == 0 then [(k, v)]
    else if m[0].0 == k then
      var r := [(k, v)] + m[1..];
      assert r[0] == (k, v);
      r
    else
      var rest := Set(m[1..], k, v);
      assert forall i :: 1 <= i < |m| ==> m[1..][i - 1] == m[i];
      assert HasKey(m, k) <==> HasKey(m[1..], k);
      var r := [m[0]] + rest;
      assert r[1..] == rest;
      assert HasKey(m, k) ==> exists i :: 0 <= i < |m| && m[i].0 == k && r[i] == (k, v) by {
        if HasKey(m, k) {
          var j :| 0 <= j < |m| - 1 && m[1..][j].0 == k && rest[j] == (k, v);
          assert m[j + 1].0 == k && r[j + 1] == (k, v);
        }
      }
      r
  }

  /** After `m.set(k, v)`, `k` maps to `v` and every other key maps to
      what it mapped to before. */
  lemma {:induction false} SetThenGet<V>(m: Entries<V>, k: int, v: V)
    ensures Get(Set(m, k, v), k) == Some(v)
    ensures forall k' :: k' != k ==> Get(Set(m, k, v), k') == Get(m, k')
  {
    var r := Set(m, k, v);
    if |m| != 0 {
      if m[0].0 == k {
        assert r[0] == (k, v) && r[1..] == m[1..];
      } else {
        SetThenGet(m[1..], k, v);
        assert r[0] == m[0] && r[1..] == Set(m[1..], k, v);
      }
    }
  }

  /** `Array.from(m.values())`. */
  function Values<V>(m: Entries<V>): (vs: seq<V>)
    ensures |vs| == |m|
    ensures forall i :: 0 <= i < |m| ==> vs[i] == m[i].1
  {
    if |m| == 0 then [] else [m[0].1] + Values(m[1..])
  }

  /** Keys strictly increase in insertion order (so they are unique). */
  predicate IncreasingKeys<V>(m: Entries<V>) {
    forall i, j :: 0 <= i < j < |m| ==> m[i].0 < m[j].0
  }

  predicate KeysInRange<V>(m: Entries<V>, lo: int, hi: int) {
    forall i :: 0 <= i < |m| ==> lo <= m[i].0 < hi
  }

  /** With unique keys, looking up the key of an entry finds that entry. */
  lemma GetAtIndex<V>(m: Entries<V>, i: int)
    requires IncreasingKeys(m)
    requires 0 <= i < |m|
    ensures Get(m, m[i].0) == Some(m[i].1)
  {
    var r := Get(m, m[i].0);
    var j :| 0 <= j < |m| && m[j] == (m[i].0, r.value);
    assert j == i;
  }

  lemma ValuesAppend<V>(m: Entries<V>, k: int, v: V)
    ensures Values(m + [(k, v)]) == Values(m) + [v]
  {
  }
}
