/**
 * Python dictionaries whose insertion order the core relies on (colour-mode
 * tables, capability value lists), as association lists: a sequence of
 * (key, value) pairs with distinct keys, kept in insertion order.  Assigning
 * to a key that is already present overwrites its value in place, exactly
 * as `d[k] = v` does.
 */
module Assoc {
  import opened Wrappers

  /** The keys in insertion order: `list(d)`. */
  function Keys<K, V>(d: seq<(K, V)>): (ks: seq<K>)
    ensures |ks| == |d| && forall i :: 0 <= i < |d| ==> ks[i] == d[i].0
  {
    if d == [] then [] else [d[0].0] + Keys(d[1..])
  }

  /** `k in d`. */
  predicate HasKey<K(==), V>(d: seq<(K, V)>, k: K) {
    k in Keys(d)
  }

  predicate Distinct<K(==)>(s: seq<K>) {
    forall i, j :: 0 <= i < j < |s| ==> s[i] != s[j]
  }

  predicate UniqueKeys<K(==), V>(d: seq<(K, V)>) {
    Distinct(Keys(d))
  }

  /** `d.get(k)`: the value stored for `k`. */
  function Get<K(==), V>(d: seq<(K, V)>, k: K): (r: Option<V>)
    ensures r.Some? <==> HasKey(d, k)
  {
    if d == [] then None else if d[0].0 == k then Some(d[0].1) else Get(d[1..], k)
  }

  /** `d[k] = v`: later lookups of `k` see `v`, every other key is untouched. */
  function Put<K(==,!new), V>(d: seq<(K, V)>, k: K, v: V): (r: seq<(K, V)>)
    ensures Get(r, k) == Some(v)
    ensures forall k' :: k' != k ==> Get(r, k') == Get(d, k')
  {
    if d == [] then [(k, v)]
    else if d[0].0 == k then [(k, v)] + d[1..]
    else [d[0]] + Put(d[1..], k, v)
  }

  /** Assigning keeps the existing keys in place and appends a new key at the end. */
  lemma {:induction false} PutKeys<K(!new), V>(d: seq<(K, V)>, k: K, v: V)
    ensures Keys(Put(d, k, v)) == if k in Keys(d) then Keys(d) else Keys(d) + [k]
  {
    if d != [] && d[0].0 != k {
      PutKeys(d[1..], k, v);
      assert Keys(d) == [d[0].0] + Keys(d[1..]);
    }
  }

  /** Hence assigning keeps the keys distinct. */
  lemma PutUnique<K(!new), V>(d: seq<(K, V)>, k: K, v: V)
    requires UniqueKeys(d)
    ensures UniqueKeys(Put(d, k, v))
  {
    PutKeys(d, k, v);
  }

  /** A key that is new lands at the end; the rest of the table is unchanged. */
  lemma {:induction false} PutNewAppends<K(!new), V>(d: seq<(K, V)>, k: K, v: V)
    requires !HasKey(d, k)
    ensures Put(d, k, v) == d + [(k, v)]
  {
    if d != [] {
      assert Keys(d) == [d[0].0] + Keys(d[1..]);
      PutNewAppends(d[1..], k, v);
    }
  }

  /** With distinct keys, the pair at the front is the only one for its key. */
  lemma HeadIsOnlyEntry<K, V>(d: seq<(K, V)>, v: V)
    requires d != [] && UniqueKeys(d)
    ensures (d[0].0, v) in d <==> v == d[0].1
  {
    if (d[0].0, v) in d {
      var i :| 0 <= i < |d| && d[i] == (d[0].0, v);
      assert Keys(d)[i] == Keys(d)[0];
    }
  }

  /** Below a head with another key, lookups, entries and distinctness are those of the rest. */
  lemma DropHead<K, V>(d: seq<(K, V)>, k: K, v: V)
    requires d != [] && d[0].0 != k
    ensures Get(d, k) == Get(d[1..], k)
    ensures (k, v) in d <==> (k, v) in d[1..]
    ensures UniqueKeys(d) ==> UniqueKeys(d[1..])
  {
    assert Keys(d[1..]) == Keys(d)[1..];
    assert d == [d[0]] + d[1..];
  }

  /** With distinct keys, looking a key up finds exactly the pair stored for it. */
  lemma {:induction false} GetIffEntry<K, V>(d: seq<(K, V)>, k: K, v: V)
    requires UniqueKeys(d)
    ensures Get(d, k) == Some(v) <==> (k, v) in d
  {
    if d != [] {
      if d[0].0 == k {
        HeadIsOnlyEntry(d, v);
      } else {
        DropHead(d, k, v);
        GetIffEntry(d[1..], k, v);
      }
    }
  }

  /** Every pair of an assigned table is the new pair or was already there. */
  lemma {:induction false} PutEntries<K(!new), V>(d: seq<(K, V)>, k: K, v: V)
    ensures forall e :: e in Put(d, k, v) ==> e == (k, v) || e in d
  {
    if d != [] && d[0].0 != k {
      PutEntries(d[1..], k, v);
      assert Put(d, k, v) == [d[0]] + Put(d[1..], k, v);
      assert forall e :: e in d[1..] ==> e in d;
    }
  }

  /** What a lookup finds is stored in the table. */
  lemma {:induction false} GetIsEntry<K, V>(d: seq<(K, V)>, k: K)
    requires Get(d, k).Some?
    ensures (k, Get(d, k).value) in d
  {
    if d[0].0 != k {
      GetIsEntry(d[1..], k);
      assert d == [d[0]] + d[1..];
    }
  }

  /** The keys of a table are its first key and those of the rest, which, when distinct, do not repeat it. */
  lemma SplitHead<K, V>(d: seq<(K, V)>)
    requires d != []
    ensures Keys(d) == [d[0].0] + Keys(d[1..])
    ensures UniqueKeys(d) ==> UniqueKeys(d[1..]) && !HasKey(d[1..], d[0].0)
  {
    assert Keys(d[1..]) == Keys(d)[1..];
  }

  /** `next((n for n, x in d.items() if x == v), None)`: the first key whose value is `v`. */
  function KeyOf<K(==), V(==)>(d: seq<(K, V)>, v: V): (r: Option<K>)
    ensures r.Some? <==> HasValue(d, v)
    ensures r.Some? ==> (r.value, v) in d
  {
    if d == [] then None
    else if d[0].1 == v then Some(d[0].0)
    else (assert HasValue(d, v) <==> HasValue(d[1..], v) by { assert d == [d[0]] + d[1..]; }
          KeyOf(d[1..], v))
  }

  predicate HasValue<K(==), V(==)>(d: seq<(K, V)>, v: V) {
    exists e :: e in d && e.1 == v
  }
}
