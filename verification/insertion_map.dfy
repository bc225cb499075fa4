/**
 * An ECMAScript `Map` (ECMA-262, Map Objects in the Keyed Collections
 * chapter): a list of entries in insertion order. `set` on a key already
 * present replaces its value in place; `set` on a new key appends an entry;
 * `values()` iterates in entry order.
 */
module InsertionMap {
  import opened Wrappers

  datatype Entry<K, V> = Entry(key: K, value: V)

  type IMap<K, V> = seq<Entry<K, V>>

  function Keys<K, V>(m: IMap<K, V>): (ks: seq<K>)
    ensures |ks| == |m|
    ensures forall i | 0 <= i < |m| :: ks[i] == m[i].key
  {
    seq(|m|, i requires 0 <= i < |m| => m[i].key)
  }

  /** `Array.from(m.values())`. */
  function Values<K, V>(m: IMap<K, V>): (vs: seq<V>)
    ensures |vs| == |m|
    ensures forall i | 0 <= i < |m| :: vs[i] == m[i].value
  {
    seq(|m|, i requires 0 <= i < |m| => m[i].value)
  }

  /** The position of the first entry for k. */
  function IndexOf<K(==), V>(m: IMap<K, V>, k: K): (r: Option<nat>)
    ensures r.Some? ==> r.value < |m| && m[r.value].key == k && forall j | 0 <= j < r.value :: m[j].key != k
    ensures r.None? ==> forall j | 0 <= j < |m| :: m[j].key != k
  {
    if |m| == 0 then None
    else if m[|m| - 1].key == k then
      match IndexOf(m[..|m| - 1], k)
      case Some(i) => Some(i)
      case None => Some(|m| - 1)
    else IndexOf(m[..|m| - 1], k)
  }

  /** `m.get(k)`: the value of the entry for k, or undefined. */
  function Get<K(==), V>(m: IMap<K, V>, k: K): (r: Option<V>)
    ensures r.None? <==> k !in Keys(m)
    ensures r.Some? ==> Entry(k, r.value) in m
  {
    match IndexOf(m, k)
    case Some(i) =>
      assert m[i] == Entry(k, m[i].value);
      Some(m[i].value)
    case None => None
  }

  /** `m.set(k, v)`: replace the entry for k in place, or append one. */
  function Set<K(==, !new), V>(m: IMap<K, V>, k: K, v: V): (r: IMap<K, V>)
    ensures Get(r, k) == Some(v)
    ensures forall k' | k' != k :: Get(r, k') == Get(m, k')
    ensures k !in Keys(m) ==> r == m + [Entry(k, v)]
    ensures k in Keys(m) ==> Keys(r) == Keys(m)
  {
    match IndexOf(m, k)
    case Some(i) =>
      var r := m[i := Entry(k, v)];
      assert IndexOf(r, k) == Some(i) by { IndexOfChar(r, k, i); }
      forall k' | k' != k ensures Get(r, k') == Get(m, k') {
        SameIndex(m, r, k');
      }
      r
    case None =>
      var r := m + [Entry(k, v)];
      assert IndexOf(r, k) == Some(|m|) by { IndexOfChar(r, k, |m|); }
      forall k' | k' != k ensures Get(r, k') == Get(m, k') {
        SameIndex(m, r, k');
      }
      r
  }

  lemma IndexOfChar<K, V>(m: IMap<K, V>, k: K, i: nat)
    requires i < |m| && m[i].key == k && forall j | 0 <= j < i :: m[j].key != k
    ensures IndexOf(m, k) == Some(i)
  {
  }

  /** Two maps whose entries for k agree position by position, over the shorter one, find the same. */
  lemma SameIndex<K, V>(m: IMap<K, V>, r: IMap<K, V>, k: K)
    requires |m| <= |r|
    requires forall j | 0 <= j < |m| :: (m[j].key == k || r[j].key == k) ==> m[j] == r[j]
    requires forall j | |m| <= j < |r| :: r[j].key != k
    ensures Get(r, k) == Get(m, k)
  {
    match IndexOf(m, k)
    case Some(i) => IndexOfChar(r, k, i);
    case None =>
  }
}
