/**
 * A JavaScript `Map` as the store uses it: a sequence of key/value entries kept in
 * insertion order. `set` on a key that is present replaces its value where it stands,
 * `set` on a new key appends, `delete` removes the entry and reports whether it was there.
 */
module OrderedMap {
  import opened Wrappers

  datatype Entry<K, V> = Entry(key: K, value: V)

  function Keys<K, V>(m: seq<Entry<K, V>>): seq<K> {
    seq(|m|, i requires 0 <= i < |m| => m[i].key)
  }

  /** What `Array.from(map.values())` returns. */
  function Values<K, V>(m: seq<Entry<K, V>>): seq<V> {
    seq(|m|, i requires 0 <= i < |m| => m[i].value)
  }

  ghost predicate UniqueKeys<K, V>(m: seq<Entry<K, V>>) {
    forall i, j :: 0 <= i < j < |m| ==> m[i].key != m[j].key
  }

  /** The position of the first entry with key `k`. */
  function Position<K(==), V>(m: seq<Entry<K, V>>, k: K): (p: nat)
    requires k in Keys(m)
    ensures p < |m| && m[p].key == k
    ensures forall i :: 0 <= i < p ==> m[i].key != k
  {
    if m[0].key == k then 0
    else
      assert Keys(m) == [m[0].key] + Keys(m[1..]);
      1 + Position(m[1..], k)
  }

  /** `map.get(k)`. */
  function Get<K(==), V>(m: seq<Entry<K, V>>, k: K): (r: Option<V>)
    ensures r.Some? <==> k in Keys(m)
    ensures r.Some? ==> Entry(k, r.value) in m
  {
    if k in Keys(m) then Some(m[Position(m, k)].value) else None
  }

  /** `map.set(k, v)`. */
  function Set<K(==), V>(m: seq<Entry<K, V>>, k: K, v: V): (r: seq<Entry<K, V>>)
    ensures Entry(k, v) in r
    ensures forall e :: e in r ==> e == Entry(k, v) || e in m
    ensures |r| == if k in Keys(m) then |m| else |m| + 1
  {
    if k in Keys(m) then
      var p := Position(m, k);
      assert m[p := Entry(k, v)][p] == Entry(k, v);
      m[p := Entry(k, v)]
    else
      assert (m + [Entry(k, v)])[|m|] == Entry(k, v);
      m + [Entry(k, v)]
  }

  /** `map.delete(k)` as a new map; whether `k` was present is `k in Keys(m)`. */
  function Delete<K(==), V>(m: seq<Entry<K, V>>, k: K): (r: seq<Entry<K, V>>)
    ensures forall e :: e in r ==> e in m
    ensures |r| == if k in Keys(m) then |m| - 1 else |m|
    ensures k !in Keys(m) ==> r == m
  {
    if k in Keys(m) then m[..Position(m, k)] + m[Position(m, k) + 1..] else m
  }

  /** In a map whose keys are unique, every entry is what `get` finds for its key. */
  lemma GetEntry<K, V>(m: seq<Entry<K, V>>, i: nat)
    requires UniqueKeys(m) && i < |m|
    ensures Get(m, m[i].key) == Some(m[i].value)
  {
    assert Keys(m)[i] == m[i].key;
  }

  /**
   * After `set(k, v)`, `get(k)` is `v`, every other key reads as before, a present key keeps
   * its position (the key order is unchanged) and a new key goes last.
   */
  lemma SetSpec<K, V>(m: seq<Entry<K, V>>, k: K, v: V)
    ensures Get(Set(m, k, v), k) == Some(v)
    ensures forall k' :: k' != k ==> Get(Set(m, k, v), k') == Get(m, k')
    ensures k in Keys(m) ==> Keys(Set(m, k, v)) == Keys(m)
    ensures k !in Keys(m) ==> Keys(Set(m, k, v)) == Keys(m) + [k]
  {
    var r := Set(m, k, v);
    if k in Keys(m) {
      var p := Position(m, k);
      assert Keys(r) == Keys(m);
      assert r[p] == Entry(k, v);
      assert Position(r, k) == p by {
        PositionByKeys(m, r, k);
      }
      forall k' | k' != k
        ensures Get(r, k') == Get(m, k')
      {
        if k' in Keys(m) {
          PositionByKeys(m, r, k');
        }
      }
    } else {
      assert Keys(r) == Keys(m) + [k];
      assert Position(r, k) == |m| by {
        assert forall i :: 0 <= i < |m| ==> r[i].key == Keys(m)[i] != k;
      }
      forall k' | k' != k
        ensures Get(r, k') == Get(m, k')
      {
        if k' in Keys(m) {
          var q := Position(m, k');
          assert Keys(r)[q] == k';
          var q' := Position(r, k');
          assert q' <= q;
          assert q' < |m|;
        }
      }
    }
  }

  /** Two maps with the same key order place each key at the same position. */
  lemma PositionByKeys<K, V>(m: seq<Entry<K, V>>, r: seq<Entry<K, V>>, k: K)
    requires Keys(m) == Keys(r) && k in Keys(m)
    ensures Position(m, k) == Position(r, k)
  {
    var p, q := Position(m, k), Position(r, k);
    assert Keys(m)[p] == k && Keys(r)[q] == k;
  }

  /**
   * After `delete(k)` on a map with unique keys, `get(k)` finds nothing, every other key
   * reads as before, and the keys stay unique.
   */
  lemma DeleteSpec<K, V>(m: seq<Entry<K, V>>, k: K)
    requires UniqueKeys(m)
    ensures Get(Delete(m, k), k).None?
    ensures forall k' :: k' != k ==> Get(Delete(m, k), k') == Get(m, k')
    ensures k in Keys(m) ==> |Delete(m, k)| == |m| - 1
    ensures UniqueKeys(Delete(m, k))
  {
    var r := Delete(m, k);
    if k in Keys(m) {
      var p := Position(m, k);
      assert forall i :: 0 <= i < |r| ==> r[i] == if i < p then m[i] else m[i + 1];
      assert k !in Keys(r) by {
        forall i | 0 <= i < |r| ensures Keys(r)[i] != k {
          assert i < p ==> m[i].key != m[p].key;
          assert i >= p ==> m[i + 1].key != m[p].key;
        }
      }
      forall k' | k' != k
        ensures Get(r, k') == Get(m, k')
      {
        if k' in Keys(m) {
          var q := Position(m, k');
          GetEntry(m, q);
          var j := if q < p then q else q - 1;
          assert r[j] == m[q];
          assert UniqueKeys(r);
          GetEntry(r, j);
        } else {
          assert k' !in Keys(r) by {
            forall i | 0 <= i < |r| ensures Keys(r)[i] != k' {
              assert Keys(m)[if i < p then i else i + 1] != k';
            }
          }
        }
      }
    }
  }
}
