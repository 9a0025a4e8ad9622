/**
 * A JavaScript `Map`: a finite map that remembers the order in which its
 * keys were first inserted.  `set` on a present key keeps its position,
 * `set` on a new key appends it, `delete` removes it; `forEach` visits the
 * keys in that order.
 */
module JsMap {
  datatype Map<K(==,!new), V> = Map(keys: seq<K>, entries: map<K, V>) {

    /** The order lists every key exactly once. */
    ghost predicate Valid() {
      NoDup(keys) && (forall k :: k in keys <==> k in entries)
    }

    /** `map.has(k)` */
    predicate Has(k: K) {
      k in entries
    }

    /** `map.set(k, v)` */
    function Set(k: K, v: V): (r: Map<K, V>)
      requires Valid()
      ensures r.Valid()
      ensures r.entries == entries[k := v]
      ensures k in entries ==> r.keys == keys
      ensures k !in entries ==> r.keys == keys + [k]
    {
      if k in entries then Map(keys, entries[k := v]) else Map(keys + [k], entries[k := v])
    }

    /** `map.delete(k)` */
    function Delete(k: K): (r: Map<K, V>)
      requires Valid()
      ensures r.Valid()
      ensures r.entries == entries - {k}
      ensures r.keys == Without(keys, k)
    {
      WithoutKeeps(keys, k);
      Map(Without(keys, k), entries - {k})
    }
  }

  function Empty<K(==,!new), V>(): (r: Map<K, V>)
    ensures r.Valid() && r.entries == map[]
  {
    Map([], map[])
  }

  /** `keys` with every occurrence of `k` taken out, the rest in order. */
  function Without<K(==)>(keys: seq<K>, k: K): seq<K> {
    if keys == [] then []
    else (if keys[0] == k then [] else [keys[0]]) + Without(keys[1..], k)
  }

  /** No element of `s` appears twice. */
  ghost predicate NoDup<K>(s: seq<K>) {
    forall i, j :: 0 <= i < j < |s| ==> s[i] != s[j]
  }

  /** Taking a key out keeps exactly the other keys, each still once. */
  lemma {:induction false} WithoutKeeps<K>(keys: seq<K>, k: K)
    requires NoDup(keys)
    ensures forall x :: x in Without(keys, k) <==> x in keys && x != k
    ensures NoDup(Without(keys, k))
  {
    if keys != [] {
      var tail := Without(keys[1..], k);
      assert NoDup(keys[1..]) by {
        forall i, j | 0 <= i < j < |keys[1..]| ensures keys[1..][i] != keys[1..][j] {
          assert keys[1..][i] == keys[i + 1] && keys[1..][j] == keys[j + 1];
        }
      }
      WithoutKeeps(keys[1..], k);
      assert keys[0] !in keys[1..] by {
        forall i | 0 <= i < |keys[1..]| ensures keys[1..][i] != keys[0] {
          assert keys[1..][i] == keys[i + 1];
        }
      }
      var w := Without(keys, k);
      if keys[0] == k {
        assert w == tail;
      } else {
        assert w == [keys[0]] + tail;
        forall i, j | 0 <= i < j < |w| ensures w[i] != w[j] {
          assert w[j] == tail[j - 1];
          if i == 0 {
            assert tail[j - 1] in tail;
          } else {
            assert w[i] == tail[i - 1];
          }
        }
      }
    }
  }
}
