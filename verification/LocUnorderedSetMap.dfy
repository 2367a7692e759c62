/** The map from keys to sets of gps/utils/LocUnorderedSetMap.h.  Entries that lose their
    last value are erased with it; the optional out-parameters of the source are results. */
module LocUnorderedSetMap {

  class LocUnorderedSetMap<K(==), V(==)> {
    var mMap: map<K, set<V>>

    constructor ()
      ensures mMap == map[]
    {
      mMap := map[];
    }

    /** The values of a key; the empty set for a key without an entry. */
    function GetValSet(key: K): set<V>
      reads this
    {
      Get(mMap, key)
    }

    method GetKeys() returns (keys: set<K>)
      ensures keys == mMap.Keys
    {
      keys := {};
      var left := mMap.Keys;
      while left != {}
        invariant left <= mMap.Keys && keys == mMap.Keys - left
      {
        var k :| k in left;
        left := left - {k};
        keys := keys + {k};
      }
    }

    method Remove(key: K) returns (removed: bool)
      modifies this
      ensures mMap == old(mMap) - {key} && removed == (key in old(mMap))
    {
      removed := key in mMap;
      mMap := mMap - {key};
    }

    /** Trims one entry and erases it when nothing is left. */
    method TrimEntry(key: K, rVals: set<V>, goneVals: set<V>) returns (removed: bool, gone: set<V>)
      requires key in mMap
      modifies this
      ensures removed == (old(mMap)[key] <= rVals)
      ensures mMap == if removed then old(mMap) - {key} else old(mMap)[key := old(mMap)[key] - rVals]
      ensures gone == goneVals + old(mMap)[key] * rVals
    {
      var kept;
      kept, gone := TrimSet(mMap[key], rVals, goneVals);
      removed := kept == {};
      assert removed ==> forall v :: v in mMap[key] ==> v in kept || v in rVals;
      mMap := if removed then mMap - {key} else mMap[key := kept];
    }

    /** Takes `rVals` out of the entries of `keys`; entries left empty are erased and their
        keys returned, with every value that was taken out of some entry. */
    method TrimOrRemove(keys: set<K>, rVals: set<V>) returns (goneKeys: set<K>, goneVals: set<V>)
      modifies this
      ensures mMap == Trimmed(old(mMap), keys, rVals)
      ensures goneKeys == Emptied(old(mMap), keys, rVals)
      ensures forall v :: v in goneVals <==> exists k :: k in keys && k in old(mMap) && v in old(mMap)[k] && v in rVals
    {
      goneKeys, goneVals := {}, {};
      var left := keys;
      while left != {}
        invariant left <= keys
        invariant mMap == Trimmed(old(mMap), keys - left, rVals)
        invariant goneKeys == Emptied(old(mMap), keys - left, rVals)
        invariant forall v :: v in goneVals <==>
                    exists k :: k in keys - left && k in old(mMap) && v in old(mMap)[k] && v in rVals
      {
        var k :| k in left;
        ghost var done := keys - left;
        left := left - {k};
        assert keys - left == done + {k};
        if k in mMap {
          var removed;
          removed, goneVals := TrimEntry(k, rVals, goneVals);
          if removed {
            goneKeys := goneKeys + {k};
          }
        }
      }
      assert keys - left == keys;
    }

    /** Adds values to the entry of a key; tells whether the entry is new. */
    method Add(key: K, newVals: set<V>) returns (newEntryAdded: bool)
      modifies this
      ensures mMap == if newVals == {} then old(mMap) else old(mMap)[key := Get(old(mMap), key) + newVals]
      ensures newEntryAdded == (newVals != {} && key !in old(mMap))
    {
      newEntryAdded := false;
      if newVals != {} {
        assert {} + newVals == newVals;
        if key in mMap {
          mMap := mMap[key := mMap[key] + newVals];
        } else {
          mMap := mMap[key := newVals];
          newEntryAdded := true;
        }
      }
    }

    /** Adds the same values to the entries of all `keys`; returns the keys that are new. */
    method AddAll(keys: set<K>, newVals: set<V>) returns (newKeys: set<K>)
      modifies this
      ensures mMap == Extended(old(mMap), keys, newVals)
      ensures newKeys == if newVals == {} then {} else keys - old(mMap.Keys)
    {
      newKeys := {};
      var left := keys;
      while left != {}
        invariant left <= keys
        invariant mMap == Extended(old(mMap), keys - left, newVals)
        invariant newKeys == if newVals == {} then {} else keys - left - old(mMap.Keys)
      {
        var k :| k in left;
        ghost var done := keys - left;
        left := left - {k};
        assert keys - left == done + {k};
        var added := Add(k, newVals);
        if added {
          newKeys := newKeys + {k};
        }
      }
      assert keys - left == keys;
    }

    /** Puts `newVals` into the entry of `key`.  What comes back, and is taken out of
        `newVals`, is what the entry had in common with it. */
    method Update(key: K, newVals: set<V>) returns (common: set<V>, added: set<V>)
      modifies this
      ensures mMap == if newVals == {} then old(mMap) - {key} else old(mMap)[key := newVals]
      ensures common == Get(old(mMap), key) * newVals && added == newVals - Get(old(mMap), key)
    {
      common, added := {}, newVals;
      if newVals == {} {
        mMap := mMap - {key};
      } else {
        var curVals := GetValSet(key);
        mMap := mMap[key := newVals];
        common, curVals, added := RemoveAndReturnInterset(curVals, newVals);
      }
    }
  }

  /** Takes the intersection out of both sets; every element of the second is visited once. */
  method RemoveAndReturnInterset<T(==)>(s1: set<T>, s2: set<T>) returns (common: set<T>, rest1: set<T>, rest2: set<T>)
    ensures common == s1 * s2 && rest1 == s1 - s2 && rest2 == s2 - s1
  {
    common, rest1, rest2 := {}, s1, s2;
    var left := s2;
    while left != {}
      invariant left <= s2
      invariant common == s1 * (s2 - left)
      invariant rest1 == s1 - (s2 - left)
      invariant rest2 == s2 - common
    {
      var v :| v in left;
      left := left - {v};
      if v in rest1 {
        common := common + {v};
        rest1 := rest1 - {v};
        rest2 := rest2 - {v};
      }
    }
  }

  /** Takes the values in `rVals` out of a set, one by one. */
  method TrimSet<T(==)>(fromSet: set<T>, rVals: set<T>, goneVals: set<T>) returns (kept: set<T>, gone: set<T>)
    ensures kept == fromSet - rVals
    ensures gone == goneVals + fromSet * rVals
  {
    kept, gone := fromSet, goneVals;
    var left := rVals;
    while left != {}
      invariant left <= rVals
      invariant kept == fromSet - (rVals - left)
      invariant gone == goneVals + fromSet * (rVals - left)
    {
      var v :| v in left;
      left := left - {v};
      if v in kept {
        kept := kept - {v};
        gone := gone + {v};
      }
    }
  }

  function Get<K, V>(m: map<K, set<V>>, key: K): set<V> {
    if key in m then m[key] else {}
  }

  /** The keys whose entries a trim leaves empty. */
  function Emptied<K, V>(m: map<K, set<V>>, keys: set<K>, rVals: set<V>): set<K> {
    set k | k in keys && k in m && m[k] <= rVals
  }

  function Trimmed<K, V>(m: map<K, set<V>>, keys: set<K>, rVals: set<V>): map<K, set<V>> {
    map k | k in m && k !in Emptied(m, keys, rVals) :: if k in keys then m[k] - rVals else m[k]
  }

  lemma EmptiedAreGone<K, V>(m: map<K, set<V>>, keys: set<K>, rVals: set<V>)
    ensures Emptied(m, keys, rVals) == m.Keys - Trimmed(m, keys, rVals).Keys
  {
  }

  function Extended<K, V>(m: map<K, set<V>>, keys: set<K>, newVals: set<V>): map<K, set<V>> {
    if newVals == {} then m
    else map k | k in m.Keys + keys :: if k in keys then Get(m, k) + newVals else m[k]
  }
}
