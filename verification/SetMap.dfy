/** A map from keys to sets of values, edited in place, and what each edit does to the map. */
module SetMap {

  /** The values of a key; none if the key has no entry. */
  function Vals<K(==), V(==)>(m: map<K, set<V>>, k: K): set<V> {
    if k in m then m[k] else {}
  }

  predicate NoEmptyEntry<K(==), V(==)>(m: map<K, set<V>>) {
    forall k :: k in m ==> m[k] != {}
  }

  /** Every entry of `keys` loses the values `r`; an entry left empty goes. */
  function Trimmed<K(==), V(==)>(m: map<K, set<V>>, keys: set<K>, r: set<V>): map<K, set<V>> {
    map k | k in m && (k in keys ==> m[k] - r != {}) :: if k in keys then m[k] - r else m[k]
  }

  function GoneKeys<K(==), V(==)>(m: map<K, set<V>>, keys: set<K>, r: set<V>): set<K> {
    set k | k in keys && k in m && m[k] - r == {}
  }

  function GoneVals<K(==), V(==)>(m: map<K, set<V>>, keys: set<K>, r: set<V>): set<V> {
    set k, v | k in keys && k in m && v in m[k] && v in r :: v
  }

  /** Every entry of `keys` gains the values `vals`; adding no value makes no entry. */
  function Added<K(==), V(==)>(m: map<K, set<V>>, keys: set<K>, vals: set<V>): map<K, set<V>> {
    if vals == {} then m
    else map k | k in m.Keys + keys :: if k in keys then Vals(m, k) + vals else m[k]
  }

  function AddedAt<K(==), V(==)>(m: map<K, set<V>>, key: K, vals: set<V>): map<K, set<V>> {
    if vals == {} then m else m[key := Vals(m, key) + vals]
  }

  function NewKeys<K(==), V(==)>(m: map<K, set<V>>, keys: set<K>, vals: set<V>): set<K> {
    if vals == {} then {} else keys - m.Keys
  }

  function Updated<K(==), V(==)>(m: map<K, set<V>>, key: K, vals: set<V>): map<K, set<V>> {
    if vals == {} then m - {key} else m[key := vals]
  }

  // ---------------------------------------------------------------- reading an edited map

  lemma ValsTrimmed<K, V>(m: map<K, set<V>>, keys: set<K>, r: set<V>, k: K)
    ensures Vals(Trimmed(m, keys, r), k) == if k in keys then Vals(m, k) - r else Vals(m, k)
  {
  }

  lemma ValsAdded<K, V>(m: map<K, set<V>>, keys: set<K>, vals: set<V>, k: K)
    ensures Vals(Added(m, keys, vals), k) == if k in keys then Vals(m, k) + vals else Vals(m, k)
  {
  }

  /** The reported keys are exactly the difference the edit makes. */
  lemma KeysAfter<K, V>(m: map<K, set<V>>, keys: set<K>, vals: set<V>)
    ensures Trimmed(m, keys, vals).Keys == m.Keys - GoneKeys(m, keys, vals)
    ensures Added(m, keys, vals).Keys == m.Keys + NewKeys(m, keys, vals)
    ensures GoneKeys(m, keys, vals) <= m.Keys && NewKeys(m, keys, vals) !! m.Keys
  {
    assert forall k :: k in Trimmed(m, keys, vals).Keys <==> k in Trimmed(m, keys, vals);
    assert forall k :: k in Added(m, keys, vals).Keys <==> k in Added(m, keys, vals);
  }

  lemma EditsLeaveNoEmptyEntry<K, V>(m: map<K, set<V>>, keys: set<K>, vals: set<V>)
    requires NoEmptyEntry(m)
    ensures NoEmptyEntry(Trimmed(m, keys, vals)) && NoEmptyEntry(Added(m, keys, vals))
  {
    var added := Added(m, keys, vals);
    forall k | k in added ensures added[k] != {} {
      ValsAdded(m, keys, vals, k);
    }
  }

  lemma TrimmedOneMore<K, V>(m: map<K, set<V>>, done: set<K>, r: set<V>, key: K)
    requires key !in done
    ensures var now := Trimmed(m, done, r);
      && (key in now <==> key in m)
      && (key in m ==>
          && now[key] == m[key]
          && Trimmed(m, done + {key}, r) == (if m[key] - r == {} then now - {key} else now[key := m[key] - r])
          && GoneKeys(m, done + {key}, r) == GoneKeys(m, done, r) + (if m[key] - r == {} then {key} else {})
          && GoneVals(m, done + {key}, r) == GoneVals(m, done, r) + m[key] * r)
      && (key !in m ==>
          && Trimmed(m, done + {key}, r) == now
          && GoneKeys(m, done + {key}, r) == GoneKeys(m, done, r)
          && GoneVals(m, done + {key}, r) == GoneVals(m, done, r))
  {
    var more := GoneVals(m, done + {key}, r);
    forall v | v in GoneVals(m, done, r) ensures v in more {
      var k :| k in done && k in m && v in m[k] && v in r;
      assert k in done + {key};
    }
    if key in m {
      assert key in done + {key};
      forall v | v in m[key] * r ensures v in more { }
    }
  }

  lemma AddedNone<K, V>(m: map<K, set<V>>, vals: set<V>)
    ensures Added(m, {}, vals) == m && NewKeys(m, {}, vals) == {}
  {
  }

  lemma AddedOneMore<K, V>(m: map<K, set<V>>, done: set<K>, vals: set<V>, key: K)
    requires key !in done
    ensures Added(m, done + {key}, vals) == AddedAt(Added(m, done, vals), key, vals)
    ensures NewKeys(m, done + {key}, vals) ==
      NewKeys(m, done, vals) + if vals != {} && key !in Added(m, done, vals) then {key} else {}
  {
  }

  // ---------------------------------------------------------------- the class

  /** Takes the elements of `r` out of a set, one by one. */
  method TrimSet<V(==)>(fromSet: set<V>, r: set<V>) returns (left: set<V>, gone: set<V>)
    ensures left == fromSet - r && gone == fromSet * r
  {
    left, gone := fromSet, {};
    var rest := r;
    while rest != {}
      invariant rest <= r
      invariant left == fromSet - (r - rest) && gone == fromSet * (r - rest)
      decreases rest
    {
      var val :| val in rest;
      rest := rest - {val};
      if val in left {
        left, gone := left - {val}, gone + {val};
      }
    }
  }

  /** Takes the common elements out of both sets, and returns them. The loop steps an iterator that it has
      erased, which C++ leaves undefined: `defined` says whether it never does. The sets are those of the
      loop as it is meant. */
  method RemoveAndReturnInterset<V(==)>(s1: set<V>, s2: set<V>)
    returns (common: set<V>, r1: set<V>, r2: set<V>, defined: bool)
    ensures common == s1 * s2 && r1 == s1 - s2 && r2 == s2 - s1
    ensures defined <==> s1 !! s2
  {
    common, r1, r2, defined := {}, s1, s2, true;
    var rest := s2;
    while rest != {}
      invariant rest <= s2
      invariant defined <==> common == {}
      invariant common == s1 * (s2 - rest) && r1 == s1 - (s2 - rest) && r2 == s2 - common
      decreases rest
    {
      var b :| b in rest;
      rest := rest - {b};
      if b in r1 {
        common, r1, r2, defined := common + {b}, r1 - {b}, r2 - {b}, false;
      }
    }
  }

  class LocUnorderedSetMap<K(==), V(==)> {
    var mMap: map<K, set<V>>

    constructor ()
      ensures mMap == map[]
    {
      mMap := map[];
    }

    method Remove(key: K) returns (removed: bool)
      modifies this
      ensures mMap == old(mMap) - {key} && removed == (key in old(mMap))
    {
      removed := key in mMap;
      mMap := mMap - {key};
    }

    method TrimOrRemove(keys: set<K>, r: set<V>) returns (goneKeys: set<K>, goneVals: set<V>)
      modifies this
      ensures mMap == Trimmed(old(mMap), keys, r)
      ensures goneKeys == GoneKeys(old(mMap), keys, r) && goneVals == GoneVals(old(mMap), keys, r)
    {
      goneKeys, goneVals := {}, {};
      var rest := keys;
      ghost var done: set<K> := {};
      while rest != {}
        invariant done == keys - rest && rest <= keys
        invariant mMap == Trimmed(old(mMap), done, r)
        invariant goneKeys == GoneKeys(old(mMap), done, r) && goneVals == GoneVals(old(mMap), done, r)
        decreases rest
      {
        var key :| key in rest;
        rest := rest - {key};
        TrimmedOneMore(old(mMap), done, r, key);
        done := done + {key};
        if key in mMap {
          var left, gone := TrimSet(mMap[key], r);
          goneVals := goneVals + gone;
          if left == {} {
            mMap := mMap - {key};
            goneKeys := goneKeys + {key};
          } else {
            mMap := mMap[key := left];
          }
        }
      }
      assert done == keys;
    }

    method AddOne(key: K, newVals: set<V>) returns (newEntryAdded: bool)
      modifies this
      ensures mMap == AddedAt(old(mMap), key, newVals)
      ensures newEntryAdded == (newVals != {} && key !in old(mMap))
    {
      newEntryAdded := false;
      if newVals != {} {
        if key in mMap {
          mMap := mMap[key := mMap[key] + newVals];
        } else {
          assert {} + newVals == newVals;
          mMap := mMap[key := newVals];
          newEntryAdded := true;
        }
      }
    }

    method Add(keys: set<K>, newVals: set<V>) returns (newKeys: set<K>)
      modifies this
      ensures mMap == Added(old(mMap), keys, newVals) && newKeys == NewKeys(old(mMap), keys, newVals)
    {
      newKeys := {};
      var rest := keys;
      ghost var done: set<K> := {};
      ghost var before := mMap;
      AddedNone(before, newVals);
      while rest != {}
        invariant done == keys - rest && rest <= keys
        invariant mMap == Added(before, done, newVals)
        invariant newKeys == NewKeys(before, done, newVals)
        decreases rest
      {
        var key :| key in rest;
        rest := rest - {key};
        AddedOneMore(before, done, newVals, key);
        done := done + {key};
        var added := AddOne(key, newVals);
        if added {
          newKeys := newKeys + {key};
        }
      }
      assert done == keys;
    }

    /** Puts the new values in place of the old, and returns the values in both, which are taken out
        of the caller's set. */
    method Update(key: K, newVals: set<V>) returns (common: set<V>, leftOfNew: set<V>, defined: bool)
      modifies this
      ensures mMap == Updated(old(mMap), key, newVals)
      ensures common == Vals(old(mMap), key) * newVals && leftOfNew == newVals - Vals(old(mMap), key)
      ensures defined <==> Vals(old(mMap), key) !! newVals
    {
      common, leftOfNew, defined := {}, newVals, true;
      if newVals == {} {
        mMap := mMap - {key};
      } else {
        var curVals := if key in mMap then mMap[key] else {};
        mMap := mMap[key := newVals];
        common, curVals, leftOfNew, defined := RemoveAndReturnInterset(curVals, newVals);
      }
    }
  }

}
