/** Chore type to prefab lookup
    (Assets/Scripts/ScriptableObjects/ChoreObjectPrefabReferences.cs). */
module PrefabReferences {
  import opened Common
  import opened Chores

  /** The first prefab of the given type, or None (a null reference). */
  function Lookup(prefabs: seq<ChoreObject>, t: ChoreType): Option<ChoreObject>
  {
    if prefabs == [] then None
    else if prefabs[0].choreType == t then Some(prefabs[0])
    else Lookup(prefabs[1..], t)
  }

  /** A hit is the first entry of that type; a miss means no entry has it. */
  lemma {:induction false} LookupIsFirstMatch(prefabs: seq<ChoreObject>, t: ChoreType)
    ensures Lookup(prefabs, t).None? <==> forall i :: 0 <= i < |prefabs| ==> prefabs[i].choreType != t
    ensures Lookup(prefabs, t).Some? ==>
      exists k :: 0 <= k < |prefabs| && prefabs[k] == Lookup(prefabs, t).value
        && prefabs[k].choreType == t
        && forall j :: 0 <= j < k ==> prefabs[j].choreType != t
  {
    if prefabs != [] && prefabs[0].choreType != t {
      LookupIsFirstMatch(prefabs[1..], t);
      if Lookup(prefabs, t).Some? {
        var k :| 0 <= k < |prefabs[1..]| && prefabs[1..][k] == Lookup(prefabs, t).value
          && prefabs[1..][k].choreType == t
          && forall j :: 0 <= j < k ==> prefabs[1..][j].choreType != t;
        assert prefabs[k + 1] == prefabs[1..][k];
        forall j | 0 <= j < k + 1 ensures prefabs[j].choreType != t {
          if j > 0 { assert prefabs[j] == prefabs[1..][j - 1]; }
        }
      } else {
        forall i | 0 <= i < |prefabs| ensures prefabs[i].choreType != t {
          if i > 0 { assert prefabs[i] == prefabs[1..][i - 1]; }
        }
      }
    }
  }

  /** An entry shadowed by an earlier one of the same type is never returned. */
  lemma ShadowedNeverReturned(prefabs: seq<ChoreObject>, i: nat, k: nat)
    requires i < k < |prefabs| && prefabs[i].choreType == prefabs[k].choreType
    requires prefabs[k] !in prefabs[..k]
    ensures Lookup(prefabs, prefabs[k].choreType) != Some(prefabs[k])
  {
    LookupIsFirstMatch(prefabs, prefabs[k].choreType);
    var k0 :| 0 <= k0 < |prefabs| && prefabs[k0] == Lookup(prefabs, prefabs[k].choreType).value
      && prefabs[k0].choreType == prefabs[k].choreType
      && forall j :: 0 <= j < k0 ==> prefabs[j].choreType != prefabs[k].choreType;
    assert k0 <= i;
    assert prefabs[k0] == prefabs[..k][k0];
  }

  /** `ChoreTypeToChoreObjectPrefab`: the linear search. */
  method ChoreTypeToChoreObjectPrefab(prefabs: seq<ChoreObject>, t: ChoreType)
    returns (prefab: Option<ChoreObject>)
    ensures prefab == Lookup(prefabs, t)
    ensures prefab.Some? ==> prefab.value.choreType == t && prefab.value in prefabs
    ensures prefab.None? <==> forall i :: 0 <= i < |prefabs| ==> prefabs[i].choreType != t
  {
    var i := 0;
    while i < |prefabs|
      invariant 0 <= i <= |prefabs|
      invariant Lookup(prefabs, t) == Lookup(prefabs[i..], t)
      invariant forall j :: 0 <= j < i ==> prefabs[j].choreType != t
    {
      if prefabs[i].choreType == t {
        return Some(prefabs[i]);
      }
      assert prefabs[i..][1..] == prefabs[i + 1..];
      i := i + 1;
    }
    return None;
  }
}
