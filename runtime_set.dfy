/** The runtime registry: a list without duplicates that scene objects add
    themselves to and remove themselves from
    (Assets/Scripts/ScriptableObjects/RuntimeSets/RuntimeSetBase.cs). */
module RuntimeSets {

  ghost predicate NoDuplicates<T>(s: seq<T>) {
    forall i, j :: 0 <= i < j < |s| ==> s[i] != s[j]
  }

  /** `List<T>.Remove`: delete the first occurrence of `x`, if any. */
  function RemoveFirst<T(==)>(s: seq<T>, x: T): (r: seq<T>)
    ensures x !in s ==> r == s
    ensures x in s ==> |r| == |s| - 1
    ensures forall y :: y in r ==> y in s
  {
    if s == [] then []
    else if s[0] == x then s[1..]
    else [s[0]] + RemoveFirst(s[1..], x)
  }

  /** Where the first occurrence is, `RemoveFirst` cuts it out and keeps
      everything else in order. */
  lemma {:induction false} RemoveFirstAt<T>(s: seq<T>, x: T, i: nat)
    requires i < |s| && s[i] == x && x !in s[..i]
    ensures RemoveFirst(s, x) == s[..i] + s[i + 1..]
  {
    if i > 0 {
      assert s[0] in s[..i];
      assert s[1..][..i - 1] == s[1..i];
      RemoveFirstAt(s[1..], x, i - 1);
      assert s[1..][i..] == s[i + 1..];
    }
  }

  /** Under the no-duplicates invariant the removed element is gone
      afterwards, every other element stays, and the invariant holds on. */
  lemma {:induction false} RemoveFirstNoDuplicates<T>(s: seq<T>, x: T)
    requires NoDuplicates(s)
    ensures NoDuplicates(RemoveFirst(s, x))
    ensures x !in RemoveFirst(s, x)
    ensures forall y :: y != x ==> (y in RemoveFirst(s, x) <==> y in s)
  {
    if s != [] {
      assert NoDuplicates(s[1..]) by {
        forall i, j | 0 <= i < j < |s[1..]| ensures s[1..][i] != s[1..][j] {
          assert s[1..][i] == s[i + 1] && s[1..][j] == s[j + 1];
        }
      }
      if s[0] == x {
        assert x !in s[1..] by {
          forall k | 0 <= k < |s[1..]| ensures s[1..][k] != x {
            assert s[1..][k] == s[k + 1];
          }
        }
      } else {
        RemoveFirstNoDuplicates(s[1..], x);
        var r := RemoveFirst(s[1..], x);
        assert s[0] !in s[1..] by {
          forall k | 0 <= k < |s[1..]| ensures s[1..][k] != s[0] {
            assert s[1..][k] == s[k + 1];
          }
        }
        assert s[0] !in r;
        assert RemoveFirst(s, x) == [s[0]] + r;
        forall i, j | 0 <= i < j < |[s[0]] + r| ensures ([s[0]] + r)[i] != ([s[0]] + r)[j] {
          if i > 0 {
            assert ([s[0]] + r)[i] == r[i - 1];
          }
          assert ([s[0]] + r)[j] == r[j - 1];
        }
        forall y | y != x ensures y in RemoveFirst(s, x) <==> y in s {
          assert y in s <==> y == s[0] || y in s[1..];
        }
      }
    }
  }

  /** Adding an element that was not there and then removing it gives back
      the list it started from. */
  lemma {:induction false} AddThenRemove<T>(s: seq<T>, x: T)
    requires x !in s
    ensures RemoveFirst(s + [x], x) == s
  {
    if s != [] {
      assert (s + [x])[0] == s[0];
      assert (s + [x])[1..] == s[1..] + [x];
      AddThenRemove(s[1..], x);
    }
  }

  /** The runtime set object. Only `AddObject` inserts, and it refuses an
      element already present, so `Valid` (no duplicates) is kept. The two
      notifications are reported as results: `AddObject` says whether the
      added-notification fired; the removed-notification of `RemoveObject`
      fires on every call, whether or not anything was removed. */
  class RuntimeSet<T(==)> {
    var list: seq<T>

    ghost predicate Valid()
      reads this
    {
      NoDuplicates(list)
    }

    constructor ()
      ensures Valid() && list == []
    {
      list := [];
    }

    method AddObject(x: T) returns (added: bool)
      modifies this
      ensures added <==> x !in old(list)
      ensures list == if added then old(list) + [x] else old(list)
      ensures old(Valid()) ==> Valid()
      ensures x in list
    {
      added := x !in list;
      if added {
        list := list + [x];
      }
    }

    method RemoveObject(x: T)
      modifies this
      ensures list == RemoveFirst(old(list), x)
      ensures old(Valid()) ==> Valid() && x !in list
      ensures x !in old(list) ==> list == old(list)
    {
      if Valid() {
        RemoveFirstNoDuplicates(list, x);
      }
      list := RemoveFirst(list, x);
    }
  }
}
