/** The control hints (Assets/Scripts/ScriptableObjects/Controls/ControlSchemes.cs):
    a list of schemes looked up by id, falling back to the first, with the
    keyboard scheme at index 0 and the controller scheme at index 1. */
module ControlSchemes {

  datatype Scheme = Scheme(id: string, interact: string, throwItem: string)

  /** The first scheme with the id, or the first scheme when none has it. */
  function SchemeFor(schemes: seq<Scheme>, id: string): (r: Scheme)
    requires |schemes| > 0
    ensures r in schemes
    ensures (exists k :: 0 <= k < |schemes| && schemes[k].id == id) ==> r.id == id
    ensures (forall k :: 0 <= k < |schemes| ==> schemes[k].id != id) ==> r == schemes[0]
  {
    if schemes[0].id == id || |schemes| == 1 then schemes[0]
    else
      var rest := SchemeFor(schemes[1..], id);
      if rest.id == id then rest else schemes[0]
  }

  function IdIndex(controller: bool): nat {
    if controller then 1 else 0
  }

  method GetScheme(schemes: seq<Scheme>, id: string) returns (scheme: Scheme)
    requires |schemes| > 0
    ensures scheme == SchemeFor(schemes, id)
  {
    var i := 0;
    while i < |schemes|
      invariant 0 <= i <= |schemes|
      invariant forall k :: 0 <= k < i ==> schemes[k].id != id
    {
      if schemes[i].id == id {
        FirstWithId(schemes, id, i);
        return schemes[i];
      }
      i := i + 1;
    }
    return schemes[0];
  }

  /** `SchemeFor` returns the FIRST scheme with the id. */
  lemma {:induction false} FirstWithId(schemes: seq<Scheme>, id: string, i: nat)
    requires i < |schemes| && schemes[i].id == id
    requires forall k :: 0 <= k < i ==> schemes[k].id != id
    ensures SchemeFor(schemes, id) == schemes[i]
    decreases i
  {
    if i > 0 {
      var rest := schemes[1..];
      assert rest[i - 1] == schemes[i];
      assert forall k :: 0 <= k < i - 1 ==> rest[k] == schemes[k + 1];
      FirstWithId(rest, id, i - 1);
    }
  }

  method GetId(schemes: seq<Scheme>, controller: bool) returns (id: string)
    requires IdIndex(controller) < |schemes|
    ensures id == schemes[IdIndex(controller)].id
  {
    var index := if controller then 1 else 0;
    return schemes[index].id;
  }

  /** Looking up the id of the keyboard or controller scheme finds a scheme
      with that id, and finds that very scheme when the ids before it differ. */
  lemma IdRoundTrip(schemes: seq<Scheme>, controller: bool)
    requires IdIndex(controller) < |schemes|
    ensures SchemeFor(schemes, schemes[IdIndex(controller)].id).id == schemes[IdIndex(controller)].id
    ensures (forall k :: 0 <= k < IdIndex(controller) ==> schemes[k].id != schemes[IdIndex(controller)].id) ==>
      SchemeFor(schemes, schemes[IdIndex(controller)].id) == schemes[IdIndex(controller)]
  {
    var i := IdIndex(controller);
    if forall k :: 0 <= k < i ==> schemes[k].id != schemes[i].id {
      FirstWithId(schemes, schemes[i].id, i);
    }
  }
}
