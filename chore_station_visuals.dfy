/** The objects shown inside a station (Assets/Scripts/Chore/ChoreStationVisuals.cs):
    the station announces each accepted object with its type and the
    number of objects it held before, and the matching renderer is
    enabled; the station's reset hides them all. The renderers' enabled
    flags are the model's state. */
module StationVisuals {
  import opened Chores

  /** One announcement applied to the enabled flags. */
  function ShowOne(shown: seq<bool>, choreType: ChoreType, inputType: ChoreType, index: nat): seq<bool> {
    if inputType != choreType || index >= |shown| then shown else shown[index := true]
  }

  /** Announcing the same object twice shows nothing more than once. */
  lemma ShowOneIdempotent(shown: seq<bool>, choreType: ChoreType, inputType: ChoreType, index: nat)
    ensures ShowOne(ShowOne(shown, choreType, inputType, index), choreType, inputType, index)
      == ShowOne(shown, choreType, inputType, index)
  {
  }

  /** The flags after the station announced each of `types` in turn, the
      i-th with index i. */
  function AfterShows(shown: seq<bool>, choreType: ChoreType, types: seq<ChoreType>): (r: seq<bool>)
    ensures |r| == |shown|
  {
    if types == [] then shown
    else ShowOne(AfterShows(shown, choreType, types[..|types| - 1]), choreType, types[|types| - 1], |types| - 1)
  }

  /** Starting hidden, after a station filled with `types` exactly the
      renderers whose slot holds an object of this visual's type are shown. */
  lemma {:induction false} ShownMatchesContents(shown: seq<bool>, choreType: ChoreType, types: seq<ChoreType>)
    requires forall j :: 0 <= j < |shown| ==> !shown[j]
    ensures forall j :: 0 <= j < |shown| ==>
      AfterShows(shown, choreType, types)[j] == (j < |types| && types[j] == choreType)
  {
    if types != [] {
      var init := types[..|types| - 1];
      ShownMatchesContents(shown, choreType, init);
      assert forall j :: 0 <= j < |init| ==> init[j] == types[j];
    }
  }

  class ChoreStationVisuals {
    const choreType: ChoreType
    const toShow: array<bool>

    constructor (choreType: ChoreType, toShow: array<bool>)
      ensures this.choreType == choreType && this.toShow == toShow
    {
      this.choreType := choreType;
      this.toShow := toShow;
    }

    /** Enables renderer `index` for an object of this visual's type; any
        other type or an index past the renderers changes nothing. */
    method ShowChoreObject(inputType: ChoreType, index: nat)
      modifies toShow
      ensures toShow[..] == ShowOne(old(toShow[..]), choreType, inputType, index)
    {
      if inputType != choreType || index >= toShow.Length {
        return;
      }
      toShow[index] := true;
    }

    /** Disables every renderer. */
    method HideChoreObjects()
      modifies toShow
      ensures forall j :: 0 <= j < toShow.Length ==> !toShow[j]
    {
      var i := 0;
      while i < toShow.Length
        invariant 0 <= i <= toShow.Length
        invariant forall j :: 0 <= j < i ==> !toShow[j]
      {
        toShow[i] := false;
        i := i + 1;
      }
    }
  }
}
