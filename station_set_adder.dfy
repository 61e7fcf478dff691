/** Registers a chore station in the level's station set, with a latch so
    that it is added at most once between removals
    (Assets/Scripts/Chore/ChoreStationSetAdder.cs). A missing set (an
    unassigned inspector field) is a null reference. */
module StationSetAdder {
  import opened RuntimeSets
  import opened ChoreStations

  class ChoreStationSetAdder {
    const choreStationSet: RuntimeSet?<ChoreStation>
    const addOnStart: bool
    const choreStation: ChoreStation
    var isAddedToSet: bool

    constructor (choreStationSet: RuntimeSet?<ChoreStation>, addOnStart: bool, choreStation: ChoreStation)
      ensures this.choreStationSet == choreStationSet && this.addOnStart == addOnStart
      ensures this.choreStation == choreStation && !isAddedToSet
    {
      this.choreStationSet := choreStationSet;
      this.addOnStart := addOnStart;
      this.choreStation := choreStation;
      isAddedToSet := false;
    }

    /** Adds the station unless there is no set or the latch is set; the
        result says whether the set raised its added-notification. */
    method AddToSet() returns (added: bool)
      modifies this, choreStationSet
      ensures old(choreStationSet == null || isAddedToSet) ==>
        !added && isAddedToSet == old(isAddedToSet)
        && (choreStationSet != null ==> choreStationSet.list == old(choreStationSet.list))
      ensures choreStationSet != null && !old(isAddedToSet) ==>
        && isAddedToSet
        && added == (choreStation !in old(choreStationSet.list))
        && choreStationSet.list == (if added then old(choreStationSet.list) + [choreStation] else old(choreStationSet.list))
        && choreStation in choreStationSet.list
    {
      added := false;
      if choreStationSet != null && !isAddedToSet {
        added := choreStationSet.AddObject(choreStation);
        isAddedToSet := true;
      }
    }

    /** Removes the station and re-arms `AddToSet`; does nothing without a
        set. */
    method RemoveFromSet()
      modifies this, choreStationSet
      ensures choreStationSet == null ==> isAddedToSet == old(isAddedToSet)
      ensures choreStationSet != null ==>
        !isAddedToSet && choreStationSet.list == RemoveFirst(old(choreStationSet.list), choreStation)
    {
      if choreStationSet != null {
        choreStationSet.RemoveObject(choreStation);
        isAddedToSet := false;
      }
    }

    method Start() returns (added: bool)
      modifies this, choreStationSet
      ensures !addOnStart ==>
        !added && isAddedToSet == old(isAddedToSet)
        && (choreStationSet != null ==> choreStationSet.list == old(choreStationSet.list))
      ensures addOnStart && old(choreStationSet == null || isAddedToSet) ==>
        !added && isAddedToSet == old(isAddedToSet)
        && (choreStationSet != null ==> choreStationSet.list == old(choreStationSet.list))
      ensures addOnStart && choreStationSet != null && !old(isAddedToSet) ==>
        isAddedToSet && choreStation in choreStationSet.list
        && added == (choreStation !in old(choreStationSet.list))
        && choreStationSet.list == (if added then old(choreStationSet.list) + [choreStation] else old(choreStationSet.list))
    {
      added := false;
      if addOnStart {
        added := AddToSet();
      }
    }

    /** The station's task-completed notification and the component's
        destruction both route to `RemoveFromSet`. */
    method OnTaskCompleted()
      modifies this, choreStationSet
      ensures choreStationSet == null ==> isAddedToSet == old(isAddedToSet)
      ensures choreStationSet != null ==>
        !isAddedToSet && choreStationSet.list == RemoveFirst(old(choreStationSet.list), choreStation)
    {
      RemoveFromSet();
    }

    method OnDestroy()
      modifies this, choreStationSet
      ensures choreStationSet == null ==> isAddedToSet == old(isAddedToSet)
      ensures choreStationSet != null ==>
        !isAddedToSet && choreStationSet.list == RemoveFirst(old(choreStationSet.list), choreStation)
    {
      RemoveFromSet();
    }
  }

  /** Two adds in a row register the station once; a removal in between
      re-arms the latch, and with a valid set the station is then absent. */
  method AddTwiceThenRemove(adder: ChoreStationSetAdder)
    requires adder.choreStationSet != null && adder.choreStationSet.Valid()
    requires !adder.isAddedToSet && adder.choreStation !in adder.choreStationSet.list
    modifies adder, adder.choreStationSet
    ensures adder.choreStationSet.list == old(adder.choreStationSet.list)
    ensures !adder.isAddedToSet
  {
    ghost var start := adder.choreStationSet.list;
    var first := adder.AddToSet();
    assert first;
    var second := adder.AddToSet();
    assert !second && adder.choreStationSet.list == start + [adder.choreStation];
    adder.RemoveFromSet();
    AddThenRemove(start, adder.choreStation);
  }
}
