/** The player's carrying and interaction logic
    (Assets/Scripts/Player/PlayerInteract.cs): a LIFO stack of held chore
    objects bounded by the bottom object's `MaxStack`, the objects and
    stations in range with the closest of each, and the press state machine
    of the primary button. Distances from the player are given as
    `Distances` at each call, since positions are not part of the model. */
module PlayerInteraction {
  import opened Common
  import opened Chores
  import opened RuntimeSets
  import opened ChoreStations

  /** The phases of a button press; `NoState` is the source's `None`. */
  datatype InteractState = Up | Stay | Down | NoState

  datatype Distances = Distances(toObject: ChoreObject -> real, toStation: ChoreStation -> real)

  // ------------------------------------------------ closest search spec

  predicate Candidate<T>(list: seq<Option<T>>, eligible: T -> bool, i: int) {
    0 <= i < |list| && list[i].Some? && eligible(list[i].value)
  }

  /** `index` is the first eligible entry with the least distance, or -1
      when no entry is present and eligible. Strict `<` in the search keeps
      the earliest of equally close entries. */
  ghost predicate IsFirstClosest<T>(list: seq<Option<T>>, dist: T -> real, eligible: T -> bool, index: int) {
    if forall i :: !Candidate(list, eligible, i) then index == -1
    else
      && Candidate(list, eligible, index)
      && (forall j :: Candidate(list, eligible, j) ==> dist(list[index].value) <= dist(list[j].value))
      && (forall j :: 0 <= j < index && Candidate(list, eligible, j) ==> dist(list[index].value) < dist(list[j].value))
  }

  function Any<T>(): T -> bool {
    _ => true
  }

  /** Objects that can go on top of the held stack: same type and
      cleanliness as the held ones, and an amount that still fits under the
      bottom object's `MaxStack`. */
  function StackableWith(held: seq<ChoreObject>, heldType: ChoreType, heldClean: bool): ChoreObject -> bool {
    (o: ChoreObject) => (|held| == 0 || |held| + o.amount <= held[0].maxStack) && heldType == o.choreType && heldClean == o.clean
  }

  function Present<T>(s: seq<T>): (r: seq<Option<T>>)
    ensures |r| == |s| && forall i :: 0 <= i < |s| ==> r[i] == Some(s[i])
  {
    seq(|s|, i requires 0 <= i < |s| => Some(s[i]))
  }

  /** Over a list of live entries, the search finds something exactly when
      the list is not empty. */
  lemma ClosestOfPresent<T>(s: seq<T>, dist: T -> real, index: int)
    requires IsFirstClosest(Present(s), dist, Any(), index)
    ensures index == -1 <==> s == []
    ensures s != [] ==> 0 <= index < |s|
  {
    if s != [] {
      assert Candidate(Present(s), Any(), 0);
    }
  }

  /** Extending the scanned prefix by one entry: the step of the search. */
  lemma ClosestStep<T>(list: seq<Option<T>>, dist: T -> real, eligible: T -> bool, index: int, i: nat)
    requires i < |list|
    requires IsFirstClosest(list[..i], dist, eligible, index)
    ensures Candidate(list, eligible, i) && (index == -1 || dist(list[i].value) < dist(list[index].value)) ==>
      IsFirstClosest(list[..i + 1], dist, eligible, i)
    ensures !(Candidate(list, eligible, i) && (index == -1 || dist(list[i].value) < dist(list[index].value))) ==>
      IsFirstClosest(list[..i + 1], dist, eligible, index)
  {
    var p, q := list[..i], list[..i + 1];
    assert forall j :: 0 <= j < i ==> (Candidate(p, eligible, j) <==> Candidate(q, eligible, j));
    assert Candidate(q, eligible, i) <==> Candidate(list, eligible, i);
    if index != -1 {
      assert Candidate(p, eligible, index);
    }
  }

  /** `FindClosest`: the closest present entry and its index, or none and -1. */
  method FindClosest<T>(list: seq<Option<T>>, dist: T -> real) returns (closest: Option<T>, index: int)
    ensures IsFirstClosest(list, dist, Any(), index)
    ensures closest == if index == -1 then None else list[index]
  {
    closest, index := None, -1;
    var closestDistance := 0.0;
    var i := 0;
    while i < |list|
      invariant 0 <= i <= |list|
      invariant IsFirstClosest(list[..i], dist, Any(), index)
      invariant -1 <= index < i
      invariant closest == if index == -1 then None else list[index]
      invariant closest.Some? ==> closestDistance == dist(closest.value)
    {
      ClosestStep(list, dist, Any(), index, i);
      var current := list[i];
      if current.Some? {
        var distance := dist(current.value);
        if closest.None? || distance < closestDistance {
          closest, closestDistance, index := current, distance, i;
        }
      }
      i := i + 1;
    }
    assert list[..i] == list;
  }

  // ------------------------------------------------------------ player

  class PlayerInteract {
    const canMixHeldItems: bool
    var choreObjectsInRange: seq<Option<ChoreObject>>
    var heldChoreObjects: seq<ChoreObject>
    var closestObject: Option<ChoreObject>
    var closestIndex: int
    var heldChoreType: ChoreType
    var heldClean: bool
    var placedChoreObjectThisPress: bool
    var choreInteractablesInRange: seq<ChoreStation>
    var closestChoreStation: ChoreStation?
    var isInteracting: bool
    var lastState: InteractState

    predicate IsCarrying()
      reads this
    {
      |heldChoreObjects| > 0
    }

    function Eligible(): ChoreObject -> bool
      reads this
    {
      if |heldChoreObjects| > 0 && !canMixHeldItems then StackableWith(heldChoreObjects, heldChoreType, heldClean)
      else Any()
    }

    /** The held stack never grows past the bottom object's `MaxStack`
        (one object can always be picked up), and without mixing every held
        object has the held type and cleanliness. */
    ghost predicate HeldValid()
      reads this
    {
      && (|heldChoreObjects| > 0 ==>
            |heldChoreObjects| <= 1 || |heldChoreObjects| <= heldChoreObjects[0].maxStack)
      && (!canMixHeldItems ==>
            forall i :: 0 <= i < |heldChoreObjects| ==>
              heldChoreObjects[i].choreType == heldChoreType && heldChoreObjects[i].clean == heldClean)
    }

    /** The remembered closest object and station belong to the current
        lists, as every change of the lists is followed by `SetClosest`. */
    ghost predicate ClosestValid()
      reads this
    {
      && (closestObject.None? <==> closestIndex == -1)
      && (closestObject.Some? ==>
            0 <= closestIndex < |choreObjectsInRange| && choreObjectsInRange[closestIndex] == closestObject
            && Eligible()(closestObject.value))
      && (closestChoreStation != null <==> |choreInteractablesInRange| > 0)
      && (closestChoreStation != null ==> closestChoreStation in choreInteractablesInRange)
    }

    ghost predicate Valid()
      reads this
    {
      HeldValid() && ClosestValid()
    }

    /** The remembered closest object and station are the ones the search
        finds in the current range lists for the distances `d`: the first
        eligible object of least distance and the first station of least
        distance. */
    ghost predicate ClosestAgrees(d: Distances)
      reads this
    {
      && IsFirstClosest(choreObjectsInRange, d.toObject, Eligible(), closestIndex)
      && closestObject == (if closestIndex == -1 then None else choreObjectsInRange[closestIndex])
      && exists k ::
           && IsFirstClosest(Present(choreInteractablesInRange), d.toStation, Any(), k)
           && closestChoreStation == (if k == -1 then null else choreInteractablesInRange[k])
    }

    /** The per-press state is untouched. */
    twostate predicate PressUnchanged()
      reads this
    {
      && placedChoreObjectThisPress == old(placedChoreObjectThisPress)
      && isInteracting == old(isInteracting) && lastState == old(lastState)
    }

    /** The held type and cleanliness are untouched. */
    twostate predicate HeldKindUnchanged()
      reads this
    {
      heldChoreType == old(heldChoreType) && heldClean == old(heldClean)
    }

    constructor (canMixHeldItems: bool)
      ensures Valid()
      ensures this.canMixHeldItems == canMixHeldItems
      ensures choreObjectsInRange == [] && heldChoreObjects == [] && choreInteractablesInRange == []
      ensures !placedChoreObjectThisPress && !isInteracting && lastState == NoState
    {
      this.canMixHeldItems := canMixHeldItems;
      choreObjectsInRange, heldChoreObjects, choreInteractablesInRange := [], [], [];
      closestObject, closestIndex, closestChoreStation := None, -1, null;
      heldChoreType, heldClean := Dishes, false;
      placedChoreObjectThisPress, isInteracting, lastState := false, false, NoState;
    }

    /** `FindClosestChoreObjectOfType`: the search restricted to objects
        that fit on the held stack. */
    method FindClosestChoreObjectOfType(list: seq<Option<ChoreObject>>, dist: ChoreObject -> real)
      returns (closest: Option<ChoreObject>, index: int)
      ensures IsFirstClosest(list, dist, StackableWith(heldChoreObjects, heldChoreType, heldClean), index)
      ensures closest == if index == -1 then None else list[index]
    {
      ghost var eligible := StackableWith(heldChoreObjects, heldChoreType, heldClean);
      closest, index := None, -1;
      var closestDistance := 0.0;
      var i := 0;
      while i < |list|
        invariant 0 <= i <= |list|
        invariant IsFirstClosest(list[..i], dist, eligible, index)
        invariant -1 <= index < i
        invariant closest == if index == -1 then None else list[index]
        invariant closest.Some? ==> closestDistance == dist(closest.value)
      {
        ClosestStep(list, dist, eligible, index, i);
        var current := list[i];
        if current.Some?
          && !(|heldChoreObjects| != 0 && |heldChoreObjects| + current.value.amount > heldChoreObjects[0].maxStack)
          && heldChoreType == current.value.choreType && heldClean == current.value.clean
        {
          var distance := dist(current.value);
          if closest.None? || distance < closestDistance {
            closest, closestDistance, index := current, distance, i;
          }
        }
        i := i + 1;
      }
      assert list[..i] == list;
    }

    /** Recompute the closest object (restricted to stackable ones while
        carrying, unless mixing is allowed) and the closest station. */
    method SetClosest(d: Distances)
      modifies this
      ensures ClosestAgrees(d)
      ensures choreObjectsInRange == old(choreObjectsInRange) && heldChoreObjects == old(heldChoreObjects)
      ensures choreInteractablesInRange == old(choreInteractablesInRange)
      ensures HeldKindUnchanged() && PressUnchanged()
      ensures ClosestValid()
      ensures old(HeldValid()) ==> Valid()
    {
      if |heldChoreObjects| > 0 && !canMixHeldItems {
        closestObject, closestIndex := FindClosestChoreObjectOfType(choreObjectsInRange, d.toObject);
      } else {
        closestObject, closestIndex := FindClosest(choreObjectsInRange, d.toObject);
      }
      var station, k := FindClosest(Present(choreInteractablesInRange), d.toStation);
      ClosestOfPresent(choreInteractablesInRange, d.toStation, k);
      closestChoreStation := if station.Some? then station.value else null;
      if closestObject.Some? {
        assert Candidate(choreObjectsInRange, Eligible(), closestIndex);
      }
    }

    /** A chore object entering the trigger range. */
    method ObjectEnteredRange(o: ChoreObject, d: Distances)
      modifies this
      ensures choreObjectsInRange == old(choreObjectsInRange) + [Some(o)]
      ensures heldChoreObjects == old(heldChoreObjects) && choreInteractablesInRange == old(choreInteractablesInRange)
      ensures HeldKindUnchanged() && PressUnchanged() && ClosestAgrees(d)
      ensures old(HeldValid()) ==> Valid()
    {
      choreObjectsInRange := choreObjectsInRange + [Some(o)];
      SetClosest(d);
    }

    /** A chore object leaving the trigger range (first occurrence removed). */
    method ObjectExitedRange(o: ChoreObject, d: Distances)
      modifies this
      ensures choreObjectsInRange == RemoveFirst(old(choreObjectsInRange), Some(o))
      ensures heldChoreObjects == old(heldChoreObjects) && choreInteractablesInRange == old(choreInteractablesInRange)
      ensures HeldKindUnchanged() && PressUnchanged() && ClosestAgrees(d)
      ensures old(HeldValid()) ==> Valid()
    {
      choreObjectsInRange := RemoveFirst(choreObjectsInRange, Some(o));
      SetClosest(d);
    }

    method StationEnteredRange(s: ChoreStation, d: Distances)
      modifies this
      ensures choreInteractablesInRange == old(choreInteractablesInRange) + [s]
      ensures heldChoreObjects == old(heldChoreObjects) && choreObjectsInRange == old(choreObjectsInRange)
      ensures closestChoreStation != null
      ensures HeldKindUnchanged() && PressUnchanged() && ClosestAgrees(d)
      ensures old(HeldValid()) ==> Valid()
    {
      choreInteractablesInRange := choreInteractablesInRange + [s];
      SetClosest(d);
    }

    method StationExitedRange(s: ChoreStation, d: Distances)
      modifies this
      ensures choreInteractablesInRange == RemoveFirst(old(choreInteractablesInRange), s)
      ensures heldChoreObjects == old(heldChoreObjects) && choreObjectsInRange == old(choreObjectsInRange)
      ensures HeldKindUnchanged() && PressUnchanged() && ClosestAgrees(d)
      ensures old(HeldValid()) ==> Valid()
    {
      choreInteractablesInRange := RemoveFirst(choreInteractablesInRange, s);
      SetClosest(d);
    }

    /** Pick-up condition: something in range, room on the stack, and a
        remembered closest object. */
    predicate CanPickUp()
      reads this
    {
      |choreObjectsInRange| > 0
      && (|heldChoreObjects| == 0 || |heldChoreObjects| < heldChoreObjects[0].maxStack)
      && closestObject.Some?
    }

    /** Moves the remembered closest object from the range list to the top
        of the held stack. */
    method TryPickUpClosestChoreObject(d: Distances) returns (pickedUp: bool)
      requires Valid()
      modifies this
      ensures pickedUp == old(CanPickUp())
      ensures pickedUp ==>
        && heldChoreObjects == old(heldChoreObjects) + [old(closestObject).value]
        && choreObjectsInRange == old(choreObjectsInRange[..closestIndex] + choreObjectsInRange[closestIndex + 1..])
        && heldChoreType == old(closestObject).value.choreType && heldClean == old(closestObject).value.clean
        && ClosestAgrees(d)
      ensures !pickedUp ==> unchanged(this)
      ensures choreInteractablesInRange == old(choreInteractablesInRange)
      ensures placedChoreObjectThisPress == old(placedChoreObjectThisPress) && lastState == old(lastState)
      ensures isInteracting == old(isInteracting)
      ensures Valid()
    {
      if |choreObjectsInRange| > 0
        && (|heldChoreObjects| == 0 || |heldChoreObjects| < heldChoreObjects[0].maxStack)
      {
        if closestObject.Some? {
          var o := closestObject.value;
          choreObjectsInRange := choreObjectsInRange[..closestIndex] + choreObjectsInRange[closestIndex + 1..];
          heldChoreObjects := heldChoreObjects + [o];
          heldChoreType := o.choreType;
          heldClean := o.clean;
          SetClosest(d);
          return true;
        }
      }
      return false;
    }

    /** Put-away condition: carrying, a station in range, and the closest
        station accepts the top held object. */
    predicate CanPutAwayTop()
      reads this, closestChoreStation
    {
      |heldChoreObjects| > 0 && |choreInteractablesInRange| > 0 && closestChoreStation != null
      && closestChoreStation.CanPutAway(Some(heldChoreObjects[|heldChoreObjects| - 1]))
    }

    /** Offers the top held object to the closest station; only an accepted
        object leaves the stack. */
    method TryInteractWithClosestInteractable(d: Distances) returns (placed: bool, score: Option<ScoreEvent>)
      requires Valid()
      modifies this, closestChoreStation
      ensures placed == old(CanPutAwayTop())
      ensures placed ==>
        && heldChoreObjects == old(heldChoreObjects[..|heldChoreObjects| - 1])
        && old(closestChoreStation).containedChoreTypes ==
             old(closestChoreStation.containedChoreTypes) + [old(heldChoreObjects[|heldChoreObjects| - 1]).choreType]
        && score == ScoreFor(old(closestChoreStation).config, old(heldChoreObjects[|heldChoreObjects| - 1]), false, 1.0)
        && old(closestChoreStation).taskProgress == old(closestChoreStation.taskProgress)
        && old(closestChoreStation).progressOngoing == old(closestChoreStation.progressOngoing)
        && old(closestChoreStation).canInteract == old(closestChoreStation.canInteract)
        && ClosestAgrees(d)
      ensures !placed ==> unchanged(this) && score.None?
      ensures !placed && old(closestChoreStation) != null ==> unchanged(old(closestChoreStation))
      ensures choreObjectsInRange == old(choreObjectsInRange) && choreInteractablesInRange == old(choreInteractablesInRange)
      ensures HeldKindUnchanged() && PressUnchanged()
      ensures Valid()
    {
      if |heldChoreObjects| > 0 && |choreInteractablesInRange| > 0 {
        var index := |heldChoreObjects| - 1;
        var top := heldChoreObjects[index];
        var added;
        added, score := closestChoreStation.AddChoreObject(Some(top));
        if added {
          heldChoreObjects := heldChoreObjects[..index];
          SetClosest(d);
          return true, score;
        }
      }
      return false, None;
    }

    /** Holding the button progresses the closest station, never while
        anything is carried. The station's completion results are returned. */
    method TryHoldInteract(step: real) returns (ok: bool, station: ChoreStation?,
                                                 completed: bool, spawned: seq<Option<ChoreObject>>)
      modifies closestChoreStation
      ensures |heldChoreObjects| > 0 ==> !ok && station == null
      ensures |heldChoreObjects| == 0 ==>
        station == closestChoreStation && ok == (station != null && old(station.EnoughForInteraction()))
      ensures ok ==> station != null && station.ProgressStep(step, completed, spawned)
      ensures !ok ==> !completed && spawned == []
      ensures !ok && closestChoreStation != null ==> unchanged(closestChoreStation)
    {
      completed, spawned := false, [];
      if |heldChoreObjects| > 0 {
        return false, null, completed, spawned;
      }
      station := closestChoreStation;
      ok := false;
      if station != null {
        ok, completed, spawned := station.TryProgressInteract(step);
      }
    }

    /** Stops the closest station's progress where that station allows it;
        its contents, progress amount and interactability are kept. */
    method TryCancelProgress()
      modifies closestChoreStation
      ensures closestChoreStation != null ==>
        && closestChoreStation.progressOngoing ==
             (if closestChoreStation.config.canCancelProgress then false else old(closestChoreStation.progressOngoing))
        && closestChoreStation.containedChoreTypes == old(closestChoreStation.containedChoreTypes)
        && closestChoreStation.taskProgress == old(closestChoreStation.taskProgress)
        && closestChoreStation.canInteract == old(closestChoreStation.canInteract)
    {
      if closestChoreStation != null {
        var stopped := closestChoreStation.CancelProgress();
      }
    }

    /** Nothing the primary button's Up and Stay cases leave alone has
        changed: the range lists, the held stack and its kind, and the
        remembered closest object and station. */
    twostate predicate RangeAndHeldUnchanged()
      reads this
    {
      && choreObjectsInRange == old(choreObjectsInRange) && choreInteractablesInRange == old(choreInteractablesInRange)
      && heldChoreObjects == old(heldChoreObjects) && HeldKindUnchanged()
      && closestObject == old(closestObject) && closestIndex == old(closestIndex)
      && closestChoreStation == old(closestChoreStation)
    }

    /** The effect of releasing the primary button: the press mark is
        cleared, and only a release after Stay cancels the closest
        station's progress (where that station allows it). */
    twostate predicate UpEffect()
      reads this, closestChoreStation
    {
      && lastState == Up && !placedChoreObjectThisPress && isInteracting == old(isInteracting)
      && RangeAndHeldUnchanged()
      && (old(lastState) != Stay && closestChoreStation != null ==> unchanged(closestChoreStation))
      && (old(lastState) == Stay && closestChoreStation != null ==>
            && closestChoreStation.progressOngoing ==
                 (if closestChoreStation.config.canCancelProgress then false
                  else old(closestChoreStation.progressOngoing))
            && closestChoreStation.containedChoreTypes == old(closestChoreStation.containedChoreTypes)
            && closestChoreStation.taskProgress == old(closestChoreStation.taskProgress)
            && closestChoreStation.canInteract == old(closestChoreStation.canInteract))
    }

    /** The effect of holding the primary button: unless something was put
        away during this press, the player interacts exactly when carrying
        nothing and the closest station has enough for interaction, and that
        station then takes one progress step. */
    twostate predicate StayEffect(step: real, completed: bool, new spawned: seq<Option<ChoreObject>>)
      reads this, closestChoreStation
    {
      && lastState == Stay && placedChoreObjectThisPress == old(placedChoreObjectThisPress)
      && RangeAndHeldUnchanged()
      && (old(placedChoreObjectThisPress) ==> isInteracting == old(isInteracting))
      && (!old(placedChoreObjectThisPress) ==>
            isInteracting == (old(|heldChoreObjects|) == 0 && closestChoreStation != null
                              && old(closestChoreStation.EnoughForInteraction())))
      && (!old(placedChoreObjectThisPress) && isInteracting ==>
            closestChoreStation != null && closestChoreStation.ProgressStep(step, completed, spawned))
      && (old(placedChoreObjectThisPress) || !isInteracting ==>
            !completed && spawned == [] && (closestChoreStation != null ==> unchanged(closestChoreStation)))
    }

    /** The effect of pressing the primary button, with `station` the
        closest station before the press: a pick-up has priority; otherwise
        the top held object goes into `station` when it accepts it, which
        scores it and marks the press. */
    twostate predicate DownEffect(d: Distances, new score: Option<ScoreEvent>, station: ChoreStation?)
      requires old(Valid())
      reads this, station
    {
      && lastState == Down && isInteracting == old(isInteracting)
      && choreInteractablesInRange == old(choreInteractablesInRange)
      && (old(CanPickUp()) ==>
            && heldChoreObjects == old(heldChoreObjects) + [old(closestObject).value]
            && choreObjectsInRange == old(choreObjectsInRange[..closestIndex] + choreObjectsInRange[closestIndex + 1..])
            && placedChoreObjectThisPress == old(placedChoreObjectThisPress)
            && heldChoreType == old(closestObject).value.choreType && heldClean == old(closestObject).value.clean
            && score.None? && ClosestAgrees(d)
            && (station != null ==> unchanged(station)))
      && (!old(CanPickUp()) ==>
            && placedChoreObjectThisPress == (old(placedChoreObjectThisPress) || old(CanPutAwayTop()))
            && choreObjectsInRange == old(choreObjectsInRange) && HeldKindUnchanged()
            && heldChoreObjects == (if old(CanPutAwayTop()) then old(heldChoreObjects[..|heldChoreObjects| - 1])
                                    else old(heldChoreObjects)))
      && (!old(CanPickUp()) && old(CanPutAwayTop()) ==>
            && station != null
            && station.containedChoreTypes ==
                 old(station.containedChoreTypes) + [old(heldChoreObjects[|heldChoreObjects| - 1]).choreType]
            && score == ScoreFor(station.config, old(heldChoreObjects[|heldChoreObjects| - 1]), false, 1.0)
            && station.taskProgress == old(station.taskProgress)
            && station.progressOngoing == old(station.progressOngoing)
            && station.canInteract == old(station.canInteract)
            && ClosestAgrees(d))
      && (!old(CanPickUp()) && !old(CanPutAwayTop()) ==>
            score.None? && closestObject == old(closestObject) && closestIndex == old(closestIndex)
            && closestChoreStation == old(closestChoreStation)
            && (station != null ==> unchanged(station)))
    }

    /** The Up case of the primary button. */
    method PrimaryUp()
      requires Valid()
      modifies this, closestChoreStation
      ensures UpEffect() && Valid()
    {
      if lastState == Stay {
        TryCancelProgress();
      }
      placedChoreObjectThisPress := false;
      lastState := Up;
    }

    /** The Stay case of the primary button. */
    method PrimaryStay(step: real) returns (completed: bool, spawned: seq<Option<ChoreObject>>)
      requires Valid()
      modifies this, closestChoreStation
      ensures StayEffect(step, completed, spawned) && Valid()
    {
      completed, spawned := false, [];
      if !placedChoreObjectThisPress {
        var station;
        isInteracting, station, completed, spawned := TryHoldInteract(step);
      }
      lastState := Stay;
    }

    /** The Down case of the primary button. */
    method PrimaryDown(d: Distances) returns (score: Option<ScoreEvent>)
      requires Valid()
      modifies this, closestChoreStation
      ensures DownEffect(d, score, old(closestChoreStation)) && Valid()
    {
      score := None;
      var pickedUp := TryPickUpClosestChoreObject(d);
      if !pickedUp {
        var placed;
        placed, score := TryInteractWithClosestInteractable(d);
        if placed {
          placedChoreObjectThisPress := true;
        }
      }
      lastState := Down;
    }

    /** The primary button, dispatching on the input state; the last state
        is always recorded. A hold's completion results and a put-away's
        score are returned. */
    method PrimaryInteract(state: InteractState, d: Distances, step: real)
      returns (completed: bool, spawned: seq<Option<ChoreObject>>, score: Option<ScoreEvent>)
      requires Valid()
      modifies this, closestChoreStation
      ensures lastState == state && Valid()
      ensures state == Up ==> UpEffect()
      ensures state == Stay ==> StayEffect(step, completed, spawned)
      ensures state == Down ==> DownEffect(d, score, old(closestChoreStation))
      ensures state == NoState ==>
        && RangeAndHeldUnchanged() && placedChoreObjectThisPress == old(placedChoreObjectThisPress)
        && isInteracting == old(isInteracting)
        && (closestChoreStation != null ==> unchanged(closestChoreStation))
      ensures state != Stay ==> !completed && spawned == []
      ensures state != Down ==> score.None?
    {
      completed, spawned, score := false, [], None;
      match state {
        case Up =>
          PrimaryUp();
        case Stay =>
          completed, spawned := PrimaryStay(step);
        case Down =>
          score := PrimaryDown(d);
        case NoState =>
          lastState := NoState;
      }
    }

    /** Drops the top held object; false and no change on an empty stack. */
    method TryDropChoreObject(d: Distances) returns (dropped: bool)
      requires Valid()
      modifies this
      ensures dropped == old(|heldChoreObjects| > 0)
      ensures dropped ==> heldChoreObjects == old(heldChoreObjects[..|heldChoreObjects| - 1]) && ClosestAgrees(d)
      ensures !dropped ==> unchanged(this)
      ensures HeldKindUnchanged() && PressUnchanged()
      ensures choreObjectsInRange == old(choreObjectsInRange) && choreInteractablesInRange == old(choreInteractablesInRange)
      ensures Valid()
    {
      if |heldChoreObjects| > 0 {
        var index := |heldChoreObjects| - 1;
        heldChoreObjects := heldChoreObjects[..index];
        SetClosest(d);
        return true;
      }
      return false;
    }

    /** The secondary button drops on Down and ignores everything else. */
    method SecondaryInteract(state: InteractState, d: Distances)
      requires Valid()
      modifies this
      ensures state == Down ==>
        && heldChoreObjects ==
             (if old(|heldChoreObjects|) > 0 then old(heldChoreObjects[..|heldChoreObjects| - 1]) else old(heldChoreObjects))
        && (old(|heldChoreObjects|) > 0 ==> ClosestAgrees(d))
        && choreObjectsInRange == old(choreObjectsInRange) && choreInteractablesInRange == old(choreInteractablesInRange)
        && HeldKindUnchanged() && PressUnchanged()
      ensures state != Down ==> unchanged(this)
      ensures Valid()
    {
      if state == Down {
        var dropped := TryDropChoreObject(d);
      }
    }
  }
}
