/** A chore station: a bounded container of chore types with a progress
    bar, an acceptance rule, a completion reset that spawns cleaned objects
    and a score-multiplier table (Assets/Scripts/Chore/ChoreStation.cs).
    Progress, multipliers and times are exact reals here. */
module ChoreStations {
  import opened Common
  import opened Chores
  import PrefabReferences

  datatype ChoreMultiplier = ChoreMultiplier(choreType: ChoreType, multi: real, isDirty: bool)

  /** The payload of the static scored-notification: a chore type and the
      points to add for it. */
  datatype ScoreEvent = ScoreEvent(choreType: ChoreType, score: int)

  /** The inspector settings of a station. `stackAmount` is the `Amount` of
      the object on the completed-stack placeholder. */
  datatype StationConfig = StationConfig(
    maxAmountOfContainedObjects: int,
    choreMultipliers: seq<ChoreMultiplier>,
    stackAmount: int,
    choreObjectPrefabs: seq<ChoreObject>,
    stackPrefabs: seq<ChoreObject>,
    dirtyPrefabs: seq<ChoreObject>,
    takesClean: bool,
    takesAny: bool,
    takesNoChoreObjects: bool,
    shouldAddScore: bool,
    choreType: ChoreType,
    canCancelProgress: bool,
    canAddWhileProgressing: bool,
    amountRequiredForInteract: int,
    canInteractWhileProgressing: bool)

  // ---------------------------------------------------------------- text

  function DigitChar(d: nat): (c: char)
    requires d < 10
    ensures '0' <= c <= '9'
  {
    (('0' as int) + d) as char
  }

  /** Decimal text of a count, as C# string interpolation prints it. */
  function NatToString(n: nat): (r: string)
    ensures |r| > 0
    ensures forall i :: 0 <= i < |r| ==> '0' <= r[i] <= '9'
  {
    if n < 10 then [DigitChar(n)] else NatToString(n / 10) + [DigitChar(n % 10)]
  }

  /** Reading decimal digits back, the partner of `NatToString`. */
  function ParseNat(s: string): nat
    requires forall i :: 0 <= i < |s| ==> '0' <= s[i] <= '9'
  {
    if s == [] then 0
    else 10 * ParseNat(s[..|s| - 1]) + ((s[|s| - 1] as int) - ('0' as int))
  }

  lemma {:induction false} ParseNatToString(n: nat)
    ensures ParseNat(NatToString(n)) == n
  {
    if n >= 10 {
      var s := NatToString(n);
      assert s[..|s| - 1] == NatToString(n / 10);
      ParseNatToString(n / 10);
    }
  }

  /** The `AmountContained` label: "n / max" below capacity, else "Full!". */
  function AmountText(count: nat, max: int): string
  {
    if count < max then NatToString(count) + " / " + NatToString(max) else "Full!"
  }

  /** The label says "Full!" exactly when the station is full, and below
      capacity it reads back as the count and the maximum. */
  lemma AmountTextMeaning(count: nat, max: int)
    ensures AmountText(count, max) == "Full!" <==> count >= max
    ensures count < max ==>
      var a, b := NatToString(count), NatToString(max as nat);
      AmountText(count, max) == a + " / " + b && ParseNat(a) == count && ParseNat(b) == max
  {
    if count < max {
      var a := NatToString(count);
      assert AmountText(count, max)[0] == a[0];
      ParseNatToString(count);
      ParseNatToString(max);
    }
  }

  // --------------------------------------------------------- pure rules

  function Clamp01(x: real): (r: real)
    ensures 0.0 <= r <= 1.0
    ensures 0.0 <= x <= 1.0 ==> r == x
  {
    if x < 0.0 then 0.0 else if x > 1.0 then 1.0 else x
  }

  /** The `(int)` cast of the runtime: truncation toward zero. */
  function TruncateToInt(x: real): (r: int)
    ensures x >= 0.0 ==> 0.0 <= r as real <= x < r as real + 1.0
    ensures x < 0.0 ==> r as real - 1.0 < x <= r as real <= 0.0
  {
    if x >= 0.0 then x.Floor else -((-x).Floor)
  }

  function Capacity(config: StationConfig): nat {
    if config.maxAmountOfContainedObjects < 0 then 0 else config.maxAmountOfContainedObjects
  }

  predicate Matches(c: ChoreMultiplier, obj: ChoreObject) {
    obj.choreType == c.choreType && obj.clean != c.isDirty
  }

  /** Entry `k` is the first entry of the table that applies to `obj`. */
  predicate FirstMatchAt(mults: seq<ChoreMultiplier>, obj: ChoreObject, k: int) {
    0 <= k < |mults| && Matches(mults[k], obj) && forall j :: 0 <= j < k ==> !Matches(mults[j], obj)
  }

  /** The multiplier of the first matching table entry, 1 by default. */
  function MultiplierFor(mults: seq<ChoreMultiplier>, obj: ChoreObject): real
  {
    if mults == [] then 1.0
    else if Matches(mults[0], obj) then mults[0].multi
    else MultiplierFor(mults[1..], obj)
  }

  lemma {:induction false} MultiplierIsFirstMatch(mults: seq<ChoreMultiplier>, obj: ChoreObject)
    ensures (forall i :: 0 <= i < |mults| ==> !Matches(mults[i], obj)) ==> MultiplierFor(mults, obj) == 1.0
    ensures forall k :: FirstMatchAt(mults, obj, k) ==> MultiplierFor(mults, obj) == mults[k].multi
  {
    if mults != [] {
      MultiplierIsFirstMatch(mults[1..], obj);
      if !Matches(mults[0], obj) {
        forall k | FirstMatchAt(mults, obj, k)
          ensures MultiplierFor(mults, obj) == mults[k].multi
        {
          assert k > 0 && mults[1..][k - 1] == mults[k];
          forall j | 0 <= j < k - 1 ensures !Matches(mults[1..][j], obj) {
            assert mults[1..][j] == mults[j + 1];
          }
          assert FirstMatchAt(mults[1..], obj, k - 1);
        }
        if forall i :: 0 <= i < |mults| ==> !Matches(mults[i], obj) {
          forall i | 0 <= i < |mults[1..]| ensures !Matches(mults[1..][i], obj) {
            assert mults[1..][i] == mults[i + 1];
          }
        }
      }
    }
  }

  /** Points for an object: value times multiplier times amount times the
      extra multiplier, truncated. */
  function Points(obj: ChoreObject, multiplier: real, extraMultiplier: real): int {
    TruncateToInt(obj.scoreValue as real * multiplier * obj.amount as real * extraMultiplier)
  }

  /** What `AddScore(choreObject, extraPass, extraMultiplier)` reports. */
  function ScoreFor(config: StationConfig, obj: ChoreObject, extraPass: bool, extraMultiplier: real): Option<ScoreEvent>
  {
    if !config.shouldAddScore && !extraPass then None
    else Some(ScoreEvent(obj.choreType, Points(obj, MultiplierFor(config.choreMultipliers, obj), extraMultiplier)))
  }

  predicate AllOfType(types: seq<ChoreType>, t: ChoreType) {
    forall i :: 0 <= i < |types| ==> types[i] == t
  }

  /** One stack is spawned when every contained type is the station's own
      and the count is the placeholder stack's amount. */
  predicate ShouldStack(config: StationConfig, types: seq<ChoreType>) {
    AllOfType(types, config.choreType) && config.stackAmount == |types|
  }

  /** The prefab looked up in `refs`, falling back to the dirty references. */
  function Resolve(config: StationConfig, refs: seq<ChoreObject>, t: ChoreType): Option<ChoreObject>
  {
    var p := PrefabReferences.Lookup(refs, t);
    if p.Some? then p else PrefabReferences.Lookup(config.dirtyPrefabs, t)
  }

  /** The prefabs instantiated by `SpawnCleanObjects`, in order; a None entry
      is an instantiation of a missing prefab. */
  function Spawned(config: StationConfig, types: seq<ChoreType>): seq<Option<ChoreObject>>
  {
    if ShouldStack(config, types) then
      (if types == [] then [] else [Resolve(config, config.stackPrefabs, config.choreType)])
    else
      seq(|types|, i requires 0 <= i < |types| => Resolve(config, config.choreObjectPrefabs, types[i]))
  }

  /** At most one object comes out of a stack spawn; otherwise one per
      contained type, in order, and every spawned prefab has the type asked
      for. */
  lemma SpawnedShape(config: StationConfig, types: seq<ChoreType>)
    ensures ShouldStack(config, types) ==> |Spawned(config, types)| <= 1
    ensures !ShouldStack(config, types) ==> |Spawned(config, types)| == |types|
    ensures forall i :: 0 <= i < |Spawned(config, types)| && Spawned(config, types)[i].Some? ==>
      Spawned(config, types)[i].value.choreType ==
        (if ShouldStack(config, types) then config.choreType else types[i])
  {
    var sp := Spawned(config, types);
    forall i | 0 <= i < |sp| && sp[i].Some?
      ensures sp[i].value.choreType == (if ShouldStack(config, types) then config.choreType else types[i])
    {
      var refs := if ShouldStack(config, types) then config.stackPrefabs else config.choreObjectPrefabs;
      var t := if ShouldStack(config, types) then config.choreType else types[i];
      assert sp[i] == Resolve(config, refs, t);
      ResolveHasType(config, refs, t);
    }
  }

  lemma ResolveHasType(config: StationConfig, refs: seq<ChoreObject>, t: ChoreType)
    ensures Resolve(config, refs, t).Some? ==> Resolve(config, refs, t).value.choreType == t
  {
    PrefabReferences.LookupIsFirstMatch(refs, t);
    PrefabReferences.LookupIsFirstMatch(config.dirtyPrefabs, t);
  }

  // ------------------------------------------------------------ station

  class ChoreStation {
    const config: StationConfig
    var canInteract: bool
    var containedChoreTypes: seq<ChoreType>
    var taskProgress: real
    var progressOngoing: bool

    /** The count never exceeds the capacity and progress stays in [0, 1]. */
    ghost predicate Valid()
      reads this
    {
      |containedChoreTypes| <= Capacity(config) && 0.0 <= taskProgress <= 1.0
    }

    constructor (config: StationConfig, canInteract: bool)
      ensures Valid()
      ensures this.config == config && this.canInteract == canInteract
      ensures containedChoreTypes == [] && taskProgress == 0.0 && !progressOngoing
    {
      this.config := config;
      this.canInteract := canInteract;
      containedChoreTypes := [];
      taskProgress := 0.0;
      progressOngoing := false;
    }

    function CurrentContainedCount(): nat
      reads this
    {
      |containedChoreTypes|
    }

    predicate IsFull()
      reads this
    {
      |containedChoreTypes| >= config.maxAmountOfContainedObjects
    }

    predicate EnoughForInteraction()
      reads this
    {
      canInteract && (!progressOngoing || config.canInteractWhileProgressing)
      && |containedChoreTypes| >= config.amountRequiredForInteract
    }

    function AmountContained(): string
      reads this
    {
      AmountText(|containedChoreTypes|, config.maxAmountOfContainedObjects)
    }

    predicate CanPutAway(obj: Option<ChoreObject>)
      reads this
    {
      obj.Some? && !IsFull() && (config.takesAny || config.takesClean == obj.value.clean)
      && (taskProgress == 0.0 || config.canAddWhileProgressing)
    }

    /** The first-match multiplier loop of `AddScore`. */
    method Multiplier(obj: ChoreObject) returns (m: real)
      ensures m == MultiplierFor(config.choreMultipliers, obj)
      ensures (forall i :: 0 <= i < |config.choreMultipliers| ==> !Matches(config.choreMultipliers[i], obj)) ==> m == 1.0
      ensures forall k :: FirstMatchAt(config.choreMultipliers, obj, k) ==> m == config.choreMultipliers[k].multi
    {
      var mults := config.choreMultipliers;
      MultiplierIsFirstMatch(mults, obj);
      m := 1.0;
      var i := 0;
      while i < |mults|
        invariant 0 <= i <= |mults|
        invariant MultiplierFor(mults, obj) == MultiplierFor(mults[i..], obj)
      {
        if Matches(mults[i], obj) {
          m := mults[i].multi;
          return;
        }
        assert mults[i..][1..] == mults[i + 1..];
        i := i + 1;
      }
    }

    /** `AddScore(choreObject, extraPass, extraMultiplier)`, with the delayed
        notification reported at once. */
    method AddScore(obj: ChoreObject, extraPass: bool, extraMultiplier: real) returns (score: Option<ScoreEvent>)
      ensures score == ScoreFor(config, obj, extraPass, extraMultiplier)
      ensures score.None? <==> !config.shouldAddScore && !extraPass
      ensures score.Some? ==> score.value.choreType == obj.choreType
    {
      if !config.shouldAddScore && !extraPass {
        return None;
      }
      var multiplier := Multiplier(obj);
      score := Some(ScoreEvent(obj.choreType, Points(obj, multiplier, extraMultiplier)));
    }

    /** `AddScore(int)`: a fixed score for the station's own chore type. */
    method AddScoreValue(scoreToAdd: int) returns (score: ScoreEvent)
      ensures score.choreType == config.choreType && score.score == scoreToAdd
    {
      score := ScoreEvent(config.choreType, scoreToAdd);
    }

    /** Put a chore object away: accepted exactly when `CanPutAway` holds,
        and then exactly its type is appended and it is scored. */
    method AddChoreObject(obj: Option<ChoreObject>) returns (added: bool, score: Option<ScoreEvent>)
      modifies this
      ensures added == old(CanPutAway(obj))
      ensures containedChoreTypes == if added then old(containedChoreTypes) + [obj.value.choreType]
                                     else old(containedChoreTypes)
      ensures score == if added then ScoreFor(config, obj.value, false, 1.0) else None
      ensures taskProgress == old(taskProgress) && progressOngoing == old(progressOngoing)
      ensures canInteract == old(canInteract)
      ensures !added ==> unchanged(this)
      ensures old(Valid()) ==> Valid()
    {
      if CanPutAway(obj) {
        containedChoreTypes := containedChoreTypes + [obj.value.choreType];
        score := AddScore(obj.value, false, 1.0);
        added := true;
      } else {
        added, score := false, None;
      }
    }

    /** The type test of `ShouldInstantiateStack`. */
    method ShouldInstantiateStack(types: seq<ChoreType>) returns (stack: bool, stackType: ChoreType)
      ensures stack == ShouldStack(config, types)
      ensures stack <==> (forall i :: 0 <= i < |types| ==> types[i] == config.choreType)
                         && config.stackAmount == |types|
      ensures stackType == config.choreType
    {
      stack := true;
      stackType := config.choreType;
      var i := 0;
      while i < |types|
        invariant 0 <= i <= |types|
        invariant forall j :: 0 <= j < i ==> types[j] == stackType
      {
        if types[i] != stackType {
          stack := false;
          break;
        }
        i := i + 1;
      }
      if config.stackAmount != |types| {
        stack := false;
      }
    }

    method SpawnCleanObjects(types: seq<ChoreType>) returns (spawned: seq<Option<ChoreObject>>)
      ensures spawned == Spawned(config, types)
    {
      var stack, stackType := ShouldInstantiateStack(types);
      var refs := if stack then config.stackPrefabs else config.choreObjectPrefabs;
      spawned := [];
      var i := 0;
      while i < |types|
        invariant 0 <= i <= |types|
        invariant |spawned| == i
        invariant stack ==> i == 0
        invariant forall j :: 0 <= j < i ==> spawned[j] == Resolve(config, refs, if stack then stackType else types[j])
      {
        var newType := if stack then stackType else types[i];
        var prefab := PrefabReferences.ChoreTypeToChoreObjectPrefab(refs, newType);
        if prefab.None? {
          prefab := PrefabReferences.ChoreTypeToChoreObjectPrefab(config.dirtyPrefabs, newType);
        }
        spawned := spawned + [prefab];
        if stack {
          break;
        }
        i := i + 1;
      }
    }

    /** Completion: progress is zeroed and stopped; unless the station takes
        no chore objects, its contents are emptied and spawned as clean
        objects. */
    method TaskCompleted() returns (spawned: seq<Option<ChoreObject>>)
      modifies this
      ensures taskProgress == 0.0 && !progressOngoing
      ensures config.takesNoChoreObjects ==> containedChoreTypes == old(containedChoreTypes) && spawned == []
      ensures !config.takesNoChoreObjects ==>
        containedChoreTypes == [] && spawned == Spawned(config, old(containedChoreTypes))
      ensures canInteract == old(canInteract)
      ensures old(Valid()) ==> Valid()
    {
      taskProgress := 0.0;
      progressOngoing := false;
      if config.takesNoChoreObjects {
        return [];
      }
      var types := containedChoreTypes;
      containedChoreTypes := [];
      spawned := SpawnCleanObjects(types);
    }

    /** One progress step of size `step` (the frame time over the time to
        complete), ending in `TaskCompleted` when progress reaches 1. */
    twostate predicate ProgressStep(step: real, completed: bool, new spawned: seq<Option<ChoreObject>>)
      reads this
    {
      var p := Clamp01(old(taskProgress) + step);
      && completed == (p == 1.0)
      && canInteract == old(canInteract)
      && (completed ==>
            && taskProgress == 0.0 && !progressOngoing
            && containedChoreTypes == (if config.takesNoChoreObjects then old(containedChoreTypes) else [])
            && spawned == (if config.takesNoChoreObjects then [] else Spawned(config, old(containedChoreTypes))))
      && (!completed ==>
            taskProgress == p && progressOngoing
            && containedChoreTypes == old(containedChoreTypes) && spawned == [])
    }

    method ProgressInteract(step: real) returns (completed: bool, spawned: seq<Option<ChoreObject>>)
      modifies this
      ensures ProgressStep(step, completed, spawned)
      ensures old(Valid()) ==> Valid()
    {
      if !progressOngoing {
        progressOngoing := true;
      }
      taskProgress := Clamp01(taskProgress + step);
      completed := taskProgress == 1.0;
      spawned := [];
      if completed {
        spawned := TaskCompleted();
      }
    }

    /** Progress happens exactly when `EnoughForInteraction` holds; otherwise
        nothing changes. */
    method TryProgressInteract(step: real) returns (ok: bool, completed: bool, spawned: seq<Option<ChoreObject>>)
      modifies this
      ensures ok == old(EnoughForInteraction())
      ensures ok ==> ProgressStep(step, completed, spawned)
      ensures !ok ==> unchanged(this) && !completed && spawned == []
      ensures old(Valid()) ==> Valid()
    {
      if canInteract && (!progressOngoing || config.canInteractWhileProgressing)
        && |containedChoreTypes| >= config.amountRequiredForInteract
      {
        completed, spawned := ProgressInteract(step);
        return true, completed, spawned;
      }
      return false, false, [];
    }

    method ResetTaskProgress()
      modifies this
      ensures taskProgress == 0.0
      ensures containedChoreTypes == old(containedChoreTypes) && progressOngoing == old(progressOngoing)
      ensures canInteract == old(canInteract)
      ensures old(Valid()) ==> Valid()
    {
      taskProgress := 0.0;
    }

    method SetCanInteract(b: bool)
      modifies this
      ensures canInteract == b
      ensures containedChoreTypes == old(containedChoreTypes) && progressOngoing == old(progressOngoing)
      ensures taskProgress == old(taskProgress)
    {
      canInteract := b;
    }

    /** Stops progress when the station allows it; progress itself is kept. */
    method CancelProgress() returns (stopped: bool)
      modifies this
      ensures stopped == config.canCancelProgress
      ensures stopped ==> !progressOngoing
      ensures !stopped ==> progressOngoing == old(progressOngoing)
      ensures taskProgress == old(taskProgress) && containedChoreTypes == old(containedChoreTypes)
      ensures canInteract == old(canInteract)
    {
      stopped := config.canCancelProgress;
      if stopped {
        progressOngoing := false;
      }
    }
  }
}
