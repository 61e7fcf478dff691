/** Level tasks: the abstract task interface and its three kinds
    (Assets/Scripts/ScriptableObjects/Tasks/Task.cs, ChoreObjectTask.cs,
    ChoreStationTask.cs, MultiTask.cs).

    The interface `IsCompleted` / `CurrentObjectsInLevel` /
    `TotalObjectsInLevel` is modelled on `Task`, a snapshot of one task's
    state: `Completed`, `Current` and `Total` dispatch on its kind the way the
    overriding methods do. The two set-backed tasks are classes that keep the
    running total; `View()` is the snapshot of their current state. */
module Tasks {
  import opened Chores
  import opened RuntimeSets
  import opened ChoreStations

  /** Which of the two task notifications a change raises. */
  datatype TaskSignals = TaskSignals(progressed: bool, completed: bool)

  datatype Task =
    | ObjectTask(objects: seq<ChoreObject>, total: int)
    | StationTask(containedCounts: seq<int>, total: int)
    | Multi(tasks: seq<Task>)

  function SumAmounts(objs: seq<ChoreObject>): int {
    if objs == [] then 0 else SumAmounts(objs[..|objs| - 1]) + objs[|objs| - 1].amount
  }

  function Sum(xs: seq<int>): int {
    if xs == [] then 0 else Sum(xs[..|xs| - 1]) + xs[|xs| - 1]
  }

  predicate NonNegativeAmounts(objs: seq<ChoreObject>) {
    forall i :: 0 <= i < |objs| ==> objs[i].amount >= 0
  }

  predicate Completed(t: Task) {
    match t
    case ObjectTask(objs, _) => |objs| == 0
    case StationTask(counts, _) => |counts| == 0
    case Multi(ts) => forall i :: 0 <= i < |ts| ==> Completed(ts[i])
  }

  /** A multi-task reports its LAST subtask's count, not a sum. */
  function Current(t: Task): int {
    match t
    case ObjectTask(objs, _) => SumAmounts(objs)
    case StationTask(counts, _) => |counts|
    case Multi(ts) => if ts == [] then 0 else Current(ts[|ts| - 1])
  }

  function Total(t: Task): int {
    match t
    case ObjectTask(_, total) => total
    case StationTask(_, total) => total
    case Multi(ts) => if ts == [] then 0 else Total(ts[|ts| - 1])
  }

  function InStations(t: Task): int
    requires t.StationTask?
  {
    Sum(t.containedCounts)
  }

  function SignalsFor(t: Task): TaskSignals {
    TaskSignals(true, Completed(t))
  }

  // ------------------------------------------------------ sum lemmas

  lemma {:induction false} SumAmountsCons(o: ChoreObject, objs: seq<ChoreObject>)
    ensures SumAmounts([o] + objs) == o.amount + SumAmounts(objs)
  {
    if objs != [] {
      var s := [o] + objs;
      assert s[..|s| - 1] == [o] + objs[..|objs| - 1];
      SumAmountsCons(o, objs[..|objs| - 1]);
    }
  }

  /** Removing an object from the set lowers the current count by exactly
      its amount (by nothing when it was not there). */
  lemma {:induction false} SumAmountsRemoveFirst(objs: seq<ChoreObject>, x: ChoreObject)
    ensures SumAmounts(RemoveFirst(objs, x)) == SumAmounts(objs) - (if x in objs then x.amount else 0)
  {
    if objs != [] {
      assert objs == [objs[0]] + objs[1..];
      SumAmountsCons(objs[0], objs[1..]);
      if objs[0] != x {
        SumAmountsRemoveFirst(objs[1..], x);
        SumAmountsCons(objs[0], RemoveFirst(objs[1..], x));
        assert x in objs <==> x in objs[1..];
      }
    }
  }

  lemma {:induction false} SumAmountsNonNegative(objs: seq<ChoreObject>)
    requires NonNegativeAmounts(objs)
    ensures SumAmounts(objs) >= 0
  {
    if objs != [] {
      SumAmountsNonNegative(objs[..|objs| - 1]);
    }
  }

  /** The multi-task quirk: earlier subtasks do not count at all. */
  lemma MultiCountsAreLastSubtasks(ts: seq<Task>, t: Task)
    ensures Current(Multi(ts + [t])) == Current(t)
    ensures Total(Multi(ts + [t])) == Total(t)
    ensures Completed(Multi(ts + [t])) <==> Completed(Multi(ts)) && Completed(t)
  {
    var s := ts + [t];
    assert forall i :: 0 <= i < |ts| ==> s[i] == ts[i];
  }

  /** So a multi-task over two object tasks is not their sum. */
  lemma MultiCurrentIsNotASum()
    ensures var a := ChoreObject(0, Dishes, 3, 10, false, 2);
            var b := ChoreObject(1, Trash, 3, 10, false, 3);
            Current(Multi([ObjectTask([a], 2), ObjectTask([b], 3)])) == 3
  {
    var a := ChoreObject(0, Dishes, 3, 10, false, 2);
    var b := ChoreObject(1, Trash, 3, 10, false, 3);
    assert [b][..0] == [];
    assert SumAmounts([b]) == 3;
    var ts := [ObjectTask([a], 2), ObjectTask([b], 3)];
    assert ts[|ts| - 1] == ObjectTask([b], 3);
  }

  // ----------------------------------------------------- multi-task

  /** `MultiTask.IsCompleted`: stops at the first unfinished subtask. */
  method MultiIsCompleted(tasks: seq<Task>) returns (completed: bool)
    ensures completed == Completed(Multi(tasks))
    ensures tasks == [] ==> completed
  {
    completed := true;
    var i := 0;
    while i < |tasks|
      invariant 0 <= i <= |tasks|
      invariant forall j :: 0 <= j < i ==> Completed(tasks[j])
    {
      if !Completed(tasks[i]) {
        completed := false;
        break;
      }
      i := i + 1;
    }
  }

  /** `MultiTask.CurrentObjectsInLevel`: each subtask overwrites the result. */
  method MultiCurrentObjectsInLevel(tasks: seq<Task>) returns (current: int)
    ensures current == Current(Multi(tasks))
    ensures tasks == [] ==> current == 0
    ensures tasks != [] ==> current == Current(tasks[|tasks| - 1])
  {
    current := 0;
    var i := 0;
    while i < |tasks|
      invariant 0 <= i <= |tasks|
      invariant current == if i == 0 then 0 else Current(tasks[i - 1])
    {
      current := Current(tasks[i]);
      i := i + 1;
    }
  }

  /** `MultiTask.TotalObjectsInLevel`: each subtask overwrites the result. */
  method MultiTotalObjectsInLevel(tasks: seq<Task>) returns (total: int)
    ensures total == Total(Multi(tasks))
    ensures tasks == [] ==> total == 0
    ensures tasks != [] ==> total == Total(tasks[|tasks| - 1])
  {
    total := 0;
    var i := 0;
    while i < |tasks|
      invariant 0 <= i <= |tasks|
      invariant total == if i == 0 then 0 else Total(tasks[i - 1])
    {
      total := Total(tasks[i]);
      i := i + 1;
    }
  }

  /** `MultiTask.TaskChanged`: progressed always, completed when all are. */
  method MultiTaskChanged(tasks: seq<Task>) returns (signals: TaskSignals)
    ensures signals.progressed
    ensures signals.completed <==> forall i :: 0 <= i < |tasks| ==> Completed(tasks[i])
  {
    var completed := MultiIsCompleted(tasks);
    signals := TaskSignals(true, completed);
  }

  // ----------------------------------------------- chore object task

  class ChoreObjectTask {
    const choreObjectSet: RuntimeSet<ChoreObject>
    var totalObjectsInLevel: int

    function View(): Task
      reads this, choreObjectSet
    {
      ObjectTask(choreObjectSet.list, totalObjectsInLevel)
    }

    /** The current count stays within the total as long as amounts are
        non-negative and objects entered through add-notifications since
        the last reset. */
    ghost predicate CountsConsistent()
      reads this, choreObjectSet
    {
      NonNegativeAmounts(choreObjectSet.list) && SumAmounts(choreObjectSet.list) <= totalObjectsInLevel
    }

    constructor (choreObjectSet: RuntimeSet<ChoreObject>)
      ensures this.choreObjectSet == choreObjectSet && totalObjectsInLevel == 0
    {
      this.choreObjectSet := choreObjectSet;
      totalObjectsInLevel := 0;
    }

    /** `CurrentObjectsInLevel`: the amounts of the objects in the set. */
    method CurrentObjectsInLevel() returns (count: int)
      ensures count == Current(View())
      ensures count == SumAmounts(choreObjectSet.list)
    {
      var list := choreObjectSet.list;
      count := 0;
      var i := 0;
      while i < |list|
        invariant 0 <= i <= |list|
        invariant count == SumAmounts(list[..i])
      {
        assert list[..i + 1][..i] == list[..i];
        count := count + list[i].amount;
        i := i + 1;
      }
      assert list[..i] == list;
    }

    /** The total reset of the enable, disable and scene-unloaded handlers. */
    method ResetTotal()
      modifies this
      ensures totalObjectsInLevel == 0
    {
      totalObjectsInLevel := 0;
    }

    method SetChanged() returns (signals: TaskSignals)
      ensures signals.progressed
      ensures signals.completed <==> choreObjectSet.list == []
    {
      signals := TaskSignals(true, |choreObjectSet.list| == 0);
    }

    /** The added-notification handler: the total grows by the amount. */
    method ObjectAdded(o: ChoreObject) returns (signals: TaskSignals)
      modifies this
      ensures totalObjectsInLevel == old(totalObjectsInLevel) + o.amount
      ensures signals == SignalsFor(View())
    {
      totalObjectsInLevel := totalObjectsInLevel + o.amount;
      signals := SetChanged();
    }
  }

  /** An object enabling itself: it joins the set and, when the set raises
      its added-notification, the task counts it. */
  method ObjectEnabled(task: ChoreObjectTask, o: ChoreObject) returns (signals: TaskSignals)
    modifies task, task.choreObjectSet
    ensures task.choreObjectSet.list ==
      if o in old(task.choreObjectSet.list) then old(task.choreObjectSet.list) else old(task.choreObjectSet.list) + [o]
    ensures task.totalObjectsInLevel ==
      old(task.totalObjectsInLevel) + (if o in old(task.choreObjectSet.list) then 0 else o.amount)
    ensures o !in old(task.choreObjectSet.list) ==> signals == SignalsFor(task.View())
    ensures o in old(task.choreObjectSet.list) ==> signals == TaskSignals(false, false)
    ensures o.amount >= 0 && old(task.CountsConsistent()) ==> task.CountsConsistent()
  {
    var added := task.choreObjectSet.AddObject(o);
    signals := TaskSignals(false, false);
    if added {
      signals := task.ObjectAdded(o);
      var list := task.choreObjectSet.list;
      assert list[..|list| - 1] == old(task.choreObjectSet.list);
    }
  }

  /** An object being destroyed: it leaves the set, whose removed-notification
      always reaches the task. */
  method ObjectDestroyed(task: ChoreObjectTask, o: ChoreObject) returns (signals: TaskSignals)
    modifies task.choreObjectSet
    ensures task.choreObjectSet.list == RemoveFirst(old(task.choreObjectSet.list), o)
    ensures task.totalObjectsInLevel == old(task.totalObjectsInLevel)
    ensures signals == SignalsFor(task.View())
    ensures old(task.CountsConsistent()) ==> task.CountsConsistent()
  {
    ghost var before := task.choreObjectSet.list;
    task.choreObjectSet.RemoveObject(o);
    signals := task.SetChanged();
    SumAmountsRemoveFirst(before, o);
    if NonNegativeAmounts(before) {
      var after := task.choreObjectSet.list;
      forall i | 0 <= i < |after| ensures after[i].amount >= 0 {
        assert after[i] in before;
      }
      if o in before {
        assert o.amount >= 0;
      }
    }
  }

  // ---------------------------------------------- chore station task

  function ContainedCounts(stations: seq<ChoreStation>): (r: seq<int>)
    reads stations
    ensures |r| == |stations|
    ensures forall i :: 0 <= i < |stations| ==> r[i] == |stations[i].containedChoreTypes|
  {
    seq(|stations|, i requires 0 <= i < |stations| reads stations => |stations[i].containedChoreTypes|)
  }

  class ChoreStationTask {
    const choreStationSet: RuntimeSet<ChoreStation>
    var totalObjectsInLevel: int

    function View(): Task
      reads this, choreStationSet, choreStationSet.list
    {
      StationTask(ContainedCounts(choreStationSet.list), totalObjectsInLevel)
    }

    ghost predicate CountsConsistent()
      reads this, choreStationSet
    {
      |choreStationSet.list| <= totalObjectsInLevel
    }

    constructor (choreStationSet: RuntimeSet<ChoreStation>)
      ensures this.choreStationSet == choreStationSet && totalObjectsInLevel == 0
    {
      this.choreStationSet := choreStationSet;
      totalObjectsInLevel := 0;
    }

    /** `GetObjectsInStationCount`: the contents of all registered stations. */
    method GetObjectsInStationCount() returns (count: int)
      ensures count == InStations(View())
      ensures count >= 0
    {
      var list := choreStationSet.list;
      count := 0;
      var i := 0;
      while i < |list|
        invariant 0 <= i <= |list|
        invariant count == Sum(ContainedCounts(list[..i]))
        invariant count >= 0
      {
        assert ContainedCounts(list[..i + 1])[..i] == ContainedCounts(list[..i]);
        count := count + list[i].CurrentContainedCount();
        i := i + 1;
      }
      assert list[..i] == list;
    }

    method ResetTotal()
      modifies this
      ensures totalObjectsInLevel == 0
    {
      totalObjectsInLevel := 0;
    }

    method SetChanged() returns (signals: TaskSignals)
      ensures signals.progressed
      ensures signals.completed <==> choreStationSet.list == []
    {
      signals := TaskSignals(true, |choreStationSet.list| == 0);
    }

    /** The added-notification handler: one more station in the level. */
    method StationAdded(station: ChoreStation) returns (signals: TaskSignals)
      modifies this
      ensures totalObjectsInLevel == old(totalObjectsInLevel) + 1
      ensures signals == SignalsFor(View())
    {
      totalObjectsInLevel := totalObjectsInLevel + 1;
      signals := SetChanged();
    }
  }

  /** A station registering: it joins the set and the task counts it once. */
  method StationRegistered(task: ChoreStationTask, s: ChoreStation) returns (signals: TaskSignals)
    modifies task, task.choreStationSet
    ensures task.choreStationSet.list ==
      if s in old(task.choreStationSet.list) then old(task.choreStationSet.list) else old(task.choreStationSet.list) + [s]
    ensures task.totalObjectsInLevel == old(task.totalObjectsInLevel) + (if s in old(task.choreStationSet.list) then 0 else 1)
    ensures s !in old(task.choreStationSet.list) ==> signals == SignalsFor(task.View())
    ensures s in old(task.choreStationSet.list) ==> signals == TaskSignals(false, false)
    ensures old(task.CountsConsistent()) ==> task.CountsConsistent()
  {
    var added := task.choreStationSet.AddObject(s);
    signals := TaskSignals(false, false);
    if added {
      signals := task.StationAdded(s);
    }
  }

  /** A station leaving the set; the total is not decremented. */
  method StationUnregistered(task: ChoreStationTask, s: ChoreStation) returns (signals: TaskSignals)
    modifies task.choreStationSet
    ensures task.choreStationSet.list == RemoveFirst(old(task.choreStationSet.list), s)
    ensures task.totalObjectsInLevel == old(task.totalObjectsInLevel)
    ensures signals == SignalsFor(task.View())
    ensures old(task.CountsConsistent()) ==> task.CountsConsistent()
  {
    task.choreStationSet.RemoveObject(s);
    signals := task.SetChanged();
  }
}
