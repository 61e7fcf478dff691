/** The completion percentage (Assets/Scripts/UI/ScoreText.cs). Dirty
    tasks count the dirty objects still in the level, clean tasks the clean
    objects, station tasks the objects already put away; the percentage is
    the share of the level's dirty objects that are dealt with, clamped to
    0-100. The task lists are given as snapshots of the referenced tasks.

    Division by a zero total follows `float` rules: a positive numerator
    gives +infinity (clamped to 100), a negative one -infinity (clamped to
    0) and zero over zero NaN, which `Mathf.Clamp` lets through. */
module ScoreTexts {
  import opened Tasks

  datatype Percentage = Finite(value: real) | NotANumber

  function TotalsOf(tasks: seq<Task>): int {
    if tasks == [] then 0 else TotalsOf(tasks[..|tasks| - 1]) + Total(tasks[|tasks| - 1])
  }

  function CurrentsOf(tasks: seq<Task>): int {
    if tasks == [] then 0 else CurrentsOf(tasks[..|tasks| - 1]) + Current(tasks[|tasks| - 1])
  }

  predicate AllStationTasks(tasks: seq<Task>) {
    forall i :: 0 <= i < |tasks| ==> tasks[i].StationTask?
  }

  function InStationsOf(tasks: seq<Task>): int
    requires AllStationTasks(tasks)
  {
    if tasks == [] then 0 else InStationsOf(tasks[..|tasks| - 1]) + InStations(tasks[|tasks| - 1])
  }

  function ClampPercent(x: real): (r: real)
    ensures 0.0 <= r <= 100.0
  {
    if x < 0.0 then 0.0 else if x > 100.0 then 100.0 else x
  }

  /** The percentage from the share of handled objects `cleaned + missing`
      out of `total`. */
  function PercentageOf(total: int, cleaned: int, missing: int): Percentage {
    if cleaned == 0 && missing == 0 then Finite(0.0)
    else if total != 0 then Finite(ClampPercent((cleaned + missing) as real / total as real * 100.0))
    else if cleaned + missing > 0 then Finite(100.0)
    else if cleaned + missing < 0 then Finite(0.0)
    else NotANumber
  }

  /** `CalculatePercentage` from the four counters and the station count. */
  function PercentageFromCounts(totalDirty: int, currentDirty: int, totalClean: int, currentClean: int,
                                inStations: int): Percentage
  {
    PercentageOf(totalDirty, totalClean - currentClean, totalDirty - currentDirty - totalClean - inStations)
  }

  /** A number is always between 0 and 100, and NaN arises only from a zero
      total with cleaned and missing cancelling out without both being zero. */
  lemma PercentageRange(total: int, cleaned: int, missing: int)
    ensures PercentageOf(total, cleaned, missing).Finite? ==> 0.0 <= PercentageOf(total, cleaned, missing).value <= 100.0
    ensures PercentageOf(total, cleaned, missing).NotANumber? <==>
      total == 0 && cleaned + missing == 0 && !(cleaned == 0 && missing == 0)
  {
  }

  /** With a positive total, handling at least every object gives 100 and
      handling none (or fewer) gives 0. */
  lemma PercentageEnds(total: int, cleaned: int, missing: int)
    requires total > 0
    ensures cleaned + missing >= total ==> PercentageOf(total, cleaned, missing) == Finite(100.0)
    ensures cleaned + missing <= 0 ==> PercentageOf(total, cleaned, missing) == Finite(0.0)
  {
    var n := cleaned + missing;
    if n >= total && !(cleaned == 0 && missing == 0) {
      assert n as real / total as real >= 1.0;
    }
    if n <= 0 && !(cleaned == 0 && missing == 0) {
      assert n as real / total as real <= 0.0;
    }
  }

  /** With a positive total, handling more objects never lowers the
      percentage. */
  lemma PercentageMonotone(total: int, c1: int, m1: int, c2: int, m2: int)
    requires total > 0
    requires c1 + m1 <= c2 + m2
    ensures PercentageOf(total, c1, m1).value <= PercentageOf(total, c2, m2).value
  {
    var t := total as real;
    var a, b := (c1 + m1) as real, (c2 + m2) as real;
    assert a / t <= b / t;
    assert a / t * 100.0 <= b / t * 100.0;
    if c2 == 0 && m2 == 0 {
      assert a <= 0.0;
      assert a / t * 100.0 <= 0.0;
    }
  }

  class ScoreText {
    var totalDirtyObjectsInLevel: int
    var currentDirtyObjectsInLevel: int
    var totalCleanObjectsInLevel: int
    var currentCleanObjectsInLevel: int

    constructor ()
      ensures totalDirtyObjectsInLevel == 0 && currentDirtyObjectsInLevel == 0
      ensures totalCleanObjectsInLevel == 0 && currentCleanObjectsInLevel == 0
    {
      totalDirtyObjectsInLevel, currentDirtyObjectsInLevel := 0, 0;
      totalCleanObjectsInLevel, currentCleanObjectsInLevel := 0, 0;
    }

    /** Recount the dirty objects from the dirty tasks. */
    method CalculateDirtyObjects(dirtyTasks: seq<Task>)
      modifies this
      ensures totalDirtyObjectsInLevel == TotalsOf(dirtyTasks)
      ensures currentDirtyObjectsInLevel == CurrentsOf(dirtyTasks)
      ensures totalCleanObjectsInLevel == old(totalCleanObjectsInLevel)
      ensures currentCleanObjectsInLevel == old(currentCleanObjectsInLevel)
    {
      totalDirtyObjectsInLevel, currentDirtyObjectsInLevel := 0, 0;
      var i := 0;
      while i < |dirtyTasks|
        invariant 0 <= i <= |dirtyTasks|
        invariant totalDirtyObjectsInLevel == TotalsOf(dirtyTasks[..i])
        invariant currentDirtyObjectsInLevel == CurrentsOf(dirtyTasks[..i])
        invariant totalCleanObjectsInLevel == old(totalCleanObjectsInLevel)
        invariant currentCleanObjectsInLevel == old(currentCleanObjectsInLevel)
      {
        assert dirtyTasks[..i + 1][..i] == dirtyTasks[..i];
        totalDirtyObjectsInLevel := totalDirtyObjectsInLevel + Total(dirtyTasks[i]);
        currentDirtyObjectsInLevel := currentDirtyObjectsInLevel + Current(dirtyTasks[i]);
        i := i + 1;
      }
      assert dirtyTasks[..i] == dirtyTasks;
    }

    /** Recount the clean objects from the clean tasks. */
    method CalculateCleanObjects(cleanTasks: seq<Task>)
      modifies this
      ensures totalCleanObjectsInLevel == TotalsOf(cleanTasks)
      ensures currentCleanObjectsInLevel == CurrentsOf(cleanTasks)
      ensures totalDirtyObjectsInLevel == old(totalDirtyObjectsInLevel)
      ensures currentDirtyObjectsInLevel == old(currentDirtyObjectsInLevel)
    {
      totalCleanObjectsInLevel, currentCleanObjectsInLevel := 0, 0;
      var i := 0;
      while i < |cleanTasks|
        invariant 0 <= i <= |cleanTasks|
        invariant totalCleanObjectsInLevel == TotalsOf(cleanTasks[..i])
        invariant currentCleanObjectsInLevel == CurrentsOf(cleanTasks[..i])
        invariant totalDirtyObjectsInLevel == old(totalDirtyObjectsInLevel)
        invariant currentDirtyObjectsInLevel == old(currentDirtyObjectsInLevel)
      {
        assert cleanTasks[..i + 1][..i] == cleanTasks[..i];
        totalCleanObjectsInLevel := totalCleanObjectsInLevel + Total(cleanTasks[i]);
        currentCleanObjectsInLevel := currentCleanObjectsInLevel + Current(cleanTasks[i]);
        i := i + 1;
      }
      assert cleanTasks[..i] == cleanTasks;
    }

    /** `CalculatePercentage` over the current counters. */
    method CalculatePercentage(stationTasks: seq<Task>) returns (percentage: Percentage)
      requires AllStationTasks(stationTasks)
      ensures percentage == PercentageFromCounts(totalDirtyObjectsInLevel, currentDirtyObjectsInLevel,
        totalCleanObjectsInLevel, currentCleanObjectsInLevel, InStationsOf(stationTasks))
    {
      var total := totalDirtyObjectsInLevel;
      var cleaned := totalCleanObjectsInLevel - currentCleanObjectsInLevel;
      var missing := totalDirtyObjectsInLevel - currentDirtyObjectsInLevel - totalCleanObjectsInLevel;
      var objectsInStationsCount := 0;
      var i := 0;
      while i < |stationTasks|
        invariant 0 <= i <= |stationTasks|
        invariant objectsInStationsCount == InStationsOf(stationTasks[..i])
      {
        assert stationTasks[..i + 1][..i] == stationTasks[..i];
        objectsInStationsCount := objectsInStationsCount + InStations(stationTasks[i]);
        i := i + 1;
      }
      assert stationTasks[..i] == stationTasks;
      missing := missing - objectsInStationsCount;
      percentage := PercentageOf(total, cleaned, missing);
    }

    /** Recount both kinds, then compute the percentage. */
    method GetPercentage(dirtyTasks: seq<Task>, cleanTasks: seq<Task>, stationTasks: seq<Task>)
      returns (percentage: Percentage)
      requires AllStationTasks(stationTasks)
      modifies this
      ensures percentage == PercentageFromCounts(TotalsOf(dirtyTasks), CurrentsOf(dirtyTasks),
        TotalsOf(cleanTasks), CurrentsOf(cleanTasks), InStationsOf(stationTasks))
      ensures percentage.Finite? ==> 0.0 <= percentage.value <= 100.0
    {
      CalculateDirtyObjects(dirtyTasks);
      CalculateCleanObjects(cleanTasks);
      percentage := CalculatePercentage(stationTasks);
      PercentageRange(TotalsOf(dirtyTasks), TotalsOf(cleanTasks) - CurrentsOf(cleanTasks),
        TotalsOf(dirtyTasks) - CurrentsOf(dirtyTasks) - TotalsOf(cleanTasks) - InStationsOf(stationTasks));
    }
  }
}
