/** The score keeper (Assets/Scripts/Player/PlayerScore.cs): every scored
    event adds to the total and to a per-chore-type entry, both kept within
    0 and `int.MaxValue`. The source adds in unchecked 32-bit arithmetic
    before clamping; `AddAsWritten` models that and `OverflowResetsScore`
    shows where it departs from the evident intent, while the score keeper
    itself uses the saturating `Add`. */
module PlayerScores {
  import opened Common
  import opened Chores

  /** The clamped addition as written: the 32-bit sum wraps before it is
      clamped. */
  function AddAsWritten(score: int, toAdd: int): (r: int)
    ensures 0 <= r <= MaxInt32
    ensures InInt32(score + toAdd) ==> r == Clamp(score + toAdd, 0, MaxInt32)
  {
    Clamp(Wrap32(score + toAdd), 0, MaxInt32)
  }

  /** A score at the top of the range drops to zero on a one-point gain. */
  lemma OverflowResetsScore()
    ensures AddAsWritten(MaxInt32, 1) == 0
  {
    assert Wrap32(MaxInt32 + 1) == MinInt32;
  }

  /** The intended addition: the exact sum, clamped into [0, int.MaxValue]. */
  function Add(score: int, toAdd: int): (r: int)
    ensures 0 <= r <= MaxInt32
    ensures toAdd >= 0 && 0 <= score ==> r >= score || r == MaxInt32
    ensures toAdd <= 0 && score <= MaxInt32 ==> r <= score || r == 0
  {
    Clamp(score + toAdd, 0, MaxInt32)
  }

  /** Both additions agree wherever the 32-bit sum does not overflow. */
  lemma AddAgreesWithoutOverflow(score: int, toAdd: int)
    requires InInt32(score + toAdd)
    ensures AddAsWritten(score, toAdd) == Add(score, toAdd)
  {
  }

  /** The rule for a chore type's first event (a negative first score is
      stored as zero) is the same as adding to an implicit zero entry. */
  lemma FirstEntryIsAddToZero(toAdd: int)
    requires InInt32(toAdd)
    ensures (if toAdd < 0 then 0 else toAdd) == Add(0, toAdd)
  {
  }

  /** The score after a series of events, starting from `score`. */
  function Apply(score: int, events: seq<int>): int
    decreases |events|
  {
    if events == [] then score else Apply(Add(score, events[0]), events[1..])
  }

  function Sum(events: seq<int>): int
    decreases |events|
  {
    if events == [] then 0 else events[0] + Sum(events[1..])
  }

  /** Without penalties the score is the plain sum of the gains, capped at
      `int.MaxValue`. */
  lemma {:induction false} ApplyGains(score: int, events: seq<int>)
    requires 0 <= score <= MaxInt32
    requires forall i :: 0 <= i < |events| ==> events[i] >= 0
    ensures Apply(score, events) == if score + Sum(events) > MaxInt32 then MaxInt32 else score + Sum(events)
    decreases |events|
  {
    if events != [] {
      var rest := events[1..];
      assert forall i :: 0 <= i < |rest| ==> rest[i] >= 0 by {
        forall i | 0 <= i < |rest| ensures rest[i] >= 0 {
          assert rest[i] == events[i + 1];
        }
      }
      ApplyGains(Add(score, events[0]), rest);
      SumNonNegative(rest);
    }
  }

  lemma {:induction false} SumNonNegative(events: seq<int>)
    requires forall i :: 0 <= i < |events| ==> events[i] >= 0
    ensures Sum(events) >= 0
    decreases |events|
  {
    if events != [] {
      var rest := events[1..];
      assert forall i :: 0 <= i < |rest| ==> rest[i] == events[i + 1];
      SumNonNegative(rest);
    }
  }

  /** However the events go, the score stays in [0, int.MaxValue]. */
  lemma {:induction false} ApplyInRange(score: int, events: seq<int>)
    requires 0 <= score <= MaxInt32
    ensures 0 <= Apply(score, events) <= MaxInt32
    decreases |events|
  {
    if events != [] {
      ApplyInRange(Add(score, events[0]), events[1..]);
    }
  }

  class PlayerScore {
    var totalScore: int
    var choreScores: map<ChoreType, int>

    ghost predicate Valid()
      reads this
    {
      && 0 <= totalScore <= MaxInt32
      && forall t :: t in choreScores ==> 0 <= choreScores[t] <= MaxInt32
    }

    /** The starting total is the inspector's setting; it is within range
        only when it is not negative. */
    constructor (totalScore: int)
      requires InInt32(totalScore)
      ensures this.totalScore == totalScore && choreScores == map[]
      ensures 0 <= totalScore ==> Valid()
    {
      this.totalScore, choreScores := totalScore, map[];
    }

    function Score(): (s: int)
      reads this
      ensures Valid() ==> 0 <= s <= MaxInt32
    {
      totalScore
    }

    /** The `OnScored` handler: the total and the type's entry both take the
        event, a first entry starts from zero; the two flags report a gain
        and a loss. */
    method OnScored(choreType: ChoreType, toAdd: int) returns (positive: bool, negative: bool)
      requires InInt32(toAdd)
      modifies this
      ensures totalScore == Add(old(totalScore), toAdd)
      ensures choreScores == old(choreScores)[choreType :=
        Add(if choreType in old(choreScores) then old(choreScores[choreType]) else 0, toAdd)]
      ensures positive <==> toAdd > 0
      ensures negative <==> toAdd < 0
      ensures 0 <= totalScore <= MaxInt32
      ensures old(Valid()) ==> Valid()
    {
      if choreType in choreScores {
        choreScores := choreScores[choreType := Add(choreScores[choreType], toAdd)];
      } else {
        var newToAdd := toAdd;
        if toAdd < 0 {
          newToAdd := 0;
        }
        FirstEntryIsAddToZero(toAdd);
        choreScores := choreScores[choreType := newToAdd];
      }
      totalScore := Add(totalScore, toAdd);
      positive, negative := toAdd > 0, false;
      if !positive {
        negative := toAdd < 0;
      }
    }
  }
}
