/** The end-of-game grade (Assets/Scripts/Menus/EndMenu.cs): among the
    configured score thresholds, the highest one the final score reaches
    gives the grade; equal thresholds keep the first, and with no reached
    threshold the default (score 0, grade '\0') is returned. */
module EndMenus {
  import opened Common

  /** A grade row; its end-screen object is not part of the model. */
  datatype ScoreToGrade = ScoreToGrade(score: int, grade: char)

  const DefaultGrade := ScoreToGrade(0, '\0')

  /** A row can be chosen when the player's score reaches it; the search
      starts above `int.MinValue`, so a threshold of exactly that value is
      never chosen. */
  predicate Qualifies(state: ScoreToGrade, playerScore: int) {
    MinInt32 < state.score <= playerScore
  }

  /** Index of the row the search ends on, scanning left to right. */
  function Selected(states: seq<ScoreToGrade>, playerScore: int): (r: Option<nat>)
    ensures r.Some? ==> r.value < |states|
  {
    if states == [] then None
    else
      var prev := Selected(states[..|states| - 1], playerScore);
      var last := |states| - 1;
      if Qualifies(states[last], playerScore) && (prev.None? || states[last].score > states[prev.value].score)
      then Some(last)
      else prev
  }

  function Grade(states: seq<ScoreToGrade>, playerScore: int): ScoreToGrade {
    var k := Selected(states, playerScore);
    if k.Some? then states[k.value] else DefaultGrade
  }

  /** The selected row is the first among the reached rows with the highest
      threshold, and nothing is selected exactly when no row is reached. */
  lemma {:induction false} SelectedIsFirstHighest(states: seq<ScoreToGrade>, playerScore: int)
    ensures Selected(states, playerScore).None? <==>
      forall j :: 0 <= j < |states| ==> !Qualifies(states[j], playerScore)
    ensures Selected(states, playerScore).Some? ==>
      var k := Selected(states, playerScore).value;
      && Qualifies(states[k], playerScore)
      && (forall j :: 0 <= j < |states| && Qualifies(states[j], playerScore) ==> states[j].score <= states[k].score)
      && (forall j :: 0 <= j < k && Qualifies(states[j], playerScore) ==> states[j].score < states[k].score)
    decreases |states|
  {
    if states != [] {
      var init := states[..|states| - 1];
      SelectedIsFirstHighest(init, playerScore);
      assert forall j :: 0 <= j < |init| ==> init[j] == states[j];
    }
  }

  /** A higher final score never earns a lower threshold. */
  lemma GradeMonotone(states: seq<ScoreToGrade>, p: int, q: int)
    requires p <= q
    requires Selected(states, p).Some?
    ensures Selected(states, q).Some?
    ensures states[Selected(states, p).value].score <= states[Selected(states, q).value].score
  {
    SelectedIsFirstHighest(states, p);
    SelectedIsFirstHighest(states, q);
    var k := Selected(states, p).value;
    assert Qualifies(states[k], q);
  }

  /** `CheckScore`. */
  method CheckScore(states: seq<ScoreToGrade>, playerScore: int) returns (grade: ScoreToGrade)
    ensures grade == Grade(states, playerScore)
  {
    var highestGradeScore := MinInt32;
    grade := DefaultGrade;
    ghost var selected: Option<nat> := None;
    var i := 0;
    while i < |states|
      invariant 0 <= i <= |states|
      invariant selected == Selected(states[..i], playerScore)
      invariant selected.None? ==> highestGradeScore == MinInt32 && grade == DefaultGrade
      invariant selected.Some? ==>
        selected.value < i && grade == states[selected.value] && highestGradeScore == grade.score
        && Qualifies(grade, playerScore)
    {
      var state := states[i];
      assert states[..i + 1][..i] == states[..i];
      assert states[..i + 1][i] == state;
      assert Selected(states[..i + 1], playerScore) ==
        if Qualifies(state, playerScore) && (selected.None? || state.score > states[selected.value].score)
        then Some(i) else selected;
      if state.score <= playerScore && state.score > highestGradeScore {
        highestGradeScore := state.score;
        grade := state;
        selected := Some(i);
      }
      i := i + 1;
    }
    assert states[..i] == states;
  }
}
