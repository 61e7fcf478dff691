/** A station's staged visuals (Assets/Scripts/Chore/VisualUpdater.cs):
    every `progressNumberToAdvance` progress calls the visual advances to
    the next of `progressVisuals`, starting from `startVisual`, and stays on
    the last one. The active flags of the visuals are the model's state. */
module VisualUpdaters {

  /** The counter and the index of the current visual (-1 is the start
      visual). */
  datatype Position = Position(progress: int, currentIndex: int)

  /** One `Progress` call on the counters. */
  function Step(p: Position, threshold: int, count: nat): Position {
    var progress := p.progress + 1;
    if progress >= threshold && p.currentIndex + 1 < count then Position(0, p.currentIndex + 1)
    else Position(progress, p.currentIndex)
  }

  function Steps(p: Position, threshold: int, count: nat, n: nat): Position {
    if n == 0 then p else Step(Steps(p, threshold, count, n - 1), threshold, count)
  }

  /** Until the threshold is reached the counter only counts. */
  lemma {:induction false} StepsBeforeAdvance(p: Position, threshold: int, count: nat, n: nat)
    requires p.progress + n < threshold
    ensures Steps(p, threshold, count, n) == Position(p.progress + n, p.currentIndex)
  {
    if n > 0 {
      StepsBeforeAdvance(p, threshold, count, n - 1);
    }
  }

  /** From a fresh counter, exactly `threshold` calls advance one visual,
      as long as there is a next one. */
  lemma AdvanceAfterThreshold(threshold: int, count: nat, index: int)
    requires threshold >= 1 && index + 1 < count
    ensures Steps(Position(0, index), threshold, count, threshold) == Position(0, index + 1)
  {
    StepsBeforeAdvance(Position(0, index), threshold, count, threshold - 1);
  }

  /** On the last visual the index never moves again. */
  lemma {:induction false} LastVisualStays(p: Position, threshold: int, count: nat, n: nat)
    requires p.currentIndex + 1 >= count
    ensures Steps(p, threshold, count, n).currentIndex == p.currentIndex
  {
    if n > 0 {
      LastVisualStays(p, threshold, count, n - 1);
    }
  }

  class VisualUpdater {
    const progressNumberToAdvance: int
    const progressVisuals: array<bool>
    var startVisualActive: bool
    var progress: int
    var currentIndex: int

    ghost predicate Valid()
      reads this
    {
      -1 <= currentIndex < progressVisuals.Length
    }

    /** `Awake`: the start visual is the current one. */
    constructor (progressNumberToAdvance: int, progressVisuals: array<bool>, startVisualActive: bool)
      ensures Valid()
      ensures this.progressNumberToAdvance == progressNumberToAdvance && this.progressVisuals == progressVisuals
      ensures this.startVisualActive == startVisualActive && progress == 0 && currentIndex == -1
    {
      this.progressNumberToAdvance := progressNumberToAdvance;
      this.progressVisuals := progressVisuals;
      this.startVisualActive := startVisualActive;
      progress, currentIndex := 0, -1;
    }

    /** One progress call: on advancing, the current visual is switched off
        and the next one on; no other visual changes. */
    method Progress()
      requires Valid()
      modifies this, progressVisuals
      ensures Valid()
      ensures Position(progress, currentIndex) ==
        Step(old(Position(progress, currentIndex)), progressNumberToAdvance, progressVisuals.Length)
      ensures currentIndex == old(currentIndex) ==>
        startVisualActive == old(startVisualActive) && progressVisuals[..] == old(progressVisuals[..])
      ensures currentIndex != old(currentIndex) ==>
        && progressVisuals[currentIndex]
        && (old(currentIndex) == -1 ==>
              !startVisualActive && progressVisuals[..] == old(progressVisuals[..])[currentIndex := true])
        && (old(currentIndex) >= 0 ==>
              startVisualActive == old(startVisualActive) && progressVisuals[..] == old(progressVisuals[..])[old(currentIndex) := false][currentIndex := true])
    {
      progress := progress + 1;
      if progress >= progressNumberToAdvance && currentIndex + 1 < progressVisuals.Length {
        progress := 0;
        if currentIndex == -1 {
          startVisualActive := false;
        } else {
          progressVisuals[currentIndex] := false;
        }
        currentIndex := currentIndex + 1;
        progressVisuals[currentIndex] := true;
      }
    }
  }
}
