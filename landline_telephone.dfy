/** The phone chore (Assets/Scripts/Chore/LandlineTelephone.cs): a
    three-state machine driven by the fixed-update tick. It rings once
    `timeBetweenCalls` has passed since the last call ended, fails with
    `scoreOnFail` when not answered within `timeToAnswer`, and ends a
    conversation either by success or by hanging up. The game clock
    `Time.time` is the parameter `now`, never decreasing between calls. */
module LandlineTelephones {
  import opened Common
  import opened Chores
  import opened ChoreStations

  datatype PhoneState = Waiting | Ringing | Talking

  class LandlineTelephone {
    const station: ChoreStation
    const timeBetweenCalls: real
    const timeToAnswer: real
    const scoreOnSuccess: int
    const scoreOnFail: int
    var lastCallTime: real
    var timeStartedCalling: real
    var phoneState: PhoneState
    /** The latest clock value this phone has seen. */
    ghost var clock: real

    /** A ringing phone started ringing only once a full pause had passed
        since the last call ended, and recorded times never lie in the future. */
    ghost predicate Valid()
      reads this
    {
      && lastCallTime <= clock
      && (phoneState == Ringing ==> lastCallTime + timeBetweenCalls <= timeStartedCalling <= clock)
    }

    /** `Start`, with the inspector's settings as parameters (the component
        defaults to no score on success and -30 on a failure): the phone
        waits, and the first call is due `timeBetweenCalls` after `now`. */
    constructor (station: ChoreStation, timeBetweenCalls: real, timeToAnswer: real,
                 scoreOnSuccess: int, scoreOnFail: int, now: real)
      ensures Valid()
      ensures this.station == station && this.timeBetweenCalls == timeBetweenCalls && this.timeToAnswer == timeToAnswer
      ensures this.scoreOnSuccess == scoreOnSuccess && this.scoreOnFail == scoreOnFail
      ensures phoneState == Waiting && lastCallTime == now
    {
      this.station := station;
      this.timeBetweenCalls := timeBetweenCalls;
      this.timeToAnswer := timeToAnswer;
      this.scoreOnSuccess, this.scoreOnFail := scoreOnSuccess, scoreOnFail;
      phoneState := Waiting;
      lastCallTime, timeStartedCalling := now, now;
      clock := now;
    }

    /** One fixed-update tick. Waiting: the station becomes interactable
        exactly when the call is due, and the phone starts ringing then.
        Ringing: past the answer time the call fails, costing `scoreOnFail`.
        Talking: nothing happens. */
    method FixedUpdate(now: real) returns (score: Option<ScoreEvent>)
      requires Valid() && clock <= now
      modifies this, station
      ensures Valid() && clock == now
      ensures old(phoneState) == Waiting ==>
        && score.None?
        && station.canInteract == (now >= old(lastCallTime) + timeBetweenCalls)
        && phoneState == (if station.canInteract then Ringing else Waiting)
        && timeStartedCalling == (if station.canInteract then now else old(timeStartedCalling))
        && lastCallTime == old(lastCallTime)
      ensures old(phoneState) == Ringing ==>
        && station.canInteract == old(station.canInteract)
        && timeStartedCalling == old(timeStartedCalling)
        && (now > old(timeStartedCalling) + timeToAnswer ==>
              phoneState == Waiting && lastCallTime == now
              && score == Some(ScoreEvent(station.config.choreType, scoreOnFail)))
        && (now <= old(timeStartedCalling) + timeToAnswer ==>
              phoneState == Ringing && lastCallTime == old(lastCallTime) && score.None?)
      ensures old(phoneState) == Talking ==>
        score.None? && phoneState == Talking && lastCallTime == old(lastCallTime)
        && timeStartedCalling == old(timeStartedCalling)
        && station.canInteract == old(station.canInteract)
      ensures station.containedChoreTypes == old(station.containedChoreTypes)
      ensures station.taskProgress == old(station.taskProgress)
      ensures station.progressOngoing == old(station.progressOngoing)
    {
      clock := now;
      score := None;
      match phoneState {
        case Waiting =>
          var isCalling := now >= lastCallTime + timeBetweenCalls;
          if isCalling {
            phoneState := Ringing;
            timeStartedCalling := now;
          }
          station.SetCanInteract(isCalling);
        case Ringing =>
          var failedToAnswer := now > timeStartedCalling + timeToAnswer;
          if failedToAnswer {
            var s := station.AddScoreValue(scoreOnFail);
            score := Some(s);
            lastCallTime := now;
            phoneState := Waiting;
          }
        case Talking =>
      }
    }

    /** Answering the phone, from any state. */
    method PickUp()
      requires Valid()
      modifies this
      ensures phoneState == Talking && Valid()
      ensures lastCallTime == old(lastCallTime) && timeStartedCalling == old(timeStartedCalling) && clock == old(clock)
    {
      phoneState := Talking;
    }

    /** A finished conversation: the phone waits again, the success score
        is reported and the station stops being interactable. */
    method Success(now: real) returns (score: ScoreEvent)
      requires Valid() && clock <= now
      modifies this, station
      ensures Valid() && clock == now
      ensures phoneState == Waiting && lastCallTime == now
      ensures score == ScoreEvent(station.config.choreType, scoreOnSuccess)
      ensures !station.canInteract
      ensures station.containedChoreTypes == old(station.containedChoreTypes)
      ensures station.taskProgress == old(station.taskProgress)
      ensures station.progressOngoing == old(station.progressOngoing)
    {
      clock := now;
      phoneState := Waiting;
      score := station.AddScoreValue(scoreOnSuccess);
      lastCallTime := now;
      station.SetCanInteract(false);
    }

    /** Walking away mid-call: only while talking, the station's task is
        completed, the failure score reported and the phone waits again;
        otherwise nothing changes. */
    method HangUp(now: real) returns (score: Option<ScoreEvent>, spawned: seq<Option<ChoreObject>>)
      requires Valid() && clock <= now
      requires station.Valid()
      modifies this, station
      ensures Valid() && station.Valid()
      ensures old(phoneState) != Talking ==> unchanged(this, station) && score.None? && spawned == []
      ensures old(phoneState) == Talking ==>
        && phoneState == Waiting && lastCallTime == now && clock == now
        && score == Some(ScoreEvent(station.config.choreType, scoreOnFail))
        && !station.canInteract
        && station.taskProgress == 0.0 && !station.progressOngoing
        && (!station.config.takesNoChoreObjects ==>
              station.containedChoreTypes == [] && spawned == Spawned(station.config, old(station.containedChoreTypes)))
        && (station.config.takesNoChoreObjects ==>
              station.containedChoreTypes == old(station.containedChoreTypes) && spawned == [])
    {
      if phoneState != Talking {
        return None, [];
      }
      clock := now;
      phoneState := Waiting;
      spawned := station.TaskCompleted();
      var s := station.AddScoreValue(scoreOnFail);
      score := Some(s);
      lastCallTime := now;
      station.SetCanInteract(false);
    }
  }
}
