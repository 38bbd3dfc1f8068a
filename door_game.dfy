/**
 * The door game screen as an object: its fields are the component's state
 * slots, and each handler updates them one setter at a time. Every method is
 * proved to leave the state that the matching function of `DoorGameSpec`
 * gives.
 */
module DoorGameScreen {
  import opened Options
  import opened JsParse
  import opened DoorGameSpec
  import DoorGameProperties

  class DoorGame {
    var currentStep: GameStep
    var reps: string
    var sets: string
    var currentSet: int
    var sessionId: string
    var movementCount: int
    var countdown: int
    var serverIP: string
    var serverPort: string
    /** `movementCount` as the polling interval's callback captured it. */
    var capturedCount: int
    /** The story interval's local `count`. */
    var storyCount: int
    /** Whether the story interval is still scheduled. */
    var countdownRunning: bool

    /** The state as a value. */
    function Snapshot(): GameState
      reads this
    {
      GameState(currentStep, reps, sets, currentSet, sessionId, movementCount, countdown,
                serverIP, serverPort, capturedCount, storyCount, countdownRunning)
    }

    ghost predicate Valid()
      reads this
    {
      Inv(Snapshot())
    }

    /** Mounting the screen; the polling effect runs once with the initial state. */
    constructor ()
      ensures Snapshot() == Initial() && Valid()
    {
      currentStep := Input;
      reps := "";
      sets := "";
      currentSet := 0;
      sessionId := "";
      movementCount := 0;
      countdown := CountdownStart;
      serverIP := DefaultServerIP;
      serverPort := DefaultServerPort;
      storyCount := 0;
      countdownRunning := false;
      capturedCount := 0;
    }

    /**
     * What React does after a handler: if the polling effect's dependencies
     * changed since `before`, the interval is set up again and captures the
     * current `movementCount`.
     */
    method RerunPollingEffect(ghost before: GameState, prevStep: GameStep, prevSessionId: string, prevReps: string)
      requires prevStep == before.step && prevSessionId == before.sessionId && prevReps == before.reps
      modifies this
      ensures Snapshot() == RunPollingEffect(before, old(Snapshot()))
    {
      if currentStep != prevStep || sessionId != prevSessionId || reps != prevReps {
        capturedCount := movementCount;
      }
    }

    /** handleStartGame, given how its reset request ended. */
    method HandleStartGame(reset: ResetOutcome, newSessionId: string)
      requires Valid() && currentStep == Input
      modifies this
      ensures Snapshot() == AfterStartGame(old(Snapshot()), reset, newSessionId)
      ensures Valid()
    {
      ghost var before := Snapshot();
      var step0, id0, reps0 := currentStep, sessionId, reps;
      if reset.Responded? && IsOk(reset.status) {
        sessionId := newSessionId;
        currentSet := 1;
        currentStep := Door;
      } else {
        currentStep := Config;
      }
      RerunPollingEffect(before, step0, id0, reps0);
      DoorGameProperties.StartKeepsInv(before, reset, newSessionId);
    }

    /** One tick of the polling interval, given how its request ended. */
    method PollTick(poll: PollOutcome)
      requires Valid()
      modifies this
      ensures Snapshot() == AfterPoll(old(Snapshot()), poll)
      ensures Valid()
    {
      DoorGameProperties.PollKeepsInv(Snapshot(), poll);
      if currentStep == Door && sessionId != "" {
        ghost var before := Snapshot();
        var step0, id0, reps0 := currentStep, sessionId, reps;
        match poll
        case Counter(id, count) =>
          if id == sessionId {
            movementCount := count;
            if ReachedTarget(count, reps) {
              StartStoryCountdown();
              RerunPollingEffect(before, step0, id0, reps0);
            }
          }
        case PollFailed =>
          if capturedCount == 0 {
            currentStep := Config;
            RerunPollingEffect(before, step0, id0, reps0);
          }
      }
    }

    /** The delayed step change to the story screen, and startStoryCountdown. */
    method StartStoryCountdown()
      modifies this
      ensures Snapshot() == DoorGameSpec.StartStoryCountdown(old(Snapshot()))
    {
      currentStep := Story;
      storyCount := CountdownStart;
      countdownRunning := true;
    }

    /** One tick of the story interval; the last one starts a set or resets. */
    method CountdownTick(reset: ResetOutcome, newSessionId: string)
      requires Valid()
      modifies this
      ensures Snapshot() == AfterCountdownTick(old(Snapshot()), reset, newSessionId)
      ensures Valid()
    {
      ghost var before := Snapshot();
      DoorGameProperties.TickKeepsInv(before, reset, newSessionId);
      if countdownRunning {
        storyCount := storyCount - 1;
        countdown := storyCount;
        ghost var ticked := Snapshot();
        assert ticked == before.(storyCount := before.storyCount - 1, countdown := before.storyCount - 1);
        if storyCount <= 0 {
          FinishStoryCountdown(reset, newSessionId);
          assert Snapshot() == FinishCountdown(ticked.(countdownRunning := false), reset, newSessionId);
        } else {
          assert AfterCountdownTick(before, reset, newSessionId) == ticked;
        }
      }
    }

    /** The last tick: clear the interval, then start a set or reset the game. */
    method FinishStoryCountdown(reset: ResetOutcome, newSessionId: string)
      modifies this
      ensures Snapshot() == FinishCountdown(old(Snapshot()).(countdownRunning := false), reset, newSessionId)
    {
      countdownRunning := false;
      var target := ParseInt(sets);
      if target.Some? && currentSet < target.value {
        StartNewSet(reset, newSessionId);
      } else {
        ResetGame();
      }
    }

    /**
     * The story interval from now until it clears itself: returns the number
     * of ticks, which is the count it had left.
     */
    method RunStoryCountdown(reset: ResetOutcome, newSessionId: string) returns (ticks: nat)
      requires Valid()
      modifies this
      ensures ticks == if old(countdownRunning) then old(storyCount) else 0
      ensures !countdownRunning && Valid()
      ensures Snapshot() == Ticks(old(Snapshot()), ticks, reset, newSessionId)
    {
      ghost var start := Snapshot();
      ticks := 0;
      while countdownRunning
        invariant Valid() && Snapshot() == Ticks(start, ticks, reset, newSessionId)
        invariant countdownRunning ==> start.countdownRunning && storyCount >= 1
        invariant start.countdownRunning ==> ticks + storyCount == start.storyCount
        invariant !start.countdownRunning ==> ticks == 0
        invariant !countdownRunning && start.countdownRunning ==> storyCount == 0
        decreases storyCount
      {
        CountdownTick(reset, newSessionId);
        ticks := ticks + 1;
      }
    }

    /** startNewSet, given how its reset request ended: any status advances. */
    method StartNewSet(reset: ResetOutcome, newSessionId: string)
      modifies this
      ensures Snapshot() == AfterNewSet(old(Snapshot()), reset, newSessionId)
    {
      ghost var before := Snapshot();
      var step0, id0, reps0 := currentStep, sessionId, reps;
      match reset {
        case Responded(_) =>
          sessionId := newSessionId;
          currentSet := currentSet + 1;
          countdown := CountdownStart;
          currentStep := Door;
        case Thrown =>
          currentStep := Config;
      }
      RerunPollingEffect(before, step0, id0, reps0);
    }

    /** resetGame; the server address is kept. */
    method ResetGame()
      modifies this
      ensures Snapshot() == AfterReset(old(Snapshot()))
    {
      ghost var before := Snapshot();
      var step0, id0, reps0 := currentStep, sessionId, reps;
      currentStep := Input;
      currentSet := 0;
      reps := "";
      sets := "";
      countdown := CountdownStart;
      RerunPollingEffect(before, step0, id0, reps0);
    }

    /** saveConfig. */
    method SaveConfig()
      requires Valid() && currentStep == Config
      modifies this
      ensures Snapshot() == AfterSaveConfig(old(Snapshot()))
      ensures Valid()
    {
      ghost var before := Snapshot();
      var step0, id0, reps0 := currentStep, sessionId, reps;
      currentStep := Input;
      RerunPollingEffect(before, step0, id0, reps0);
      DoorGameProperties.StepKeepsInv(before, SaveConfigPressed);
    }

    /** The "Change Server Settings" button. */
    method OpenConfig()
      requires Valid() && currentStep == Input
      modifies this
      ensures Snapshot() == AfterOpenConfig(old(Snapshot()))
      ensures Valid()
    {
      ghost var before := Snapshot();
      var step0, id0, reps0 := currentStep, sessionId, reps;
      currentStep := Config;
      RerunPollingEffect(before, step0, id0, reps0);
      DoorGameProperties.StepKeepsInv(before, ChangeServerPressed);
    }

    /** The reps text field. */
    method SetReps(value: string)
      requires Valid() && currentStep == Input
      modifies this
      ensures Snapshot() == Step(old(Snapshot()), RepsEdited(value))
      ensures Valid()
    {
      ghost var before := Snapshot();
      var step0, id0, reps0 := currentStep, sessionId, reps;
      reps := value;
      RerunPollingEffect(before, step0, id0, reps0);
      DoorGameProperties.StepKeepsInv(before, RepsEdited(value));
    }

    /** The sets text field. */
    method SetSets(value: string)
      requires Valid() && currentStep == Input
      modifies this
      ensures Snapshot() == Step(old(Snapshot()), SetsEdited(value))
      ensures Valid()
    {
      ghost var before := Snapshot();
      sets := value;
      DoorGameProperties.StepKeepsInv(before, SetsEdited(value));
    }

    /** The server address text field. */
    method SetServerIP(value: string)
      requires Valid() && currentStep == Config
      modifies this
      ensures Snapshot() == Step(old(Snapshot()), ServerIPEdited(value))
      ensures Valid()
    {
      ghost var before := Snapshot();
      serverIP := value;
      DoorGameProperties.StepKeepsInv(before, ServerIPEdited(value));
    }

    /** The server port text field. */
    method SetServerPort(value: string)
      requires Valid() && currentStep == Config
      modifies this
      ensures Snapshot() == Step(old(Snapshot()), ServerPortEdited(value))
      ensures Valid()
    {
      ghost var before := Snapshot();
      serverPort := value;
      DoorGameProperties.StepKeepsInv(before, ServerPortEdited(value));
    }

    /** getApiUrl, on the current address. */
    function GetApiUrl(): (url: string)
      reads this
      ensures ':' !in serverIP ==> HostAndPort(url) == Some((serverIP, serverPort))
    {
      ApiUrl(serverIP, serverPort)
    }
  }
}
