/** What the door game's transitions guarantee over whole runs of events. */
module DoorGameProperties {
  import opened Options
  import opened JsParse
  import opened DoorGameSpec

  /** Before its last tick the story interval counts down by one per tick. */
  lemma {:induction false} CountdownBeforeEnd(s: GameState, k: nat, reset: ResetOutcome, newSessionId: string)
    requires s.countdownRunning && 1 <= k < s.storyCount
    ensures Ticks(s, k, reset, newSessionId) == s.(storyCount := s.storyCount - k, countdown := s.storyCount - k)
  {
    if k > 1 {
      CountdownBeforeEnd(s, k - 1, reset, newSessionId);
    }
  }

  /** The tick that finds the count at 1 runs the terminal action. */
  lemma {:induction false} FinalTick(s: GameState, reset: ResetOutcome, newSessionId: string)
    requires s.countdownRunning && s.storyCount == 1
    ensures AfterCountdownTick(s, reset, newSessionId)
         == FinishCountdown(s.(storyCount := 0, countdown := 0, countdownRunning := false), reset, newSessionId)
  {
    assert s.(storyCount := s.storyCount - 1, countdown := s.storyCount - 1, countdownRunning := false)
        == s.(storyCount := 0, countdown := 0, countdownRunning := false);
  }

  /** After `c - 1` ticks of a countdown from `c` the count is at 1. */
  lemma {:induction false} BeforeLastTick(s: GameState, reset: ResetOutcome, newSessionId: string)
    requires s.countdownRunning && 1 <= s.storyCount
    ensures var last := Ticks(s, s.storyCount - 1, reset, newSessionId);
      last.countdownRunning && last.(countdown := s.countdown) == s.(storyCount := 1)
  {
    if s.storyCount > 1 {
      CountdownBeforeEnd(s, s.storyCount - 1, reset, newSessionId);
    }
  }

  /** Tick number `c` of a countdown from `c` runs the terminal action. */
  lemma {:induction false} CountdownLastTick(s: GameState, reset: ResetOutcome, newSessionId: string)
    requires s.countdownRunning && 1 <= s.storyCount
    ensures Ticks(s, s.storyCount, reset, newSessionId)
         == FinishCountdown(s.(storyCount := 0, countdown := 0, countdownRunning := false), reset, newSessionId)
  {
    var last := Ticks(s, s.storyCount - 1, reset, newSessionId);
    BeforeLastTick(s, reset, newSessionId);
    FinalTick(last, reset, newSessionId);
    assert last.(storyCount := 0, countdown := 0, countdownRunning := false)
        == s.(storyCount := 0, countdown := 0, countdownRunning := false);
  }

  /** A cleared interval never fires again. */
  lemma {:induction false} TicksWhenStopped(s: GameState, k: nat, reset: ResetOutcome, newSessionId: string)
    requires !s.countdownRunning
    ensures Ticks(s, k, reset, newSessionId) == s
  {
    if k > 0 {
      TicksWhenStopped(s, k - 1, reset, newSessionId);
    }
  }

  /** `a + b` ticks are `a` ticks followed by `b` more. */
  lemma {:induction false} TicksAdd(s: GameState, a: nat, b: nat, reset: ResetOutcome, newSessionId: string)
    ensures Ticks(s, a + b, reset, newSessionId) == Ticks(Ticks(s, a, reset, newSessionId), b, reset, newSessionId)
  {
    if b > 0 {
      var mid := Ticks(s, a, reset, newSessionId);
      TicksAdd(s, a, b - 1, reset, newSessionId);
      assert Ticks(s, a + b, reset, newSessionId)
          == AfterCountdownTick(Ticks(s, a + b - 1, reset, newSessionId), reset, newSessionId);
      assert Ticks(mid, b, reset, newSessionId)
          == AfterCountdownTick(Ticks(mid, b - 1, reset, newSessionId), reset, newSessionId);
    }
  }

  /**
   * A running story countdown from `c` fires its terminal action on tick `c`,
   * and no tick after that changes anything.
   */
  lemma {:induction false} CountdownEnd(s: GameState, j: nat, reset: ResetOutcome, newSessionId: string)
    requires s.countdownRunning && 1 <= s.storyCount
    ensures Ticks(s, s.storyCount + j, reset, newSessionId)
         == FinishCountdown(s.(storyCount := 0, countdown := 0, countdownRunning := false), reset, newSessionId)
  {
    var done := Ticks(s, s.storyCount, reset, newSessionId);
    CountdownLastTick(s, reset, newSessionId);
    TicksAdd(s, s.storyCount, j, reset, newSessionId);
    TicksWhenStopped(done, j, reset, newSessionId);
  }

  /**
   * The countdown started on entering the story step shows 14, 13, ..., 1 on
   * its first fourteen ticks and fires exactly one terminal action, on the
   * fifteenth: a new set while sets remain, otherwise a reset of the game;
   * the `j` ticks after that change nothing.
   */
  lemma {:induction false} StoryCountdownSchedule(s: GameState, reset: ResetOutcome, newSessionId: string, j: nat)
    requires s.countdownRunning && s.storyCount == CountdownStart
    ensures forall k :: 1 <= k < CountdownStart ==>
      && Ticks(s, k, reset, newSessionId).countdown == CountdownStart - k
      && Ticks(s, k, reset, newSessionId).step == s.step
      && Ticks(s, k, reset, newSessionId).countdownRunning
    ensures var done := s.(storyCount := 0, countdown := 0, countdownRunning := false);
      Ticks(s, CountdownStart + j, reset, newSessionId)
        == if MoreSetsRemain(s) then AfterNewSet(done, reset, newSessionId) else AfterReset(done)
  {
    forall k | 1 <= k < CountdownStart
      ensures Ticks(s, k, reset, newSessionId).countdown == CountdownStart - k
      ensures Ticks(s, k, reset, newSessionId).step == s.step
      ensures Ticks(s, k, reset, newSessionId).countdownRunning
    {
      CountdownBeforeEnd(s, k, reset, newSessionId);
    }
    CountdownEnd(s, j, reset, newSessionId);
  }

  /** The terminal action of a cleared countdown leads to a state of the invariant. */
  lemma {:induction false} FinishKeepsInv(s: GameState, reset: ResetOutcome, newSessionId: string)
    requires !s.countdownRunning && s.currentSet >= 0
    ensures Inv(FinishCountdown(s, reset, newSessionId))
  {
    if MoreSetsRemain(s) {
      var t := AfterNewSet(s, reset, newSessionId);
      assert t.sets == s.sets && t.currentSet <= s.currentSet + 1;
    }
  }

  /** A tick of the story interval keeps the invariant. */
  lemma {:induction false} TickKeepsInv(s: GameState, reset: ResetOutcome, newSessionId: string)
    requires Inv(s)
    ensures Inv(AfterCountdownTick(s, reset, newSessionId))
  {
    if s.countdownRunning && s.storyCount <= 1 {
      var done := s.(storyCount := s.storyCount - 1, countdown := s.storyCount - 1, countdownRunning := false);
      FinishKeepsInv(done, reset, newSessionId);
    }
  }

  /** Starting the game from the input screen keeps the invariant. */
  lemma {:induction false} StartKeepsInv(s: GameState, reset: ResetOutcome, newSessionId: string)
    requires Inv(s) && s.step == Input
    ensures Inv(AfterStartGame(s, reset, newSessionId))
  {
    var t := AfterStartGame(s, reset, newSessionId);
    assert t.sets == s.sets && t.countdownRunning == s.countdownRunning;
  }

  /** A poll reply keeps the invariant. */
  lemma {:induction false} PollKeepsInv(s: GameState, poll: PollOutcome)
    requires Inv(s)
    ensures Inv(AfterPoll(s, poll))
  {
    var t := AfterPoll(s, poll);
    assert t.sets == s.sets && t.currentSet == s.currentSet;
  }

  /** Every enabled event keeps the invariant. */
  lemma {:induction false} StepKeepsInv(s: GameState, e: Event)
    requires Inv(s) && Enabled(s, e)
    ensures Inv(Step(s, e))
  {
    match e
    case StartPressed(reset, id) =>
      StartKeepsInv(s, reset, id);
    case PollEnded(poll) =>
      PollKeepsInv(s, poll);
    case CountdownTicked(reset, id) =>
      TickKeepsInv(s, reset, id);
    case _ =>
  }

  /** The invariant holds after any sequence of enabled events. */
  lemma {:induction false} RunKeepsInv(s: GameState, events: seq<Event>)
    requires Inv(s) && EnabledAlong(s, events)
    ensures Inv(Run(s, events))
    decreases |events|
  {
    if events != [] {
      StepKeepsInv(s, events[0]);
      RunKeepsInv(Step(s, events[0]), events[1..]);
    }
  }

  /**
   * On the door and story screens `currentSet` is at least 1 and, when sets
   * reads as a number of at least 1, never more than it.
   */
  lemma {:induction false} CurrentSetNeverExceedsSets(events: seq<Event>)
    requires EnabledAlong(Initial(), events)
    ensures var s := Run(Initial(), events);
      (s.step == Door || s.step == Story) ==>
        s.currentSet >= 1 &&
        forall k :: ParseInt(s.sets) == Some(k) && k >= 1 ==> s.currentSet <= k
  {
    RunKeepsInv(Initial(), events);
  }

  /**
   * Polling is idle off the door screen and while there is no session id: no
   * reply changes anything then.
   */
  lemma {:induction false} PollIdleWhenNotPolling(s: GameState, events: seq<PollOutcome>)
    requires !Polling(s)
    ensures Run(s, seq(|events|, i requires 0 <= i < |events| => PollEnded(events[i]))) == s
  {
    PollsLeave(s, seq(|events|, i requires 0 <= i < |events| => PollEnded(events[i])));
  }

  lemma {:induction false} PollsLeave(s: GameState, events: seq<Event>)
    requires !Polling(s)
    requires forall i :: 0 <= i < |events| ==> events[i].PollEnded?
    ensures Run(s, events) == s
    decreases |events|
  {
    if events != [] {
      assert Step(s, events[0]) == s;
      PollsLeave(s, events[1..]);
    }
  }

  /**
   * The failure escalation reads the count the interval captured: after a
   * reply that raised `movementCount`, a failed poll still leaves the door
   * screen when the captured count was zero.
   */
  lemma {:induction false} EscalationUsesCapturedCount(s: GameState, count: int, reset: ResetOutcome, newSessionId: string)
    requires Polling(s) && s.capturedCount == 0
    requires count > 0 && !ReachedTarget(count, s.reps)
    ensures var t := AfterPoll(AfterPoll(s, Counter(s.sessionId, count)), PollFailed);
      t.step == Config && t.movementCount == count
  {
  }

  /**
   * The other side of the same closure: a set finished with a non-zero count
   * and followed by the story countdown starts a door whose interval captured
   * that count, so there a failed poll never leaves the door screen.
   */
  lemma {:induction false} NoEscalationAfterCountedSet(s: GameState, count: int, reset: ResetOutcome, newSessionId: string)
    requires Polling(s) && count > 0 && ReachedTarget(count, s.reps)
    ensures var n := Ticks(AfterPoll(s, Counter(s.sessionId, count)), CountdownStart, reset, newSessionId);
      Polling(n) ==> n.capturedCount == count && AfterPoll(n, PollFailed) == n
  {
    var story := AfterPoll(s, Counter(s.sessionId, count));
    assert story.countdownRunning && story.storyCount == CountdownStart && story.movementCount == count;
    var done := story.(storyCount := 0, countdown := 0, countdownRunning := false);
    CountdownLastTick(story, reset, newSessionId);
    var n := FinishCountdown(done, reset, newSessionId);
    if Polling(n) {
      assert MoreSetsRemain(done) && reset.Responded?;
      assert n == AfterNewSet(done, reset, newSessionId);
      assert n.capturedCount == count;
    }
  }

  /** The start advances exactly on a 2xx status: Fetch's `response.ok`. */
  lemma {:induction false} StartAdvancesIffOk(s: GameState, status: int, newSessionId: string)
    ensures AfterStartGame(s, Responded(status), newSessionId).step == Door <==> 200 <= status <= 299
  {
  }

  /** A reps field holding the numeral of `n` is reached exactly by counts of at least `n`. */
  lemma {:induction false} ReachedTargetOfNumeral(count: int, n: nat, rest: string)
    requires rest == [] || !IsDigit(rest[0])
    ensures ReachedTarget(count, Decimal(n) + rest) <==> count >= n
  {
    ParseIntOfDecimal(n, rest);
  }

  /** A sets field holding the numeral of `n` leaves sets to play exactly below set `n`. */
  lemma {:induction false} MoreSetsRemainOfNumeral(s: GameState, n: nat, rest: string)
    requires rest == [] || !IsDigit(rest[0])
    requires s.sets == Decimal(n) + rest
    ensures MoreSetsRemain(s) <==> s.currentSet < n
  {
    ParseIntOfDecimal(n, rest);
  }

  /** The door and story screens render no control: only the timers act there. */
  lemma {:induction false} TimersOnlyOnDoorAndStory(s: GameState, e: Event)
    requires Enabled(s, e) && (s.step == Door || s.step == Story)
    ensures e.PollEnded? || e.CountdownTicked?
  {
  }

  /** A run of digits ended by an underscore is read back unambiguously. */
  lemma {:induction false} DigitsBeforeUnderscore(a: string, r1: string, b: string, r2: string)
    requires AllDigits(a) && AllDigits(b)
    requires a + "_" + r1 == b + "_" + r2
    ensures a == b && r1 == r2
  {
    if |a| < |b| {
      DigitAt(b, r2, |a|);
      UnderscoreAt(a, r1);
      assert false;
    } else if |b| < |a| {
      DigitAt(a, r1, |b|);
      UnderscoreAt(b, r2);
      assert false;
    }
    assert a == (a + "_" + r1)[..|a|];
    assert b == (b + "_" + r2)[..|b|];
    assert r1 == (a + "_" + r1)[|a| + 1..];
    assert r2 == (b + "_" + r2)[|b| + 1..];
  }

  lemma {:induction false} DigitAt(d: string, r: string, i: nat)
    requires AllDigits(d) && i < |d|
    ensures IsDigit((d + "_" + r)[i])
  {
  }

  lemma {:induction false} UnderscoreAt(d: string, r: string)
    ensures (d + "_" + r)[|d|] == '_'
  {
  }

  /** Session ids made from different clock readings or suffixes differ. */
  lemma {:induction false} SessionIdInjective(now1: nat, random1: string, now2: nat, random2: string)
    requires SessionIdFor(now1, random1) == SessionIdFor(now2, random2)
    ensures now1 == now2 && random1 == random2
  {
    var x, y := SessionIdFor(now1, random1), SessionIdFor(now2, random2);
    assert x[8..] == Decimal(now1) + "_" + random1;
    assert y[8..] == Decimal(now2) + "_" + random2;
    DigitsBeforeUnderscore(Decimal(now1), random1, Decimal(now2), random2);
    DecimalInjective(now1, now2);
  }

  /** `k` story interval ticks as events. */
  function TickEvents(reset: ResetOutcome, newSessionId: string, k: nat): (events: seq<Event>)
    ensures |events| == k
    ensures forall i :: 0 <= i < k ==> events[i] == CountdownTicked(reset, newSessionId)
  {
    seq(k, _ => CountdownTicked(reset, newSessionId))
  }

  /** Running `k` tick events is `k` ticks of the story interval. */
  lemma {:induction false} RunTickEvents(s: GameState, k: nat, reset: ResetOutcome, newSessionId: string)
    ensures Run(s, TickEvents(reset, newSessionId, k)) == Ticks(s, k, reset, newSessionId)
    decreases k
  {
    if k > 0 {
      var front := TickEvents(reset, newSessionId, k - 1);
      var tick := CountdownTicked(reset, newSessionId);
      assert TickEvents(reset, newSessionId, k) == front + [tick];
      RunAppend(s, front, [tick]);
      RunTickEvents(s, k - 1, reset, newSessionId);
      RunSingle(Ticks(s, k - 1, reset, newSessionId), tick);
    }
  }

  lemma {:induction false} RunAppend(s: GameState, a: seq<Event>, b: seq<Event>)
    ensures Run(s, a + b) == Run(Run(s, a), b)
    decreases |a|
  {
    if a != [] {
      assert (a + b)[0] == a[0];
      assert (a + b)[1..] == a[1..] + b;
      RunAppend(Step(s, a[0]), a[1..], b);
    } else {
      assert a + b == b;
    }
  }

  /**
   * A reply that reaches the target for the current session shows the story,
   * and fifteen ticks later the countdown's terminal action has run once.
   */
  lemma {:induction false} SetCompletes(d: GameState, count: int, reset: ResetOutcome, newSessionId: string)
    requires Polling(d) && ReachedTarget(count, d.reps)
    ensures var story := AfterPoll(d, Counter(d.sessionId, count));
      && story.step == Story && story.movementCount == count
      && Run(d, [PollEnded(Counter(d.sessionId, count))] + TickEvents(reset, newSessionId, CountdownStart))
         == FinishCountdown(story.(storyCount := 0, countdown := 0, countdownRunning := false), reset, newSessionId)
  {
    var story := AfterPoll(d, Counter(d.sessionId, count));
    assert story.countdownRunning && story.storyCount == CountdownStart;
    var ticks := TickEvents(reset, newSessionId, CountdownStart);
    RunAppend(d, [PollEnded(Counter(d.sessionId, count))], ticks);
    RunSingle(d, PollEnded(Counter(d.sessionId, count)));
    RunTickEvents(story, CountdownStart, reset, newSessionId);
    CountdownLastTick(story, reset, newSessionId);
  }

  lemma {:induction false} RunSingle(s: GameState, e: Event)
    ensures Run(s, [e]) == Step(s, e)
  {
    assert [e][1..] == [];
  }

  lemma SmallNumerals()
    ensures ParseInt("10") == Some(10) && ParseInt("2") == Some(2)
  {
    ParseTen();
    ParseTwo();
  }

  lemma ParseTen()
    ensures ParseInt("10") == Some(10)
  {
    assert DigitChar(1) == '1' && DigitChar(0) == '0';
    assert Decimal(10) == Decimal(1) + [DigitChar(0)];
    assert Decimal(10) + "" == "10";
    ParseIntOfDecimal(10, "");
  }

  lemma ParseTwo()
    ensures ParseInt("2") == Some(2)
  {
    assert DigitChar(2) == '2';
    assert Decimal(2) + "" == "2";
    ParseIntOfDecimal(2, "");
  }

  /*
   * Ten reps, two sets. Session A starts and, at ten movements, the story
   * shows; fifteen ticks later session B is the second set. A late reply for
   * A changes nothing; ten movements for B end in the story again, and its
   * countdown returns to the input screen with the server address kept.
   */

  /** The door of the first set, with session A. */
  function FirstDoor(): GameState {
    GameState(Door, "10", "2", 1, "A", 0, CountdownStart, DefaultServerIP, DefaultServerPort, 0, 0, false)
  }

  /** The door of the second set, with session B; the count of set one remains. */
  function SecondDoor(): GameState {
    GameState(Door, "10", "2", 2, "B", 10, CountdownStart, DefaultServerIP, DefaultServerPort, 10, 0, false)
  }

  /** The input screen after the game, with the address kept. */
  function GameOver(): GameState {
    GameState(Input, "", "", 0, "B", 10, CountdownStart, DefaultServerIP, DefaultServerPort, 10, 0, false)
  }

  lemma TwoSetGameStarts()
    ensures Run(Initial(), [RepsEdited("10"), SetsEdited("2"), StartPressed(Responded(200), "A")]) == FirstDoor()
  {
    var e1, e2, e3 := RepsEdited("10"), SetsEdited("2"), StartPressed(Responded(200), "A");
    assert [e1, e2, e3][1..] == [e2, e3] && [e2, e3][1..] == [e3];
  }

  lemma TwoSetGameSecondSet()
    ensures Run(FirstDoor(), [PollEnded(Counter("A", 10))] + TickEvents(Responded(200), "B", CountdownStart))
         == SecondDoor()
  {
    SmallNumerals();
    SetCompletes(FirstDoor(), 10, Responded(200), "B");
  }

  lemma TwoSetGameIgnoresStaleReply()
    ensures Run(SecondDoor(), [PollEnded(Counter("A", 15))]) == SecondDoor()
  {
  }

  lemma TwoSetGameEnds()
    ensures Run(SecondDoor(), [PollEnded(Counter("B", 10))] + TickEvents(Responded(200), "C", CountdownStart))
         == GameOver()
  {
    SmallNumerals();
    SetCompletes(SecondDoor(), 10, Responded(200), "C");
  }

  /**
   * The count is never reset, so a game started again after `GameOver` opens
   * a door whose interval captured the old count: a failed poll there never
   * leaves the door screen.
   */
  lemma ReplayNeverEscalates()
    ensures var d := Run(GameOver(), [RepsEdited("10"), SetsEdited("2"), StartPressed(Responded(200), "D")]);
      d.step == Door && d.capturedCount == 10 && AfterPoll(d, PollFailed) == d
  {
    var e1, e2, e3 := RepsEdited("10"), SetsEdited("2"), StartPressed(Responded(200), "D");
    assert [e1, e2, e3][1..] == [e2, e3] && [e2, e3][1..] == [e3];
  }

  /** A start that the server answers with 500 shows the settings; polls do nothing there. */
  lemma {:induction false} FailedStart(polls: seq<PollOutcome>)
    ensures var s := Run(Initial(), [StartPressed(Responded(500), "A")]);
      s.step == Config && s.sessionId == "" && s.currentSet == 0
    ensures var s := Run(Initial(), [StartPressed(Responded(500), "A")]);
      Run(s, seq(|polls|, i requires 0 <= i < |polls| => PollEnded(polls[i]))) == s
  {
    var s := Run(Initial(), [StartPressed(Responded(500), "A")]);
    assert s == AfterStartGame(Initial(), Responded(500), "A");
    PollIdleWhenNotPolling(s, polls);
  }
}
