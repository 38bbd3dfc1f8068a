/**
 * The state machine of the door game screen as values: one `GameState` per
 * render of the component, and one function per event that gives the state
 * after it. Every network call is replaced by its outcome, passed in.
 */
module DoorGameSpec {
  import opened Options
  import opened JsParse

  /** Which of the four screens is shown. */
  datatype GameStep = Input | Config | Door | Story

  const DefaultServerIP: string := "192.168.7.149"
  const DefaultServerPort: string := "5000"
  /** The value the story countdown starts from, and the one it is reset to. */
  const CountdownStart: int := 15

  /**
   * The component's state slots, plus three values held by closures:
   * `capturedCount` is `movementCount` as the polling interval saw it when it
   * was last set up; `storyCount` is the story interval's local `count`, and
   * `countdownRunning` says whether that interval is still scheduled.
   */
  datatype GameState = GameState(
    step: GameStep,
    reps: string,
    sets: string,
    currentSet: int,
    sessionId: string,
    movementCount: int,
    countdown: int,
    serverIP: string,
    serverPort: string,
    capturedCount: int,
    storyCount: int,
    countdownRunning: bool)

  /** How a POST to /reset_counter ended: with an HTTP status, or by throwing. */
  datatype ResetOutcome = Responded(status: int) | Thrown

  /**
   * How one poll of /get_counter ended: with the decoded body, or by throwing
   * (network error, timeout, or a body that is not JSON).
   */
  datatype PollOutcome = Counter(sessionId: string, movementCount: int) | PollFailed

  /** Fetch's `response.ok`. */
  predicate IsOk(status: int) {
    200 <= status <= 299
  }

  predicate Succeeded(reset: ResetOutcome) {
    reset.Responded? && IsOk(reset.status)
  }

  /** The state when the screen mounts. */
  function Initial(): (s: GameState)
    ensures s.step == Input && s.currentSet == 0 && s.sessionId == "" && !s.countdownRunning
  {
    GameState(Input, "", "", 0, "", 0, CountdownStart, DefaultServerIP, DefaultServerPort, 0, 0, false)
  }

  /** The polling interval is scheduled exactly in this state. */
  predicate Polling(s: GameState) {
    s.step == Door && s.sessionId != ""
  }

  /** The fields the source never touches outside the text inputs. */
  predicate SameSettings(s: GameState, t: GameState) {
    t.reps == s.reps && t.sets == s.sets && t.serverIP == s.serverIP && t.serverPort == s.serverPort
  }

  /** The story interval is left as it was. */
  predicate SameCountdownTimer(s: GameState, t: GameState) {
    t.storyCount == s.storyCount && t.countdownRunning == s.countdownRunning
  }

  /** True iff the polling effect's dependencies differ between two renders. */
  predicate PollingDepsChanged(before: GameState, after: GameState) {
    after.step != before.step || after.sessionId != before.sessionId || after.reps != before.reps
  }

  /**
   * React re-runs the polling effect when one of its dependencies changed; the
   * new interval's callback sees the `movementCount` of that render.
   */
  function RunPollingEffect(before: GameState, after: GameState): (t: GameState)
    ensures t.(capturedCount := after.capturedCount) == after
    ensures PollingDepsChanged(before, after) ==> t.capturedCount == after.movementCount
    ensures !PollingDepsChanged(before, after) ==> t.capturedCount == after.capturedCount
  {
    if PollingDepsChanged(before, after) then after.(capturedCount := after.movementCount) else after
  }

  /** `count >= parseInt(reps, 10)`; false when reps is NaN. */
  predicate ReachedTarget(count: int, reps: string) {
    match ParseInt(reps)
    case Some(r) => count >= r
    case None => false
  }

  /** `currentSet < parseInt(sets, 10)`; false when sets is NaN. */
  predicate MoreSetsRemain(s: GameState) {
    match ParseInt(s.sets)
    case Some(k) => s.currentSet < k
    case None => false
  }

  /** handleStartGame, once the reset request has ended. */
  function AfterStartGame(s: GameState, reset: ResetOutcome, newSessionId: string): (t: GameState)
    ensures Succeeded(reset) ==> t.step == Door && t.sessionId == newSessionId && t.currentSet == 1
    ensures !Succeeded(reset) ==> t.step == Config && t.sessionId == s.sessionId && t.currentSet == s.currentSet
    ensures SameSettings(s, t) && SameCountdownTimer(s, t)
    ensures t.movementCount == s.movementCount && t.countdown == s.countdown
    ensures s.step == Input ==> t.capturedCount == s.movementCount
  {
    RunPollingEffect(s,
      if Succeeded(reset) then s.(sessionId := newSessionId, currentSet := 1, step := Door)
      else s.(step := Config))
  }

  /** startStoryCountdown, with the step change scheduled just before it. */
  function StartStoryCountdown(s: GameState): (t: GameState)
    ensures t.step == Story && t.countdownRunning && t.storyCount == CountdownStart
    ensures t.(step := s.step, countdownRunning := s.countdownRunning, storyCount := s.storyCount) == s
  {
    s.(step := Story, storyCount := CountdownStart, countdownRunning := true)
  }

  /** One tick of the polling interval, once its request has ended. */
  function AfterPoll(s: GameState, poll: PollOutcome): (t: GameState)
    // the interval only exists while polling, and stale replies are ignored
    ensures !Polling(s) ==> t == s
    ensures poll.Counter? && poll.sessionId != s.sessionId ==> t == s
    // a reply for the current session
    ensures Polling(s) && poll.Counter? && poll.sessionId == s.sessionId ==>
      && t.movementCount == poll.movementCount
      && (t.step == Story <==> ReachedTarget(poll.movementCount, s.reps))
      && (t.step == Door <==> !ReachedTarget(poll.movementCount, s.reps))
      && (ParseInt(s.reps) == None ==> t.step == Door)
      && (t.step == Story ==> t.countdownRunning && t.storyCount == CountdownStart)
      && (t.step == Door ==> t.capturedCount == s.capturedCount && SameCountdownTimer(s, t))
      && t.currentSet == s.currentSet && t.sessionId == s.sessionId && t.countdown == s.countdown
    // a failed request escalates only if the interval saw no movement
    ensures Polling(s) && poll.PollFailed? ==>
      && (t.step == Config <==> s.capturedCount == 0)
      && (s.capturedCount != 0 ==> t == s)
      && t.movementCount == s.movementCount && t.currentSet == s.currentSet && t.sessionId == s.sessionId
    ensures SameSettings(s, t)
  {
    if !Polling(s) then s
    else match poll
      case Counter(id, count) =>
        if id != s.sessionId then s
        else
          var counted := s.(movementCount := count);
          if ReachedTarget(count, s.reps) then RunPollingEffect(s, StartStoryCountdown(counted))
          else counted
      case PollFailed =>
        if s.capturedCount == 0 then RunPollingEffect(s, s.(step := Config)) else s
  }

  /** startNewSet, once its reset request has ended: any HTTP status advances. */
  function AfterNewSet(s: GameState, reset: ResetOutcome, newSessionId: string): (t: GameState)
    ensures reset.Responded? ==>
      && t.currentSet == s.currentSet + 1 && t.sessionId == newSessionId
      && t.countdown == CountdownStart && t.step == Door
    ensures reset.Thrown? ==>
      && t.step == Config && t.currentSet == s.currentSet && t.sessionId == s.sessionId
      && t.countdown == s.countdown
    ensures t.movementCount == s.movementCount && SameSettings(s, t) && SameCountdownTimer(s, t)
    ensures reset.Responded? && s.step != Door ==> t.capturedCount == s.movementCount
    ensures reset.Thrown? && s.step != Config ==> t.capturedCount == s.movementCount
  {
    RunPollingEffect(s,
      match reset
      case Responded(_) =>
        s.(sessionId := newSessionId, currentSet := s.currentSet + 1, countdown := CountdownStart, step := Door)
      case Thrown => s.(step := Config))
  }

  /** resetGame: back to the input screen, keeping the server address. */
  function AfterReset(s: GameState): (t: GameState)
    ensures t.step == Input && t.currentSet == 0 && t.reps == "" && t.sets == ""
    ensures t.countdown == CountdownStart
    ensures t.serverIP == s.serverIP && t.serverPort == s.serverPort
    ensures t.sessionId == s.sessionId && t.movementCount == s.movementCount && SameCountdownTimer(s, t)
  {
    RunPollingEffect(s, s.(step := Input, currentSet := 0, reps := "", sets := "", countdown := CountdownStart))
  }

  /** The action the story interval takes once its count reaches zero. */
  function FinishCountdown(s: GameState, reset: ResetOutcome, newSessionId: string): (t: GameState)
    ensures MoreSetsRemain(s) && reset.Responded? ==>
      t.step == Door && t.currentSet == s.currentSet + 1 && t.sessionId == newSessionId
    ensures MoreSetsRemain(s) && reset.Thrown? ==> t.step == Config && t.currentSet == s.currentSet
    ensures !MoreSetsRemain(s) ==> t.step == Input && t.currentSet == 0 && t.reps == "" && t.sets == ""
    ensures t.serverIP == s.serverIP && t.serverPort == s.serverPort && SameCountdownTimer(s, t)
  {
    if MoreSetsRemain(s) then AfterNewSet(s, reset, newSessionId) else AfterReset(s)
  }

  /**
   * One tick of the story interval. `reset` and `newSessionId` are used only
   * by the final tick, when it starts a new set.
   */
  function AfterCountdownTick(s: GameState, reset: ResetOutcome, newSessionId: string): (t: GameState)
    ensures !s.countdownRunning ==> t == s
    ensures s.countdownRunning && s.storyCount > 1 ==>
      t == s.(storyCount := s.storyCount - 1, countdown := s.storyCount - 1)
    ensures s.countdownRunning && s.storyCount <= 1 ==>
      && !t.countdownRunning
      && t == FinishCountdown(s.(storyCount := s.storyCount - 1, countdown := s.storyCount - 1,
                                 countdownRunning := false), reset, newSessionId)
  {
    if !s.countdownRunning then s
    else
      var count := s.storyCount - 1;
      var ticked := s.(storyCount := count, countdown := count);
      if count > 0 then ticked
      else FinishCountdown(ticked.(countdownRunning := false), reset, newSessionId)
  }

  /** `k` ticks of the story interval. */
  function Ticks(s: GameState, k: nat, reset: ResetOutcome, newSessionId: string): GameState {
    if k == 0 then s else AfterCountdownTick(Ticks(s, k - 1, reset, newSessionId), reset, newSessionId)
  }

  /** saveConfig: only the step changes. */
  function AfterSaveConfig(s: GameState): (t: GameState)
    ensures t.step == Input
    ensures t.(step := s.step, capturedCount := s.capturedCount) == s
  {
    RunPollingEffect(s, s.(step := Input))
  }

  /** The "Change Server Settings" button. */
  function AfterOpenConfig(s: GameState): (t: GameState)
    ensures t.step == Config
    ensures t.(step := s.step, capturedCount := s.capturedCount) == s
  {
    RunPollingEffect(s, s.(step := Config))
  }

  /** getStoryPart's table. */
  const StoryParts: seq<string> := [
    "You enter a mysterious forest...",
    "You discover an ancient temple...",
    "A dragon appears before you...",
    "You find the hidden treasure!"
  ]

  /**
   * getStoryPart(n) = storyParts[min(n - 1, 3)]; a negative index reads
   * `undefined`, written `None`.
   */
  function StoryPart(setNumber: int): (part: Option<string>)
    ensures part.Some? <==> setNumber >= 1
    ensures part.Some? ==> part.value in StoryParts
    ensures 1 <= setNumber <= |StoryParts| ==> part == Some(StoryParts[setNumber - 1])
    ensures setNumber >= |StoryParts| ==> part == Some(StoryParts[|StoryParts| - 1])
  {
    var i := if setNumber - 1 < |StoryParts| - 1 then setNumber - 1 else |StoryParts| - 1;
    if 0 <= i then Some(StoryParts[i]) else None
  }

  /** getApiUrl: host and port can be read back when the host has no colon. */
  function ApiUrl(serverIP: string, serverPort: string): (url: string)
    ensures ':' !in serverIP ==> HostAndPort(url) == Some((serverIP, serverPort))
  {
    var url := "http://" + serverIP + ":" + serverPort;
    ApiUrlRoundTrip(serverIP, serverPort, url);
    url
  }

  /** The host ends at the first colon after the scheme, which is the one before the port. */
  lemma {:induction false} ApiUrlRoundTrip(serverIP: string, serverPort: string, url: string)
    requires url == "http://" + serverIP + ":" + serverPort
    ensures ':' !in serverIP ==> HostAndPort(url) == Some((serverIP, serverPort))
  {
    if ':' !in serverIP {
      var rest := url[7..];
      assert url[..7] == "http://";
      assert rest == serverIP + ":" + serverPort;
      assert rest[|serverIP|] == ':';
      assert rest[..|serverIP|] == serverIP;
      var i := IndexOf(rest, ':');
      assert i.Some?;
      assert i.value == |serverIP|;
      assert rest[i.value + 1..] == serverPort;
    }
  }

  /** The first index of `c` in `s`. */
  function IndexOf(s: string, c: char): (r: Option<nat>)
    ensures r.None? <==> c !in s
    ensures r.Some? ==> r.value < |s| && s[r.value] == c && c !in s[..r.value]
  {
    if s == [] then None
    else if s[0] == c then Some(0)
    else match IndexOf(s[1..], c)
      case None => None
      case Some(i) => assert s[1..][..i] == s[1..i + 1]; Some(i + 1)
  }

  /** Reads host and port back from a base URL: the host ends at the first colon. */
  function HostAndPort(url: string): Option<(string, string)> {
    if |url| < 7 || url[..7] != "http://" then None
    else
      var rest := url[7..];
      match IndexOf(rest, ':')
      case None => None
      case Some(i) => Some((rest[..i], rest[i + 1..]))
  }

  /** generateSessionId with the clock and the random suffix passed in. */
  function SessionIdFor(now: nat, random: string): (id: string)
    ensures |id| >= |random| + 10 && id[..8] == "session_" && id[|id| - |random|..] == random
  {
    var id := "session_" + Decimal(now) + "_" + random;
    assert id[..8] == "session_";
    assert id[|id| - |random|..] == random;
    id
  }

  /** The events the screen reacts to. */
  datatype Event =
    | StartPressed(reset: ResetOutcome, newSessionId: string)
    | PollEnded(poll: PollOutcome)
    | CountdownTicked(reset: ResetOutcome, newSessionId: string)
    | SaveConfigPressed
    | ChangeServerPressed
    | RepsEdited(reps: string)
    | SetsEdited(sets: string)
    | ServerIPEdited(ip: string)
    | ServerPortEdited(port: string)

  /** The state after an event. */
  function Step(s: GameState, e: Event): (t: GameState)
    ensures t.serverIP != s.serverIP ==> e.ServerIPEdited?
    ensures t.serverPort != s.serverPort ==> e.ServerPortEdited?
    ensures t.sessionId != s.sessionId ==> e.StartPressed? || e.CountdownTicked?
  {
    match e
    case StartPressed(reset, id) => AfterStartGame(s, reset, id)
    case PollEnded(poll) => AfterPoll(s, poll)
    case CountdownTicked(reset, id) => AfterCountdownTick(s, reset, id)
    case SaveConfigPressed => AfterSaveConfig(s)
    case ChangeServerPressed => AfterOpenConfig(s)
    case RepsEdited(v) => RunPollingEffect(s, s.(reps := v))
    case SetsEdited(v) => s.(sets := v)
    case ServerIPEdited(v) => s.(serverIP := v)
    case ServerPortEdited(v) => s.(serverPort := v)
  }

  /**
   * The screen on which a button or text field is rendered; the timers can
   * fire at any time.
   */
  predicate Enabled(s: GameState, e: Event) {
    match e
    case StartPressed(_, _) => s.step == Input
    case PollEnded(_) => true
    case CountdownTicked(_, _) => true
    case SaveConfigPressed => s.step == Config
    case ChangeServerPressed => s.step == Input
    case RepsEdited(_) => s.step == Input
    case SetsEdited(_) => s.step == Input
    case ServerIPEdited(_) => s.step == Config
    case ServerPortEdited(_) => s.step == Config
  }

  /** The state after a sequence of events. */
  function Run(s: GameState, events: seq<Event>): GameState
    decreases |events|
  {
    if events == [] then s else Run(Step(s, events[0]), events[1..])
  }

  /** Every event of the sequence is enabled in the state it meets. */
  predicate EnabledAlong(s: GameState, events: seq<Event>)
    decreases |events|
  {
    events == [] || (Enabled(s, events[0]) && EnabledAlong(Step(s, events[0]), events[1..]))
  }

  /** `currentSet <= parseInt(sets)` whenever sets reads as at least one. */
  predicate WithinSets(s: GameState) {
    match ParseInt(s.sets)
    case Some(k) => k >= 1 ==> s.currentSet <= k
    case None => true
  }

  /** What holds of every state the screen can reach. */
  predicate Inv(s: GameState) {
    && ((s.step == Door || s.step == Story) ==> s.currentSet >= 1 && WithinSets(s))
    && (s.countdownRunning <==> s.step == Story)
    && (s.countdownRunning ==> 1 <= s.storyCount <= CountdownStart)
  }
}
