# Door game state machine

A Dafny model of the "Fitness Adventure" door game screen of the health app
(`FrontEnd/healthApp/app/DoorGame.tsx`). The player types a number of reps and
a number of sets, and the screen asks a movement-counting backend to reset its
counter for a fresh session id. It then polls the backend once a second until
the reported movement count reaches the reps. A fifteen-second story interlude
follows. After it the next set starts with a new session id, or, after the
last set, the game returns to the input screen.

The model has five modules:

- `Options` (`options.dfy`): the optional value. `None` models JavaScript's
  `NaN` and `undefined`.
- `JsParse` (`js_parse_int.dfy`): `parseInt(text, 10)` as `ParseInt`, with
  the numeral `Decimal` it reads back.
- `DoorGameSpec` (`door_game_spec.dfy`): the state of the screen as a value,
  `GameState`, and one function per event giving the state after it
  (`AfterStartGame`, `AfterPoll`, `AfterCountdownTick`, `AfterNewSet`,
  `AfterReset`, `AfterSaveConfig`, `AfterOpenConfig`). It also holds
  `StoryPart`, `ApiUrl` and `SessionIdFor`, the event type `Event` with
  `Step` and `Run`, the events each screen makes possible (`Enabled`), and the
  invariant `Inv`.
- `DoorGameProperties` (`door_game_properties.dfy`): lemmas over these
  functions. They cover the countdown schedule, the invariant along any run
  of enabled events, the failure escalation rule, URL and session id
  round trips, and the two scenarios worked through below.
- `DoorGameScreen` (`door_game.dfy`): the class `DoorGame`. Its fields are the
  component's `useState` slots, and its methods are the handlers, which
  update the fields one setter at a time. Each method is proved to leave
  `Snapshot()` equal to the matching `DoorGameSpec` function of the old
  snapshot. The handlers a control calls require the screen that renders the
  control. Every method that a control or a timer calls keeps the invariant
  (`Valid()`). The helpers those call on the way (`StartStoryCountdown`,
  `FinishStoryCountdown`, `StartNewSet`, `ResetGame`) do not promise it on
  their own, since the invariant holds only once the whole handler has run.

Every network call becomes a parameter holding its outcome:

- The reset request is `ResetOutcome`: `Responded(status)` or `Thrown`.
- The poll is `PollOutcome`: `Counter(sessionId, movementCount)` for a decoded
  body, or `PollFailed`.

The session id that `generateSessionId` would produce is also a parameter.
`SessionIdFor(now, random)` gives its format, with the clock reading and the
random suffix passed in.

Three fields hold state that the source keeps in closures:

- `capturedCount` is the `movementCount` that the polling interval's callback
  captured when React last ran the polling effect. The effect re-runs when
  `currentStep`, `sessionId` or `reps` changes. `RunPollingEffect` and
  `DoorGame.RerunPollingEffect` model this re-run.
- `storyCount` is the story interval's local `count`.
- `countdownRunning` says whether the story interval is still scheduled.

Behaviour of the code that the model keeps as written:

- `startNewSet` advances on every HTTP status, ok or not. Only a thrown
  request sends the player to the configuration screen.
- `movementCount` is never reset: not by a new set, not by `resetGame`.
- A failed poll escalates only when the captured count is 0. After a reply
  has raised `movementCount`, a failure still escalates if the interval
  captured 0. In the second set, where the interval captured the first set's
  count, a failure never escalates when that count was not 0
  (`EscalationUsesCapturedCount`, `NoEscalationAfterCountedSet`).
- For the same reason a game started again after the last set opens a door
  whose interval captured the old count. A failed poll never escalates there
  when that count was not 0 (`ReplayNeverEscalates`).
- `handleStartGame` does not validate reps or sets. A reps text that is `NaN`
  never leads to the story step. A sets text that is `NaN` ends the game
  after the first set.
- The countdown's terminal action compares `currentSet < parseInt(sets, 10)`,
  not equality.

Things the code does not do, and the model does not either:

- `handleStartGame` does not check that reps and sets are positive numbers.
- A new set does not reset `movementCount` to 0.
- A non-ok status from the new-set request does not lead to the configuration
  screen.
- A failed poll is not limited to escalating when no movement was ever
  reported; the test is on the captured count only.

## Model

| member | source | states |
|---|---|---|
| `DoorGameSpec.Initial` | FrontEnd/healthApp/app/DoorGame.tsx:11-21 | the screen mounts on the input step with set 0, no session and no countdown running |
| `DoorGameSpec.RunPollingEffect` | FrontEnd/healthApp/app/DoorGame.tsx:95-129 | only the captured count changes; it becomes the current movement count exactly when step, session id or reps changed |
| `DoorGameSpec.AfterStartGame` | FrontEnd/healthApp/app/DoorGame.tsx:48-86 | a 2xx reply installs the new session id, set 1 and the door step; a non-2xx status or a thrown request gives the config step and keeps session id and set; inputs, address, count and countdown never change; from the input step the polling interval captures the current count |
| `DoorGameProperties.StartAdvancesIffOk` | FrontEnd/healthApp/app/DoorGame.tsx:66-78 | the start reaches the door step exactly when the reply's status is 2xx (`IsOk`, Fetch's `response.ok`) |
| `DoorGameSpec.AfterPoll` | FrontEnd/healthApp/app/DoorGame.tsx:95-129 | nothing changes off the door step, with an empty session id, or for a reply naming another session; a matching reply stores the count and goes to story iff the count reaches parsed reps (stays door when reps is NaN); a failure goes to config iff the captured count is 0 and otherwise changes nothing |
| `DoorGameSpec.StartStoryCountdown` | FrontEnd/healthApp/app/DoorGame.tsx:112-115 | the story step shows and the interval starts from 15; nothing else changes |
| `DoorGameSpec.AfterCountdownTick` | FrontEnd/healthApp/app/DoorGame.tsx:160-171 | a cleared interval changes nothing; a tick above 1 lowers the count and the displayed countdown by one; the last tick clears the interval and runs the terminal action |
| `DoorGameSpec.AfterNewSet` | FrontEnd/healthApp/app/DoorGame.tsx:174-201 | any HTTP reply adds one to the set, installs the new session id, countdown 15 and the door step; a thrown request gives config and keeps set, session and countdown; count, inputs and address never change; when the step changes the polling interval captures the current count |
| `DoorGameSpec.AfterReset` | FrontEnd/healthApp/app/DoorGame.tsx:217-226 | input step, set 0, empty reps and sets, countdown 15; server address, session id and count are kept |
| `DoorGameSpec.FinishCountdown` | FrontEnd/healthApp/app/DoorGame.tsx:164-169 | while sets remain, an HTTP reply gives the door of the next set with the new session and a thrown request gives config; otherwise input with set 0 and empty reps and sets; the address and the interval are kept |
| `DoorGameProperties.MoreSetsRemainOfNumeral` | FrontEnd/healthApp/app/DoorGame.tsx:165 | `MoreSetsRemain`: with sets holding the numeral of n, more sets remain exactly while the current set is below n |
| `DoorGameProperties.ReachedTargetOfNumeral` | FrontEnd/healthApp/app/DoorGame.tsx:108 | `ReachedTarget`: with reps holding the numeral of n, a count reaches the target exactly when it is at least n |
| `DoorGameSpec.AfterSaveConfig` | FrontEnd/healthApp/app/DoorGame.tsx:253-255 | only the step changes, to input |
| `DoorGameSpec.AfterOpenConfig` | FrontEnd/healthApp/app/DoorGame.tsx:381 | only the step changes, to config |
| `DoorGameSpec.StoryPart` | FrontEnd/healthApp/app/DoorGame.tsx:228-236 | defined iff the set number is at least 1, then one of the four parts; part n for n up to 4, the last part for every n from 4 on |
| `JsParse.TrimStart` | FrontEnd/healthApp/app/DoorGame.tsx:108 | the text parseInt reads after white space is a suffix of its argument |
| `JsParse.TrimStartDropsWhiteSpace` | FrontEnd/healthApp/app/DoorGame.tsx:108 | every character dropped is white space, and what is left does not start with white space |
| `JsParse.LeadingDigits` | FrontEnd/healthApp/app/DoorGame.tsx:108 | the longest all-digit prefix |
| `JsParse.ParseTrimmed` | FrontEnd/healthApp/app/DoorGame.tsx:108 | NaN iff no digit follows the optional sign; negative only after a minus sign |
| `JsParse.DecimalValue` | FrontEnd/healthApp/app/DoorGame.tsx:108 | the digits of the numeral of n have the value n |
| `JsParse.DecimalInjective` | FrontEnd/healthApp/app/DoorGame.tsx:29 | different naturals have different numerals |
| `JsParse.ParseTrimmedDigits` | FrontEnd/healthApp/app/DoorGame.tsx:108 | a run of digits followed by a non-digit or nothing reads as its value |
| `JsParse.ParseTrimmedNegative` | FrontEnd/healthApp/app/DoorGame.tsx:108 | the same run after a minus sign reads as its negated value |
| `JsParse.ParseIntNegativeDigits` | FrontEnd/healthApp/app/DoorGame.tsx:108 | parseInt of a minus sign, a run of digits and a non-digit tail is the negated value of the digits |
| `JsParse.ParseIntOfDecimal` | FrontEnd/healthApp/app/DoorGame.tsx:108 | parseInt reads back the numeral of n, whatever non-digit text follows it |
| `JsParse.ParseIntCases` | FrontEnd/healthApp/app/DoorGame.tsx:108 | `ParseInt`, parseInt(s, 10): NaN exactly when no digit follows the white space and the optional sign; negative only after a minus sign |
| `JsParse.ParseIntOfNegative` | FrontEnd/healthApp/app/DoorGame.tsx:165 | parseInt of "-" followed by the numeral of n is -n |
| `JsParse.ParseIntSkipsWhiteSpace` | FrontEnd/healthApp/app/DoorGame.tsx:165 | leading white space does not change what parseInt returns |
| `DoorGameProperties.CountdownBeforeEnd` | FrontEnd/healthApp/app/DoorGame.tsx:160-163 | before the count runs out, k ticks lower the count and the displayed countdown by exactly k |
| `DoorGameProperties.FinalTick` | FrontEnd/healthApp/app/DoorGame.tsx:160-169 | the tick that finds the count at 1 clears the interval and runs the terminal action on count 0 |
| `DoorGameProperties.BeforeLastTick` | FrontEnd/healthApp/app/DoorGame.tsx:160-163 | after c - 1 ticks of a countdown from c the interval still runs with the count at 1, all else unchanged but the display |
| `DoorGameProperties.CountdownLastTick` | FrontEnd/healthApp/app/DoorGame.tsx:160-169 | tick number c of a countdown from c runs the terminal action on the state with count 0 and the interval cleared |
| `DoorGameProperties.TicksWhenStopped` | FrontEnd/healthApp/app/DoorGame.tsx:164 | once the interval is cleared no tick changes anything |
| `DoorGameProperties.TicksAdd` | FrontEnd/healthApp/app/DoorGame.tsx:159-171 | a + b ticks are a ticks followed by b more |
| `DoorGameProperties.CountdownEnd` | FrontEnd/healthApp/app/DoorGame.tsx:163-169 | tick number c runs the terminal action once, and no later tick changes anything |
| `DoorGameProperties.StoryCountdownSchedule` | FrontEnd/healthApp/app/DoorGame.tsx:158-172 | from 15 the countdown shows 14 down to 1 on the story step, and tick 15 and every later tick give the state after a new set when sets remain, or after a reset otherwise |
| `DoorGameProperties.FinishKeepsInv` | FrontEnd/healthApp/app/DoorGame.tsx:165-169 | the terminal action of a cleared countdown leads to a state of the invariant |
| `DoorGameProperties.TickKeepsInv` | FrontEnd/healthApp/app/DoorGame.tsx:160-171 | a tick of the story interval keeps the invariant |
| `DoorGameProperties.StartKeepsInv` | FrontEnd/healthApp/app/DoorGame.tsx:48-86 | starting from the input step keeps the invariant |
| `DoorGameProperties.PollKeepsInv` | FrontEnd/healthApp/app/DoorGame.tsx:95-129 | a poll reply keeps the invariant |
| `DoorGameProperties.StepKeepsInv` | FrontEnd/healthApp/app/DoorGame.tsx:48-255 | every enabled event keeps the invariant: set at least 1 and at most parsed sets on door and story, countdown running exactly on story, its count in 1..15 |
| `DoorGameProperties.RunKeepsInv` | FrontEnd/healthApp/app/DoorGame.tsx:48-255 | the invariant holds after any sequence of enabled events |
| `DoorGameProperties.CurrentSetNeverExceedsSets` | FrontEnd/healthApp/app/DoorGame.tsx:165-189 | in the model, where each reply and tick is atomic, every reachable door or story state has set at least 1 and never above parsed sets when those are at least 1 |
| `DoorGameProperties.PollIdleWhenNotPolling` | FrontEnd/healthApp/app/DoorGame.tsx:97 | off the door step, or with no session id (`Polling` false), any sequence of poll results leaves the state as it is |
| `DoorGameProperties.EscalationUsesCapturedCount` | FrontEnd/healthApp/app/DoorGame.tsx:118-124 | a failure after a reply that raised the count still escalates when the captured count was 0 |
| `DoorGameProperties.NoEscalationAfterCountedSet` | FrontEnd/healthApp/app/DoorGame.tsx:106-189 | after a set reached with a non-zero count and its 15-tick story, the next door's interval captured that count, and a failure there never escalates |
| `DoorGameProperties.SetCompletes` | FrontEnd/healthApp/app/DoorGame.tsx:106-172 | in the model, a matching reply at or above the target shows the story, and 15 ticks later the terminal action has run once |
| `DoorGameSpec.ApiUrl` | FrontEnd/healthApp/app/DoorGame.tsx:32 | the base URL gives back host and port when the host has no colon |
| `DoorGameSpec.ApiUrlRoundTrip` | FrontEnd/healthApp/app/DoorGame.tsx:32 | "http://" + ip + ":" + port splits back into ip and port at its first colon after the scheme when the ip has no colon |
| `DoorGameSpec.SessionIdFor` | FrontEnd/healthApp/app/DoorGame.tsx:29 | the id starts with "session_" and ends with the random suffix |
| `DoorGameProperties.SessionIdInjective` | FrontEnd/healthApp/app/DoorGame.tsx:29 | session ids from different clock readings or different suffixes differ |
| `DoorGameSpec.Step` | FrontEnd/healthApp/app/DoorGame.tsx:48-381 | only the address fields change the address, and only a start or a countdown tick changes the session id |
| `DoorGameProperties.TimersOnlyOnDoorAndStory` | FrontEnd/healthApp/app/DoorGame.tsx:266-381 | `Enabled`: the door and story screens render no control the model covers (the back button is left out), so only poll replies and countdown ticks act there |
| `DoorGameProperties.TwoSetGameStarts` | FrontEnd/healthApp/app/DoorGame.tsx:48-86 | from mount, typing 10 and 2 and a 200 reply give the door of set 1 with session A |
| `DoorGameProperties.TwoSetGameSecondSet` | FrontEnd/healthApp/app/DoorGame.tsx:106-201 | 10 movements for A and 15 ticks give the door of set 2 with session B, countdown 15, with the count of set 1 kept |
| `DoorGameProperties.TwoSetGameIgnoresStaleReply` | FrontEnd/healthApp/app/DoorGame.tsx:106 | a late reply for session A changes nothing in set 2 |
| `DoorGameProperties.TwoSetGameEnds` | FrontEnd/healthApp/app/DoorGame.tsx:106-226 | 10 movements for B and 15 ticks return to the input step with set 0, empty inputs, and the address kept |
| `DoorGameProperties.ReplayNeverEscalates` | FrontEnd/healthApp/app/DoorGame.tsx:11-129 | after the game ends, typing 10 and 2 and a 200 reply open a door whose interval captured the old count 10, where a failed poll changes nothing |
| `DoorGameProperties.FailedStart` | FrontEnd/healthApp/app/DoorGame.tsx:75-85 | a 500 reply to the start leaves no session on the config step, where no poll result changes anything |
| `DoorGameScreen.DoorGame.constructor` | FrontEnd/healthApp/app/DoorGame.tsx:11-21 | the fields start as the initial state, which satisfies the invariant |
| `DoorGameScreen.DoorGame.RerunPollingEffect` | FrontEnd/healthApp/app/DoorGame.tsx:95-129 | the polling effect's re-run, as `RunPollingEffect` |
| `DoorGameScreen.DoorGame.HandleStartGame` | FrontEnd/healthApp/app/DoorGame.tsx:48-86 | from the input screen, the new state is `AfterStartGame` of the old one, and the invariant is kept |
| `DoorGameScreen.DoorGame.PollTick` | FrontEnd/healthApp/app/DoorGame.tsx:95-129 | the new state is `AfterPoll` of the old one, and the invariant is kept |
| `DoorGameScreen.DoorGame.StartStoryCountdown` | FrontEnd/healthApp/app/DoorGame.tsx:158-159 | the new state is `StartStoryCountdown` of the old one |
| `DoorGameScreen.DoorGame.CountdownTick` | FrontEnd/healthApp/app/DoorGame.tsx:160-171 | the new state is `AfterCountdownTick` of the old one, and the invariant is kept |
| `DoorGameScreen.DoorGame.FinishStoryCountdown` | FrontEnd/healthApp/app/DoorGame.tsx:163-169 | the interval is cleared and then a new set starts when `currentSet < parseInt(sets)`, otherwise the game resets |
| `DoorGameScreen.DoorGame.RunStoryCountdown` | FrontEnd/healthApp/app/DoorGame.tsx:158-172 | the running interval ticks exactly as many times as its count had left, then is cleared, and the state is that many `AfterCountdownTick` steps from the start; the invariant is kept |
| `DoorGameScreen.DoorGame.StartNewSet` | FrontEnd/healthApp/app/DoorGame.tsx:174-201 | the new state is `AfterNewSet` of the old one |
| `DoorGameScreen.DoorGame.ResetGame` | FrontEnd/healthApp/app/DoorGame.tsx:217-226 | the new state is `AfterReset` of the old one |
| `DoorGameScreen.DoorGame.SaveConfig` | FrontEnd/healthApp/app/DoorGame.tsx:253-255 | from the config screen, the new state is `AfterSaveConfig` of the old one, and the invariant is kept |
| `DoorGameScreen.DoorGame.OpenConfig` | FrontEnd/healthApp/app/DoorGame.tsx:381 | from the input screen, the new state is `AfterOpenConfig` of the old one, and the invariant is kept |
| `DoorGameScreen.DoorGame.SetReps` | FrontEnd/healthApp/app/DoorGame.tsx:365-371 | on the input screen only reps changes, the polling effect re-runs, and the invariant is kept |
| `DoorGameScreen.DoorGame.SetSets` | FrontEnd/healthApp/app/DoorGame.tsx:372-378 | on the input screen only sets changes, and the invariant is kept |
| `DoorGameScreen.DoorGame.SetServerIP` | FrontEnd/healthApp/app/DoorGame.tsx:273-278 | on the config screen only the server address changes, and the invariant is kept |
| `DoorGameScreen.DoorGame.SetServerPort` | FrontEnd/healthApp/app/DoorGame.tsx:279-285 | on the config screen only the server port changes, and the invariant is kept |
| `DoorGameScreen.DoorGame.GetApiUrl` | FrontEnd/healthApp/app/DoorGame.tsx:32 | the base URL, from which host and port can be read back when the host has no colon |

## Left out

- `fetchWithTimeout`, `AbortController` and the 5 s and 10 s timeouts (lines 35-46) are not modelled. A timed-out request is one more way for a request to throw.
- `fetchTotalReps`, the `totalReps` slot and its refresh on entering the input step (lines 88-93, 203-215) are not modelled. They are a network read that only feeds a display.
- The "Test Connection", "Check Backend Status" and "Debug Connection" buttons (lines 294-345, 384-416) use fetch and XMLHttpRequest and only show alerts. The model covers their one state change: a successful test calls `saveConfig`.
- `alert` and `console` calls, the `Animated` door and story animations, the JSX and the styles are presentation only. So is the unused `storyText` slot.
- Timer interleavings are not modelled. Each poll reply, each countdown tick and each door-to-story change is one atomic step, so several things the code allows are missing:
  - the 1 s delay before the story step;
  - several delayed story starts from repeated replies during that second;
  - overlapping poll requests;
  - a reply in flight across a session change, which the old closure compares against the old session id.
- `DoorGameProperties.CurrentSetNeverExceedsSets`: holds of the atomic model only. In the code the poll interval fires every 1000 ms (line 126) and the step change waits 1000 ms after the reply (lines 112-115). A request already in flight can then match the session a second time and schedule a second `startStoryCountdown`. Both countdowns captured the same `currentSet`, both terminal actions call `startNewSet`, and `setCurrentSet(prev => prev + 1)` (line 189) runs twice, so `currentSet` can pass the parsed sets (with sets "4" it reaches 5).
- `DoorGameProperties.SetCompletes`: holds of the atomic model only. For the same reason, in the code one completed set can run the terminal action twice.
- A button press and the end of the request it sends are one atomic step. So are the countdown's last tick and the end of `startNewSet`'s request. The reset request can take up to 10 s (line 61) while the input screen stays live. In that window "Change Server Settings", a second "Start Adventure" or edits to reps and sets are possible in the code, and an ok reply then moves to the door step (lines 67-69) from whatever screen is shown. The model has none of these overlaps.
- Unmounting through the back button is not modelled. It does not clear the story interval.
- `generateSessionId` reads `Date.now` and `Math.random`. Methods take the new id as a parameter. `SessionIdFor` takes the clock reading and the base-36 suffix as parameters.
- JSON numbers are modelled as unbounded integers. A non-integer or missing `movement_count` is not modelled, and neither is parseInt's loss of precision above 2^53.
- `DoorGameScreen.DoorGame.GetApiUrl`: states the round trip only for hosts without a colon. An IPv6 literal would not split back at its first colon.
- `DoorGameSpec.ApiUrl`: the same, for the same reason.
