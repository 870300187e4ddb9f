# The batch executor, its interruption, and the layers below it

A Dafny model of the part of the runtime that turns a batch of computer actions into
input on a machine a person is also using, and proofs of what it guarantees.

**The executor.** `ActionQueue::run` carries out a batch action by action. Between any two
awaits a real input event, a session transition, a cancel or a heuristic detection may
land. `Worlds` and `Queues` say what each step does to one value: the session, the
human-input monitor, the cancellation tokens, the real cursor, and the schedule (`turns`)
of what the driver answers and what happens during each await. `Executor.Machine` is the
same executor written as the source writes it, over a `Session` and a `HumanInputMonitor`
whose methods update their fields, with the source's loops; every method is proved to take
the objects exactly where `Worlds` and `Queues` say. `Batches.Act` runs a whole batch on
the objects and ensures the main results about them.

**The rules.** `Rules` says, without mentioning how the queue is written, when a call may
follow the calls already made in the same action (`May`) and when a log entry may follow
the log so far (`Next`, `Sound`). `Rules` proves what any sound log guarantees; `Safety`,
`Borrowing`, `Clicking` and `Running` prove that every run writes a sound log, whatever the
schedule; `Gating` gives each refusal its one reason; `Reporting` and `Outcomes` tie the reports
to the log; `Theorems` states the results for whole runs; `Stamping` and `Operations` set the
stamps behind the interrupt metric against the calls and operations that put input out;
`Interruption` says, operation by operation, what may still come out after a grab; `Modes` says
when the pointer's mode fits its session; `Findings` states where the code falls short of its own
documentation, and exactly when.

**Below it.** `Paths` and `Gestures` are the drag, scroll, motion and click loops with a
token that may fire at any look; `Coordinates` and `Actions` the coordinate
arithmetic and the policy layer's pre-check; `Sessions` and `HumanInput` the two shared
objects with every history of requests and signals; `Requests` and `Frames` the two mutable
indexes against a history; `KeyEvents`, `PointerDetail` and `Redaction` the three
printer/parser pieces.

Real events reach the session as `install_human_takeover_hook` arranges it, with this
session holding the control lock: the event raises the pending flag, bumps the generation,
fires every registered batch token and moves the session to UserTakeover before anything
else runs. A session's policy and target are fixed while one of its batches runs. The
driver is trusted for this: a pointer motion under a fired token posts nothing and says so; a
cursor read tells the truth; a warp, a borrowed click or a restore that succeeds leaves the
cursor at its point, and one that does not leaves it where it was; a drag or a located scroll may
leave it anywhere; and no other call moves it. No event moves the real cursor without raising
the real flag and the generation: a hand that moves the mouse unseen, while the tap is not
active, does not occur. `Theorems.CursorStaysWithTheUser` and the final cursor of
`Theorems.EveryBorrow` rest on that.

## Where code and documentation disagree

- *Nothing is emitted after a grab.* Two families of inputs fail. The focus guard of Type and Key
  awaits, and nothing is checked between that await and the keyboard call, so a text is sent after
  a grab that lands in it: `Findings.TypedAfterGrabExactly`, `Findings.TextIsTypedAfterAGrab`. And
  the driver never shows the token to the keyboard, so when a grab lands between two events of a
  text or a combination the remaining ones still go out, exactly when any remain:
  `Interruption.TextFollowsAGrab`, `KeyEvents.KeysAfterAGrab`. A borrowed click or double click
  never looks either. What can follow a grab inside each kind of call is
  `Interruption.WhatFollowsAGrab`; of a direct click it is only the rest of the pair under way, of
  a drag one operation and the release, of a scroll one operation. No later call puts anything out
  but such a text: `Interruption.NothingButTextFollows`.
- *Ignore: "keep going".* All three callers of `apply_takeover` (boundary, wait poll and
  pointer-delta probe) cancel the rest of the batch under every policy:
  `Findings.BoundaryStopsExactly`, `Findings.ProbeStopsExactly`, and over a whole action
  `Findings.IgnoreGoesOnExactly`, with the run `Findings.IgnoredJumpStops`.
- *The probe compares the real cursor with where it was left.* It compares it with the virtual
  pointer, which a Move carries away from the real cursor. Without the tap a Move and two waits
  therefore look like a user: in a run with no event at all AutoPause pauses the session, and
  Ignore cancels the rest of the batch: `Findings.IgnoredJumpStops`.
- *A real event takes over the batch it interrupts.* If no boundary follows, the flag stays up
  through release and cancels the whole next batch: `Findings.FlagOutlivesRelease`,
  `Findings.ReleasedBoundaryExactly`, with the run `Findings.GrabInTheLastAction`.
- *The pointer's mode follows the session.* A borrow sets UserTakeover whenever its warp fails or
  the token fired, even in a session that stays Active, and Isolated after a restore, even if the
  user took over during it; a boundary sets UserTakeover even on a session already stopped:
  `Modes.BorrowModeExactly`, `Modes.CheckModeExactly`, over whole runs without a borrow
  `Modes.RunEndsInStepExactly`, and with the schedules `Modes.FailedWarpShowsATakeover`,
  `Modes.RestoreHidesATakeover` and `Modes.AStoppedSessionIsShownTakenOver`.
- *Every synthetic input is stamped.* The documentation names every drag step, scroll event and
  keyboard event, and the restore. The restore of the physical fallback moves the real cursor and
  is never stamped; every other call of a click that puts input out is:
  `Stamping.StampedExactlyWithoutRestore`, with `Stamping.RestoreIsUnstamped`.
  A click's presses and releases share the one stamp of their call.
  Drag, scroll and text take one stamp before the whole call
  (`Operations.ExecuteStampsOnce`), so of a drag every operation after the first, of a scroll every
  chunk after the first (every chunk, when it moves first) and of a text or a combination every key
  event after the first goes unstamped: `Operations.DragOperations`,
  `Operations.ScrollOperations`, `Operations.TextOperations`, `Operations.ComboOperations`.
- *The interrupt telemetry of a grabbed borrow is real.* No takeover is marked before the next
  boundary or poll, so its report gives no `human_to_takeover_ms`, or measures it against the mark
  of an earlier takeover: `Outcomes.BorrowMarksNothing`, `Theorems.TelemetryIs`.
- *"A linear drag path", eased "in-out cubic".* It is neither: the easing is quadratic on each half:
  `Paths.EaseAccelerates`, `Paths.PathAccelerates`.
- *Pixel regions must be inside the image.* The i64 sums wrap in a release build, so a huge
  region passes: `Coordinates.AcceptedPixelRegion`, `Coordinates.OversizedRegionAccepted`.
- *The whole screen as a normalised region.* It never covers the last column or row:
  `Coordinates.NormalizedRegionInside`.
- *Modifiers are pressed.* A combination presses at most one modifier key, though all flags are
  set: `KeyEvents.AllModifiersPressed`.
- *"Oldest" tombstone.* Eviction takes an arbitrary key of a set, possibly the one just added:
  `Requests.RequestRegistry.Cancel`.

## Model

| member | source | states |
|---|---|---|
| Theorems.InterruptEndsTheBatch | crates/cu-runtime/src/action_queue.rs:156-192 | over every run and schedule: after a real event, pause, takeover, stop or cancel, no later action reaches the driver, no further call of the interrupted one posts anything but a text or combination whose focus read had begun, and all later actions are reported cancelled; a call under way ends as `Interruption` says |
| Theorems.RealEventIsNeverLost | crates/cu-runtime/src/action_queue.rs:166-181 | a real event's flag is up at the end of the run, or a later boundary or poll consumed it and an Active or Paused session went to UserTakeover |
| Theorems.EveryRunIsSound | crates/cu-runtime/src/action_queue.rs:126-872 | every run writes a sound log, never leaves the physical-fallback mode behind, keeps flags and state coherent, and if Ok reports one action per index, cancelled from some point on |
| Theorems.NoSpuriousCancellation | crates/cu-runtime/src/action_queue.rs:156-231 | with the tap active, a calm session's run that ends with its token live has cancelled nothing but what follows a gate refusal |
| Theorems.CursorStaysWithTheUser | crates/cu-runtime/src/action_queue.rs:193-231 | without PhysicalAllowed a whole run leaves the real cursor where it was unless a real event moved it |
| Theorems.EveryClick | crates/cu-runtime/src/action_queue.rs:346-674 | every schedule of a click: its calls follow the backend rules, a success names the backend whose click landed, a failure means none landed, and an undisturbed failure has tried every permitted backend |
| Theorems.EveryBorrow | crates/cu-runtime/src/action_queue.rs:892-1066 | the fallback's calls are none, warp, warp and click, or warp, click and restore; the outcome tells which; undisturbed it runs to the restore or the warp failed; and where the cursor is left |
| Theorems.ReportNamesBackend | crates/cu-runtime/src/action_queue.rs:775-801 | the pointer field parsed into a success report is exactly what the detail was built from |
| Theorems.OrdinaryStarts | crates/cu-runtime/src/sessions.rs:83-116 | every fresh Active session with a registered batch is a beginning the results above are about, whatever the schedule |
| Theorems.GrabMeansFired | crates/cu-runtime/src/action_queue.rs:1262-1272 | at the end of every run the generation has moved since its beginning only if the token fired, so the two tests of a grab agree |
| Theorems.GuardsExactly | crates/cu-runtime/src/action_queue.rs:892-940 | told from the read's answer, the token, the last hardware event and the clock: the fallback gives up without the cursor, refuses for the user exactly when an event is less than 2000 ms old at the end of the read, refuses for a grab exactly when the token has fired otherwise, all without a further call, and else goes on to its warp |
| Theorems.TelemetryIs | crates/cu-runtime/src/action_queue.rs:1243-1255 | which instants of the monitor each telemetry field of a report measures, and when it is absent or 0 |
| Outcomes.ReportsTellTheLog | crates/cu-runtime/src/action_queue.rs:775-801 | every report of every Ok run, told from the calls of its action and their answers: cancelled means no call, a gate's refusal is that gate's one reason and nothing was sent, and otherwise it is a success exactly when a click landed, the driver said yes to what was sent, or it is a move or a finished wait; a failure carries the driver's error or detail, a success the backend that landed |
| Outcomes.ClickTells | crates/cu-runtime/src/action_queue.rs:346-674 | an error the driver gives for any click of the dispatcher is the outcome, and only a borrowed click's error is a driver error |
| Outcomes.MovesAndWaitsAsAsked | crates/cu-runtime/src/action_queue.rs:675-745 | after a move the virtual pointer is at the global image of its point, and after a wait at least its length has passed |
| Outcomes.BorrowMarksNothing | crates/cu-runtime/src/action_queue.rs:1004-1016 | a borrow marks no takeover, so its report measures one only against a mark from before it |
| Gating.GatesRefuseExactly | crates/cu-runtime/src/action_queue.rs:193-329 | each refusal of the gates if and only if its own reason holds, told from the action, the scope and the fields of the focus read; what is let through is the action as asked; and the focus is read exactly for keyboard actions under a target that names something |
| Stamping.ClickStamps | crates/cu-runtime/src/action_queue.rs:1226-1238 | under every schedule a click takes one stamp for each warp, each borrowed click and each direct or AX click that landed, and one more for a double click cut between its pairs |
| Stamping.StampedExactlyWithoutRestore | crates/cu-runtime/src/human_input.rs:208-217 | of the calls of a click that put input out, told from the call, its answer and the cut first pair, exactly the restores have no stamp; so all have theirs if and only if no restore succeeded |
| Stamping.RestoreIsUnstamped | crates/cu-runtime/src/action_queue.rs:1020-1035 | a borrowing double click takes two stamps, for its warp and its click, and none for its restore, which puts input out exactly when it is answered so |
| Operations.ExecuteStampsOnce | crates/cu-runtime/src/action_queue.rs:766-771 | drag, scroll and keyboard actions take exactly one stamp, at the clock reading before they are sent |
| Operations.DragOperations | crates/cu-driver-macos/src/mouse.rs:336-405 | that stamp covers all a drag posts if and only if it is cancelled before the press; left alone it posts three more operations than its path has points |
| Operations.ScrollOperations | crates/cu-driver-macos/src/mouse.rs:443-497 | and all a scroll posts if and only if one chunk suffices and no move comes first, or there is nothing to scroll |
| Operations.TextOperations | crates/cu-driver-macos/src/keyboard.rs:299-327 | and all a text posts if and only if it is empty: every character takes at least two events |
| Operations.ComboOperations | crates/cu-driver-macos/src/keyboard.rs:208-232 | and all a combination posts if and only if it is empty |
| Interruption.ProgramsAreTheLoops | crates/cu-driver-macos/src/lib.rs:274-391 | for every call that posts: its program, with the token firing before any step, puts out exactly what the verified loop posts when the next look is the first to see it |
| Interruption.WhatFollowsAGrab | crates/cu-driver-macos/src/lib.rs:274-391 | what still goes out of the call under way when the token fires before any step of it: of a direct click the rest of its pair, of a warp or restore its motion if the look is past, of a drag one operation and the release, of a scroll one operation, of a borrowed click, a text and a combination everything left |
| Interruption.DragFollows | crates/cu-driver-macos/src/mouse.rs:336-405 | a drag releases the button after a grab exactly when its second look is past and it is not over, with at most one operation before |
| Interruption.TextFollowsAGrab | crates/cu-driver-macos/src/keyboard.rs:299-327 | after a grab between the events of a text the rest of them goes out, and so something follows if and only if an event is left |
| Interruption.NothingButTextFollows | crates/cu-runtime/src/action_queue.rs:1262-1272 | over every run: a call made after an interrupting event puts nothing out, but a text or combination whose focus read was made before it |
| Rules.NothingAfterInterrupt | crates/cu-runtime/src/action_queue.rs:1262-1272 | in any sound log, what may still be called after an interrupting event |
| Rules.GatesHold | crates/cu-runtime/src/action_queue.rs:193-329 | for every posted call of any sound log: policy before cursor motion, a hit-test at the point that saw the target's own window before any press, a declined direct click before any borrow, a focus read that saw the named application before text, AX for single clicks only, no scroll without a coordinate under a target, every point in the target, and exactly the resolved action sent |
| Rules.VerdictExactly | crates/cu-runtime/src/action_queue.rs:1077-1096 | the hit-test verdict from the fields of the answer: Clear exactly for the same window and process with an equal or unknown bundle, Blocked exactly for any other window, NoWindow and Unverifiable exactly when none was returned or the call failed |
| Rules.FocusExactly | crates/cu-runtime/src/action_queue.rs:254-275 | the focus test passes exactly when the application read live equals the target in everything it names |
| Rules.SentAsAsked | crates/cu-runtime/src/action_queue.rs:1099-1189 | every posted call of any sound log is what the batch asked for, field by field: deltas, button, single or double, text, keys, endpoints, duration, and the process of a press |
| Rules.SleepsAreShort | crates/cu-runtime/src/action_queue.rs:708-745 | a wait looks again at least every 50 ms |
| Rules.BackendsInOrder | crates/cu-runtime/src/action_queue.rs:346-674 | each gate and backend is used at most once in an action, in a fixed order |
| Rules.OccludedClickIsIsolated | crates/cu-runtime/src/action_queue.rs:376-450 | a click on a point where the target's own window was not seen makes at most one AX press, only under a confirmed other window, and no other input |
| Rules.BorrowInOrder | crates/cu-runtime/src/action_queue.rs:940-1045 | a borrowed click directly follows a successful warp to its point with the token live, a restore directly follows the click and returns to the warp's origin, and a warp under a fired token is the last call |
| Rules.DeedsChain | crates/cu-runtime/src/action_queue.rs:346-674 | the calls of each action of a sound log form a chain of permitted steps |
| Running.BoundaryTakesOver | crates/cu-runtime/src/action_queue.rs:166-181 | a pending real event at a boundary or poll stops the batch, moves Active or Paused to UserTakeover with the token fired, lowers the flag, and leaves the heuristic channel alone |
| Running.WaitKeeps | crates/cu-runtime/src/action_queue.rs:708-760 | a wait keeps the run's invariants at every poll and lasts to its deadline unless interrupted |
| Running.InterruptedWaitFired | crates/cu-runtime/src/action_queue.rs:708-745 | in a calm session with the tap active, an interrupted wait means the token fired |
| Running.GatesKeep | crates/cu-runtime/src/action_queue.rs:207-329 | what the gates let through is ready to dispatch: resolved, contained, permitted, and focused |
| Running.OneActionKeeps | crates/cu-runtime/src/action_queue.rs:156-869 | one whole iteration keeps the invariant, whichever way it ends |
| Running.RunKeeps | crates/cu-runtime/src/action_queue.rs:126-872 | so does the rest of the run |
| Borrowing.FallbackKeeps | crates/cu-runtime/src/action_queue.rs:892-1066 | the whole borrow keeps the invariant, tells the truth, never ends in the fallback mode, and makes no call at all when the cursor cannot be read or the user is at it |
| Clicking.ClickKeeps | crates/cu-runtime/src/action_queue.rs:346-674 | the dispatcher keeps the invariant on every path |
| Clicking.BorrowIsHonest | crates/cu-runtime/src/action_queue.rs:985-1055 | a borrow reports success exactly when its click landed, with the true restore and human-input fields |
| Reporting.RunReports | crates/cu-runtime/src/action_queue.rs:775-871 | an Ok run has one report per action, report k carrying index k, everything after a cancelled report cancelled, and everything after an action that saw the token fire cancelled |
| Reporting.CalmRun | crates/cu-runtime/src/action_queue.rs:156-231 | nothing is cancelled without a reason, from any boundary on |
| Reporting.FillsUp | crates/cu-runtime/src/action_queue.rs:1202-1206 | filling keeps the reports so far and cancels exactly the rest |
| Findings.TypedAfterGrabExactly | crates/cu-runtime/src/action_queue.rs:246-281 | a keyboard action is sent under a fired token if and only if the token fired during its focus read |
| Findings.TextIsTypedAfterAGrab | crates/cu-runtime/src/action_queue.rs:763-774 | a whole run in which it is |
| Findings.BoundaryStopsExactly | crates/cu-runtime/src/action_queue.rs:165-192 | a boundary stops if and only if a flag it listens to is up, the token fired or the session is not Active, under every policy, Ignore included; and what a detection does to the session under each |
| Findings.ProbeStopsExactly | crates/cu-runtime/src/action_queue.rs:856-869 | the pointer-delta probe stops the batch if and only if the cursor is farther than the threshold from the last known place once too often in a row, under every policy; what it does to the session, and which place is known next |
| Findings.IgnoreGoesOnExactly | crates/cu-runtime/src/action_queue.rs:1208-1222 | under Ignore, in an otherwise undisturbed session without the tap, the batch goes on past an action if and only if no boundary, poll or probe finds anything, no gate refuses and the trace is written |
| Findings.IgnoredJumpStops | crates/cu-runtime/src/action_queue.rs:844-869 | a run of a Move and three waits with the shipped detector and no event at all: the second wait's probe stops it, the third wait is cancelled, and the session is as the policy says, so untouched under Ignore |
| Findings.StaleFlagCancelsEverything | crates/cu-runtime/src/action_queue.rs:166-181 | a real flag left from before the batch cancels all of it and posts nothing |
| Findings.FlagOutlivesRelease | crates/cu-runtime/src/sessions.rs:276-280 | releasing control does not lower the flag, so the next batch, live and Active, is wholly cancelled |
| Findings.ReleasedBoundaryExactly | crates/cu-runtime/src/action_queue.rs:165-192 | the first boundary after a release stops the batch if and only if a flag it listens to is still up |
| Findings.GrabInTheLastAction | crates/cu-runtime/src/action_queue.rs:156-181 | a run that ends with the flag up, and the next batch it cancels |
| Modes.EventsFallInStep | crates/cu-runtime/src/sessions.rs:139-146 | mode and state agree after an await if and only if they did before it or a transition happened in it |
| Modes.BorrowModeExactly | crates/cu-runtime/src/action_queue.rs:892-1066 | exactly when mode and state agree after a borrow begun in step, as a condition on its schedule of answers and events: nothing lent; a failed or fired warp, or a grabbed click, with the session taken over by then or moving as the overlay hides; or a restore with no pause or takeover standing, or a move as the overlay shows |
| Modes.CheckModeExactly | crates/cu-runtime/src/action_queue.rs:165-188 | exactly when they agree after a boundary or poll, whichever channel it heeds |
| Modes.RunEndsInStepExactly | crates/cu-runtime/src/action_queue.rs:126-872 | under any policy that does not lend the cursor, a run that starts in step ends in step if and only if no boundary or poll consumed a real event of a stopped session, or a transition came after it |
| Modes.FailedWarpShowsATakeover | crates/cu-runtime/src/action_queue.rs:963-979 | a double click whose warp fails, with no event at all, shows an Active session as taken over |
| Modes.RestoreHidesATakeover | crates/cu-runtime/src/action_queue.rs:1020-1045 | a double click with a grab during its restore leaves UserTakeover shown as Isolated |
| Modes.AStoppedSessionIsShownTakenOver | crates/cu-runtime/src/action_queue.rs:167-177 | a run that leaves a stopped session shown as taken over |
| Batches.Start | crates/cu-runtime/src/runtime.rs:147-166 | a fresh session is usable, and the monitor has the takeover hook for it |
| Batches.Act | crates/cu-runtime/src/runtime.rs:1186-1361 | a batch registered, run and ended on the objects: its log obeys the rules, its reports are complete and answer every fired token, and the session is usable again |
| Executor.Machine.Run | crates/cu-runtime/src/action_queue.rs:126-872 | the loop, on the objects, leaves exactly the specified world, reports and result |
| Executor.Machine.RunAction | crates/cu-runtime/src/action_queue.rs:156-329 | one iteration, on the objects |
| Executor.Machine.DispatchAction | crates/cu-runtime/src/action_queue.rs:763-856 | dispatch, report and trace record, on the objects |
| Executor.Machine.Report | crates/cu-runtime/src/action_queue.rs:775-801 | the report of one outcome |
| Executor.Machine.ProbePointer | crates/cu-runtime/src/action_queue.rs:856-869 | the pointer-delta probe, on the objects |
| Executor.Machine.CheckTakeover | crates/cu-runtime/src/action_queue.rs:165-192 | the boundary checks, on the objects |
| Executor.Machine.WaitFor | crates/cu-runtime/src/action_queue.rs:708-745 | the wait loop, on the objects |
| Executor.Machine.CheckGates | crates/cu-runtime/src/action_queue.rs:207-329 | the gates, on the objects, with each refusal's one reason |
| Executor.Machine.DispatchClick | crates/cu-runtime/src/action_queue.rs:346-674 | the click dispatcher, on the objects |
| Executor.Machine.OcclusionVerdict | crates/cu-runtime/src/action_queue.rs:1077-1096 | the hit-test verdict from the fields of the answer, and the one await it costs a targeted session |
| Executor.Machine.PhysicalFallbackClick | crates/cu-runtime/src/action_queue.rs:892-1066 | the borrow, on the objects |
| Executor.Machine.FillReports | crates/cu-runtime/src/action_queue.rs:1202-1206 | the filling loop |
| Executor.Machine.Happen | crates/cu-runtime/src/runtime.rs:147-166 | one event, hook included, on the objects |
| Sessions.RunsStayCoherent | crates/cu-runtime/src/sessions.rs:264-311 | after every sequence of requests the session is aborted exactly when it is not Active |
| Sessions.StopIsAbsorbing | crates/cu-runtime/src/sessions.rs:264-286 | nothing leaves Stopping, Stopped and Failed |
| Sessions.FiredExactlyWhenCancelled | crates/cu-runtime/src/sessions.rs:315-335 | a batch token reads fired if and only if some request fired it while it was registered |
| Sessions.NoAba | crates/cu-runtime/src/sessions.rs:288-330 | a batch in flight at a pause, takeover or stop stays cancelled whatever follows, and a batch begun later gets a live token |
| Sessions.Session.TransitionTo | crates/cu-runtime/src/sessions.rs:264-311 | the whole new state, the tokens fired, and which requests are refused without effect |
| Sessions.Session.CancelInFlight | crates/cu-runtime/src/sessions.rs:315-319 | fires exactly the registered tokens |
| Sessions.Session.EndBatch | crates/cu-runtime/src/sessions.rs:333-335 | unregisters exactly one token |
| Sessions.ControlLock.TryAcquire | crates/cu-runtime/src/sessions.rs:359-371 | at most one holder; a holder's own request succeeds |
| HumanInput.RealFlagTracksEvents | crates/cu-runtime/src/human_input.rs:150-157 | over every history: the real flag is up exactly when a hardware event came after the last consume, and the generation counts hardware events |
| HumanInput.RealChannelIsIndependent | crates/cu-runtime/src/human_input.rs:198-200 | deleting every heuristic signal from a history changes nothing but the heuristic flag |
| HumanInput.InputStopMeasuresLastInput | crates/cu-runtime/src/human_input.rs:234-250 | after one hardware event the interrupt metric is the exact distance from the event to the last input, also one made during the detection latency, and 0 if that came first or never |
| HumanInput.HumanInputMonitor.OnHumanEvent | crates/cu-runtime/src/human_input.rs:313-336 | every field the event writes, and the hook's effect on session and tokens |
| HumanInput.HumanInputMonitor.IdleSeconds | crates/cu-runtime/src/human_input.rs:304-309 | the whole seconds between the last hardware event and the clock |
| Gestures.DragCore | crates/cu-driver-macos/src/mouse.rs:336-405 | the exact posted trace for every cancellation schedule |
| Gestures.DragNeverStuck | crates/cu-driver-macos/src/mouse.rs:336-405 | no schedule leaves the button pressed |
| Gestures.OnlyReleaseAfterCancel | crates/cu-driver-macos/src/mouse.rs:358-405 | after a look sees the token, nothing but the one release is posted |
| Gestures.ReleasePoint | crates/cu-driver-macos/src/mouse.rs:414-424 | the release is where the last operation was: at the end on completion, else at the last dragged point or the start |
| Gestures.AcceptedDragStaysInside | crates/cu-runtime/src/action_queue.rs:1299-1309 | a drag whose endpoints pass the containment gate posts no point outside the target, under any schedule |
| Gestures.DragWaitsBounded | crates/cu-core/src/coordinates.rs:282-300 | the scheduled sleeps exceed the duration by at most one step |
| Gestures.WaitIsTheShare | crates/cu-core/src/coordinates.rs:282-300 | each wait is the whole milliseconds of an equal share of the duration |
| Gestures.Durations | crates/cu-driver-macos/src/mouse.rs:336-345 | drags and motions last what is asked, within their limits and defaults |
| Gestures.MovePointerSmooth | crates/cu-driver-macos/src/mouse.rs:43-84 | the exact posted trace of a cancellable motion, and when it completes |
| Gestures.ClickDirect | crates/cu-driver-macos/src/lib.rs:302-309 | a direct click posts its pair unless the one look sees the token |
| Gestures.DoubleClickDirect | crates/cu-driver-macos/src/mouse.rs:199-234 | the exact posted pairs for every schedule: the second pair is dropped when the token fires after the first; every press is released |
| Gestures.ClickBorrowed | crates/cu-driver-macos/src/mouse.rs:239-247 | a borrowed click or double click posts its motion and its pairs, and never looks |
| Gestures.ScrollCore | crates/cu-driver-macos/src/mouse.rs:443-497 | the exact posted trace for every schedule, and when it completes |
| Gestures.ScrollConserves | crates/cu-driver-macos/src/mouse.rs:468-495 | the chunks sum exactly to the rounded deltas on both axes, and there are as many as the longer axis needs |
| Gestures.ScrollPrefix | crates/cu-driver-macos/src/mouse.rs:468-495 | every prefix lies between nothing and the totals, in steps of at most 30 that never reverse |
| Gestures.ScrollTotalIsNearest | crates/cu-driver-macos/src/mouse.rs:462-465 | a delta scrolls by its nearest whole number |
| Paths.EaseRange | crates/cu-core/src/coordinates.rs:288-296 | easing stays in the unit interval and is exact at its ends |
| Paths.EaseMonotone | crates/cu-core/src/coordinates.rs:288-296 | easing never goes back |
| Paths.EaseAccelerates | crates/cu-core/src/coordinates.rs:288-296 | constant acceleration over the first half, the same slowing down over the second, and mirror symmetry |
| Paths.PathAccelerates | crates/cu-core/src/coordinates.rs:276-301 | so do the points of a path, step by step on both axes |
| Paths.StepCountIsLeast | crates/cu-core/src/coordinates.rs:276-287 | the least number of steps that is at least four, eight points each up to two hundred, and ninety a second |
| Paths.PathStaysInBounds | crates/cu-core/src/coordinates.rs:276-301 | every point of a path lies in the bounds its endpoints lie in |
| Paths.DragPath | crates/cu-core/src/coordinates.rs:276-301 | the filling loop yields exactly the specified path |
| Coordinates.ImageRoundTrip | crates/cu-core/src/coordinates.rs:131-164 | pixel to global and back is the identity on every pixel if and only if the last row's centre is inside the scaled bounds |
| Coordinates.GlobalRoundTrip | crates/cu-core/src/coordinates.rs:131-164 | global to pixel and back moves a point by at most half a pixel per axis |
| Coordinates.GlobalHasPixel | crates/cu-core/src/coordinates.rs:149-164 | exactly which global points have a pixel |
| Coordinates.CropKeepsRoundTrip | crates/cu-driver/src/types.rs:55-62 | a crop no taller for its width than the bounds it stands for round-trips, downscaled or not |
| Coordinates.CropOutputExactly | crates/cu-driver/src/types.rs:55-62 | within the width limit a crop is unchanged, beyond it the limit wide and proportionally high, rounded down |
| Coordinates.ShortEnoughRoundTrips | crates/cu-core/src/coordinates.rs:102-164 | an image no taller than its scaled bounds round-trips |
| Coordinates.NormalizedLandsInImage | crates/cu-core/src/coordinates.rs:113-122 | every accepted normalised point is an image pixel within 1 of its exact position |
| Coordinates.NormalizedMonotone | crates/cu-core/src/coordinates.rs:113-122 | normalised conversion is monotone per axis |
| Coordinates.NormalizedIsNearest | crates/cu-core/src/coordinates.rs:113-122 | a normalised coordinate goes to its nearest pixel, and at the far edge to the last |
| Coordinates.PixelPointIsNearest | crates/cu-core/src/coordinates.rs:167-189 | a pixel coordinate goes to the global point of its nearest pixel |
| Coordinates.PixelSpacing | crates/cu-core/src/coordinates.rs:131-145 | pixels are a display width's share apart on both axes, from the display's origin |
| Coordinates.NormalizedRoundTrip | crates/cu-core/src/coordinates.rs:113-145 | pixel to normalised and back is the identity |
| Coordinates.AcceptedPointsAreDisplayed | crates/cu-core/src/coordinates.rs:167-189 | under the round-trip condition every accepted point is in the display |
| Coordinates.PixelRegionExact | crates/cu-core/src/coordinates.rs:224-271 | without i64 overflow a pixel region is accepted if and only if it is inside the image, and unchanged |
| Coordinates.AcceptedPixelRegion | crates/cu-core/src/coordinates.rs:224-271 | an accepted pixel region is inside the image and unchanged if and only if its sums do not overflow |
| Coordinates.OversizedRegionAccepted | crates/cu-core/src/coordinates.rs:224-271 | an accepted region that is not inside the image |
| Coordinates.NormalizedRegionInside | crates/cu-core/src/coordinates.rs:224-271 | an accepted normalised region is non-empty and inside the image, and reaches the last column or row only by starting there |
| Coordinates.RequestedIsNearest | crates/cu-core/src/coordinates.rs:224-271 | a pixel region asks for the rectangle of its nearest pixels, with no side empty |
| Coordinates.NormalizedRegionExact | crates/cu-core/src/coordinates.rs:224-271 | an accepted normalised region runs from the pixel of its corner to just before the pixel of the opposite one |
| Actions.ResolveActionPoints | crates/cu-policy/src/bounds.rs:10-64 | the pre-check collects exactly the points the queue would touch, and fails exactly when the queue would |
| Actions.BatchInBounds | crates/cu-policy/src/bounds.rs:67-71 | the batch passes if and only if no action would fail to resolve, wherever the pointer is by then |
| Actions.ResolvesAsAsked | crates/cu-runtime/src/action_queue.rs:1099-1189 | resolution fails exactly when a named point is outside the image, and otherwise yields the one action that is as asked in every field |
| Actions.GateCoversTouchedPoints | crates/cu-runtime/src/action_queue.rs:1277-1309 | the containment gate looks at exactly the points the driver is sent to |
| Actions.TouchedPointsAreDisplayed | crates/cu-runtime/src/action_queue.rs:1099-1189 | under the round-trip condition every point an action touches is displayed |
| Requests.RequestRegistry.Register | crates/cu-runtime/src/requests.rs:66-73 | the token is cancelled at registration exactly when a missed cancel of its key is waiting |
| Requests.RequestRegistry.Unregister | crates/cu-runtime/src/requests.rs:76-79 | removes exactly the named handle |
| Requests.RequestRegistry.Cancel | crates/cu-runtime/src/requests.rs:86-110 | fires exactly the named request's token, for its own session only; a miss is remembered within the limit, at the price of an arbitrary tombstone |
| Requests.WaitingMeansMissed | crates/cu-runtime/src/requests.rs:66-110 | a cancel is waiting if and only if the key was missed and since then neither registered nor evicted |
| Frames.FrameStore.Insert | crates/cu-runtime/src/frames.rs:40-57 | the store refines its history through every insertion |
| Frames.FrameStore.EnforceLimit | crates/cu-runtime/src/frames.rs:84-94 | eviction leaves exactly the most recent ids up to the limit, with their values |
| Frames.FrameStore.PopOldest | crates/cu-runtime/src/frames.rs:86-91 | each round removes the oldest id from list and map alike; its early exits are unreachable |
| Frames.FrameStore.Clear | crates/cu-runtime/src/frames.rs:79-82 | forgets the history, keeps the counter |
| Frames.FrameStore.Retained | crates/cu-runtime/src/frames.rs:40-94 | the store holds exactly the most recent distinct ids up to the limit, without duplicates, in strictly increasing ordinal order |
| Frames.SuffixIsMostRecent | crates/cu-runtime/src/frames.rs:40-57 | being retained means fewer than `limit` distinct ids were inserted later |
| Frames.InsertKeepsOrder | crates/cu-runtime/src/frames.rs:40-57 | re-inserting and evicting is the recent end of the longer history |
| KeyEvents.TypeText | crates/cu-driver-macos/src/keyboard.rs:299-327 | the loop posts exactly the specified events, whenever the token fires among them |
| KeyEvents.KeysAfterAGrab | crates/cu-driver-macos/src/keyboard.rs:299-327 | when the token fires after k events, the events posted under it are those from the k-th on, so there are some if and only if k is less than their number |
| KeyEvents.TypingDecodes | crates/cu-driver-macos/src/keyboard.rs:299-327 | the events of every text decode back to it |
| KeyEvents.TypingReleases | crates/cu-driver-macos/src/keyboard.rs:299-327 | every key pressed is released and shift is up before the next character |
| KeyEvents.TableInjective | crates/cu-driver-macos/src/keyboard.rs:235-296 | no two characters share a key and shift |
| KeyEvents.ParseCombo | crates/cu-driver-macos/src/keyboard.rs:163-188 | exactly which key lists are accepted, and the combination they mean |
| KeyEvents.PostCombo | crates/cu-driver-macos/src/keyboard.rs:208-232 | the exact events of a combination, whenever the token fires among them |
| KeyEvents.ComboReleases | crates/cu-driver-macos/src/keyboard.rs:208-232 | a combination presses each key once and releases it if and only if its action key is not the key already pressed for its modifier |
| KeyEvents.AllModifiersPressed | crates/cu-driver-macos/src/keyboard.rs:191-232 | which modifiers have their key pressed among the posted events: all of them if and only if there is at most one, unless the action key is itself a modifier's key |
| KeyEvents.PressedIsFirst | crates/cu-driver-macos/src/keyboard.rs:191-200 | the modifier whose key is pressed is the first of the set in a fixed order |
| KeyEvents.ModifierKeysBack | crates/cu-driver-macos/src/keyboard.rs:191-200 | each modifier's key is its own, and types nothing |
| KeyEvents.ShiftIsTheModifier | crates/cu-driver-macos/src/keyboard.rs:299-327 | a shifted character is typed inside a press of the shift modifier's own key, and no other character touches it |
| PointerDetail.DetailParses | crates/cu-runtime/src/action_queue.rs:1243-1255 | every detail string the queue builds, with any u64 telemetry, parses back to exactly what it was built from |
| PointerDetail.ParsePointerDetail | crates/cu-runtime/src/action_queue.rs:1344-1381 | the parsing loop computes the specified parse, early return included |
| Redaction.RedactJson | crates/cu-core/src/security.rs:242-259 | the loop over a JSON value computes the specified redaction |
| Redaction.RedactionIsQuotient | crates/cu-core/src/security.rs:242-259 | two values redact equal if and only if they differ only in strings directly under secret keys |
| Redaction.RedactedIsSame | crates/cu-core/src/security.rs:242-259 | a value and its redaction are such a pair, and redaction is idempotent |
| Redaction.SecretExactly | crates/cu-core/src/security.rs:242-249 | a key is secret exactly when "token" or "secret" is spelled in it, in any mixture of cases |

## Left out

- Hand motion that the event tap does not see. The pointer-delta probe exists for it; here the probe only meets a cursor that was elsewhere to begin with, or that a virtual move has left behind.
- The pasteboard: a clipboard text appears in `Interruption` as the CMD+V combination that pastes it, when the text could be set. An accessibility press is one operation.
- A monitor that is absent: `act` always passes one. The takeover hook is taken as installed, and this session as the holder of the control lock.
- `HumanInputMonitor::reset`, `clear_real_takeover_hook` and direct `set_state` calls; nothing on the path of a batch makes them.
- Rounding of `f64`: lengths and coordinates are reals. The distance in `drag_path` is a parameter of the path, since it only sets the number of steps. NaN and infinities are not modelled.
- Wrap-around of the `u64` event generation and synthetic counter; a `u64` measurement is a precondition of `PointerDetail.DetailParses`.
- Durations in the reports, the contents of trace records, and display ids; the trace appears as an await whose failure ends the run.
- The error texts of resolution failures: the report carries the gate that refused.
- Key names: trimming and letter case of `virtual_keycode` and `modifier_flag`, and the named-key table itself.
- PointerDetail.ParsePointerDetail: the float grammar of `physical_cursor_delta_px` is reduced to unsigned decimal integers, because the queue only ever prints 0 there.
- Executor.Machine.OcclusionVerdict: the window a Blocked verdict carries is dropped, because nothing reads it.
- Batches.Act: the checks `act` makes before its batch runs (capability, cancelled while queued, control lock, confirmation, stale frame) and the wait policy after it, because they belong to the request layer, not to the executor.
- The waits after a batch, snapshots, frames of `observe`, and the checks of `act` before its batch runs (capability, control lock, stale frames).
- The synchronous part of other requests is one event each; other batches of the session only register and end, since the busy lock keeps them from running.
- `ActionBatch::validate`, the confirmation policy, error-code tables, tokens and their hashing, sockets, the Swift bridge and the CoreGraphics calls themselves.
- `FrameStore::get_mut`, `len` and `is_empty`, and the overlay's drawing: they add only easy members.
