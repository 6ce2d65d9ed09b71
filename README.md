# ydcb-auto: the recognition thread's task automaton

ydcb-auto drives a game window. A background thread captures the window and reads its text with an OCR engine. It then acts on what it reads, clicking buttons through simulated mouse input. It cycles through three tasks:

- **start dungeon**: click the "auto dice" button;
- **wait whistle**: click every "whistle" prompt;
- **whistle fight**: click the adjust-value prompt once, then click "confirm" and check that the button has gone, at most three times.

Each task has its own polling interval: 2 s, 10 s and 3 s. A successful task hands over to the next one, and the last task hands back to the first.

This project models that thread, the `OCRThread` class of `gui.py`. It has these parts:

- `Geometry`: the quad centre of a recognized region. Also the client-to-screen arithmetic that every click goes through.
- `Recognition`: recognized regions, the substring and exact-text tests with their confidence thresholds, and the last-match-wins scan of the fight screen.
- `Automaton`: the specification. Every handler, one cycle and a whole run are pure functions. They return the ordered events the thread produces (click attempts, status messages, pauses) and how the handler ended. An exception that escapes is modelled as `Fault`.
- `OcrThreadModel`: the thread as a class. Its fields `task`, `interval` and `running` are updated in place, as the Python fields `current_task`, `recognition_interval` and `is_running` are. A ghost `trace` records the events. Each handler, cycle and run method is proved against the `Automaton` function it implements, and keeps the invariant `interval == IntervalOf(task)`. The two page scans are proved against `Recognition` functions.
- `HandlerProperties`, `HandlerEvents` and `CycleProperties`: what the handlers, a cycle and a run promise, proved over the specification functions.
- `Findings`: the fight handler's confirm loop as it is written (see below).

Window lookup, screen capture, the OCR engine and mouse input are not modelled as code. They become inputs.

- A click attempt receives a `ClickReply`. Either the window is missing, or its outer and client rectangles are known and the input was or was not delivered.
- A cycle's recognition result is a `Perception`: either it raised, or it is a list of pages.
- The start and wait handlers get one click reply per region index, `act`.
- The fight handler gets a reply for the adjust click, plus one `Round` per confirm attempt. A `Round` holds the click reply and the re-recognition after it.

Three behaviours of gui.py worth noting:

- The start handler clicks every dice button, in order, until one click succeeds. It does not stop at the first match.
- In the confirm loop, a failed click uses up one of the three attempts.
- In the wait handler, the 0.5 s pause follows only a successful whistle click.

## Model

| member | source | states |
|---|---|---|
| Geometry.TruncQuarter | gui.py:88-89 | `int()` of a quarter truncates toward zero: the result is within one quarter of s/4, rounded toward zero, for negative sums too |
| Geometry.QuadCenter | gui.py:122-123 | the click target of a region (mean of its x's and y's, truncated) lies inside the region's bounding box, and is non-negative when all corners are |
| Geometry.BorderWidth | gui.py:84 | the border is half the width difference, rounded down: 2b <= difference < 2b + 2 |
| Geometry.ClientToScreen | gui.py:88-89 | the screen point is the client point shifted by (left + border, top + title); mapping it back gives the client point |
| Geometry.ClientToScreenInjective | gui.py:84-89 | distinct client points are clicked at distinct screen points |
| Geometry.ClientAreaInsideFrame | gui.py:84-89 | the bottom-right client corner is clicked one border above the outer bottom edge and one border (at most one pixel more) left of the outer right edge |
| Geometry.MappingExample | gui.py:84-89 | outer (100,100,500,700), client (0,0,380,560): border 10, title 30, (50,50) goes to (160,180) |
| Recognition.Contains | gui.py:120 | Python's `in` on strings: the text occurs as a contiguous substring (definition, no contract) |
| Recognition.IsDiceButton | gui.py:120 | the dice button: "自动骰子" or its misread "自动般子" in the text, confidence above 0.5 (definition, no contract) |
| Recognition.IsRollingBanner | gui.py:147 | the rolling banner: "自动投掷骰子中" or "自动投掷般子中", confidence above 0.5 (definition, no contract) |
| Recognition.IsWhistle | gui.py:152 | the whistle prompt: "吹响" in the text, confidence above 0.5 (definition, no contract) |
| Recognition.IsAdjustPrompt | gui.py:187 | the adjust prompt: "增加" or "减少" in the text, confidence above 0.7 (definition, no contract) |
| Recognition.IsConfirmButton | gui.py:190 | the confirm button: text exactly "确定", confidence above 0.7; the same test as the re-check at gui.py:228 (definition, no contract) |
| Recognition.LastIndex | gui.py:181-192 | none iff no region matches; otherwise a matching region with no match after it (a later match overwrites an earlier one) |
| Recognition.LastQuad | gui.py:187-191 | none iff no region matches |
| Recognition.ConfirmIsNeverAdjust | gui.py:187-191 | the `elif` never hides a confirm button: the exact label contains neither adjust keyword |
| Automaton.IntervalOf | gui.py:60 | every task has a positive polling interval (2 s set here, 10 s at line 133, 3 s at line 169) |
| Automaton.Next | gui.py:132 | a transition always leaves the current task (start to wait here, wait to fight at line 168, fight to start at line 234) |
| Automaton.ClickEvent | gui.py:69-111 | a click succeeds iff the window was found and the input was delivered; its screen point exists iff the window was found and maps back to the target |
| Automaton.StartScan | gui.py:113-136 | the start handler always completes, and changes the task iff some dice button's click is delivered |
| Automaton.WaitScan | gui.py:138-173 | the wait handler always completes, and changes the task iff some region is a whistle prompt, delivered or not |
| Automaton.WaitStep | gui.py:143-164 | one region of the wait scan: banner report; whistle report, click, and on delivery the click report and the 0.5 s pause (definition; partner `HandlerEvents.WaitStepEvents`, `HandlerProperties.WaitClicksEveryWhistle`) |
| Automaton.AdjustPhase | gui.py:194-203 | the adjust click on the last adjust prompt, reported when delivered (definition; partner `HandlerProperties.FightClicks`) |
| Automaton.Settles | gui.py:213-237 | a round settles when its click is delivered and the re-recognized page no longer shows the button (definition) |
| Automaton.Retries | gui.py:213-244 | a round retries when its click failed, the re-recognition is empty, or the button is still shown (definition; `Automaton.RetriesExcludesSettles` shows it never also settles) |
| Automaton.RoundEvents | gui.py:212-244 | the events of one round (definition; partner `HandlerProperties.RoundClicks`: exactly one click, on the button) |
| Automaton.ConfirmRounds | gui.py:212-244 | the confirm loop completes the task only if some round settles (the button is gone after a delivered click) |
| Automaton.FightSpec | gui.py:175-246 | the fight handler completes the task only if the page shows the confirm button |
| Automaton.Dispatch | gui.py:282-287 | the start and wait handlers never raise |
| Automaton.CycleSpec | gui.py:265-297 | a cycle moves to the current task or the next one; a failed cycle keeps the task; the last event is a 1 s pause after a fault, else the interval of the task now current |
| Automaton.RunCycles | gui.py:265-297 | cycles c..n-1, each continuing from the task the previous one left (definition; partners `CycleProperties.CyclesNeverFinish`, `CycleProperties.ThreeCyclesReturnToStart`) |
| Automaton.RunSpec | gui.py:248-304 | a whole run: engine announcement, the cycles or the engine failure, and the completion signal (definition; partners `CycleProperties.RunFinishesOnce`, `CycleProperties.EngineFailureIsFatal`) |
| HandlerEvents.StartScanEvents | gui.py:113-136 | the start handler emits only clicks, pauses and its own match and click messages |
| HandlerEvents.WaitScanEvents | gui.py:138-173 | the same for the wait handler |
| HandlerEvents.ConfirmRoundsEvents | gui.py:212-244 | the same for the confirm loop |
| HandlerEvents.FightEvents | gui.py:175-246 | the same for the fight handler |
| HandlerEvents.DispatchEvents | gui.py:282-287 | no handler emits the cycle-error, engine or completion messages |
| HandlerProperties.StartClicksUpTo | gui.py:115-136 | every dice button up to and including the first one whose click is delivered is clicked, in page order, and nothing after it; the task changes iff there is such a button |
| HandlerProperties.WaitClicksEveryWhistle | gui.py:142-164 | the clicks are exactly the centres of the whistle prompts, in page order, one each; regions that are not whistle prompts are never clicked |
| HandlerProperties.NoWhistleNoEffect | gui.py:147-173 | a page without a whistle prompt (a banner only, say) causes no click and no change |
| HandlerProperties.NoWhistleNoCentres | gui.py:152 | no whistle prompt gives no whistle centre |
| HandlerProperties.ConfirmSettlesAt | gui.py:212-237 | if rounds i..k-1 retry and round k settles, the task changes after exactly k-i+1 clicks on the button |
| HandlerProperties.ConfirmNeverSettles | gui.py:212-246 | if every round retries, all remaining rounds click the button and the task stays |
| HandlerProperties.RoundClicks | gui.py:213 | every round makes exactly one click attempt, on the button |
| HandlerProperties.RetryRoundClicks | gui.py:238-244 | a retrying round adds one click and hands over to the next round |
| HandlerProperties.ConfirmChangesIff | gui.py:212-246 | the loop completes the task iff some round settles after every earlier round retried |
| HandlerProperties.ConfirmAttemptsBounded | gui.py:212 | at most 3 click attempts, failed ones included, all on the button |
| HandlerProperties.FightClicks | gui.py:195-246 | the adjust candidate is clicked first and once; every later click is on the confirm candidate, at most three; without a confirm candidate, no later click |
| HandlerProperties.AdjustNeverDecides | gui.py:201-203 | the adjust click's outcome never changes how the handler ends |
| HandlerProperties.FightChangesIff | gui.py:175-246 | the fight handler completes the task iff the page shows the button and some round settles after every earlier one retried |
| HandlerProperties.GoneAtSecondCheck | gui.py:212-237 | the button gone at the 2nd check: exactly 2 clicks, and the task changes |
| HandlerProperties.NeverGone | gui.py:212-246 | the button never gone: 3 clicks, and the task stays |
| HandlerProperties.ButtonPage | gui.py:177-206 | a page with only the button: no adjust click, and the handler is the confirm loop on its centre |
| CycleProperties.CycleAdvancesIff | gui.py:276-291 | a cycle moves the task on iff the current task's trigger is on the page; otherwise the task stays |
| CycleProperties.CycleReportsFaultOnce | gui.py:293-297 | a failed cycle emits exactly one error message and keeps the task; a successful one emits none |
| CycleProperties.EmptyResultIsIgnored | gui.py:276-291 | an empty result runs no handler: no click, no change, the current interval's pause |
| CycleProperties.ThreeCyclesReturnToStart | gui.py:132-235 | triggering the three tasks in order returns the automaton to the start task (transitions at lines 132-133, 168-169 and 234-235) |
| CycleProperties.CycleNeverFinishes | gui.py:265-297 | no cycle sends the completion signal |
| CycleProperties.CyclesNeverFinish | gui.py:265-297 | no run of cycles sends the completion signal |
| CycleProperties.RunFinishesOnce | gui.py:248-304 | every run announces the engine first and sends the completion signal exactly once, last |
| CycleProperties.EngineFailureIsFatal | gui.py:299-304 | an engine that cannot be built ends the run at once: no click, the task untouched |
| Findings.ConfirmRoundsAsWritten | gui.py:212-244 | as written, the loop raises iff some click is delivered |
| Findings.FightAsWritten | gui.py:175-246 | the fight handler with the confirm loop as written (definition; partner `Findings.FightAsWrittenNeverChanges`) |
| Findings.AsWrittenNeverChanges | gui.py:223 | as written, the confirm loop never completes the task |
| Findings.FightAsWrittenNeverChanges | gui.py:175-246 | as written, the fight handler never completes the task |
| Findings.AsWrittenDiverges | gui.py:223 | first click delivered and the button gone: the intended loop completes the task, the loop as written raises |
| OcrThreadModel.FindCandidates | gui.py:177-192 | the one-pass scan keeps exactly the last adjust prompt and the last confirm candidate |
| OcrThreadModel.ConfirmStillVisible | gui.py:226-230 | the re-check finds the button iff the page shows it |
| OcrThreadModel.OcrThread.constructor | gui.py:55-67 | a new thread is running, in the start task with interval 2, which satisfies the interval invariant |
| OcrThreadModel.OcrThread.Report | gui.py:126 | one status message is appended to the trace |
| OcrThreadModel.OcrThread.Pause | gui.py:291 | one pause is appended to the trace |
| OcrThreadModel.OcrThread.ClickAt | gui.py:69-111 | the click succeeds iff delivered; the trace gains that click event |
| OcrThreadModel.OcrThread.HandleStartDungeon | gui.py:113-136 | result, task and trace are those of `StartScan`; the interval invariant is kept |
| OcrThreadModel.OcrThread.HandleWaitRegion | gui.py:143-164 | one region of the wait scan: reports whether it is a whistle; the trace gains `WaitStep` |
| OcrThreadModel.OcrThread.HandleWaitWhistle | gui.py:138-173 | result, task and trace are those of `WaitScan`; the interval invariant is kept |
| OcrThreadModel.OcrThread.HandleWhistleFight | gui.py:175-246 | result, task and trace are those of `FightSpec`; the interval invariant is kept |
| OcrThreadModel.OcrThread.ClickAdjust | gui.py:195-203 | the trace gains the adjust phase of `FightSpec` |
| OcrThreadModel.OcrThread.ConfirmLoop | gui.py:206-246 | result and trace are those of `ConfirmRounds` from round 0 |
| OcrThreadModel.OcrThread.ConfirmRound | gui.py:212-244 | the round retries and settles exactly as `Retries` and `Settles` say; the trace gains `RoundEvents` |
| OcrThreadModel.OcrThread.Cycle | gui.py:265-297 | faulted, task and trace are those of `CycleSpec`; the interval invariant is kept |
| OcrThreadModel.OcrThread.HandleTask | gui.py:281-287 | runs the current task's handler only; result and trace are `Dispatch`'s; the task moves to the next iff the handler changed it |
| OcrThreadModel.OcrThread.ReportFault | gui.py:293-297 | the trace gains one error message and a 1 s pause |
| OcrThreadModel.OcrThread.Stop | gui.py:306-308 | the running flag is cleared |
| OcrThreadModel.OcrThread.Run | gui.py:248-304 | trace and final task are those of `RunSpec`; the interval invariant is kept; the flag stays set unless a stop request arrived |

## Left out

- Window lookup, window rectangles and input injection (gui.py:73-81, 96-104) are not modelled as calls. Each click attempt takes a `ClickReply`, which gives the rectangles and whether the input went through. Exceptions inside `click_at_position` are caught there and return false, so they count as an undelivered click.
- The 0.1 s settle pauses inside `click_at_position` (gui.py:97-103) and the `last_click_time` field (gui.py:61, 106) are not modelled. Nothing reads `last_click_time`.
- Screen capture (screen.py) and the OCR engine (gui.py:253-262, 274) are not modelled as code. A cycle's result is a `Perception` input, and a confirm round's re-recognition is part of its `Round`. screen.py raises instead of returning an empty image, so the `if img:` test is taken to always pass.
- Log output and the text of status messages are left out (setup_logger, gui.py:20-49). Status messages are modelled as the `Msg` kinds, with the recognized text kept only in `Spotted`. Confidence values and coordinates are not formatted into the messages.
- Threads and signals are left out. `run` is sequential, and the stop request (gui.py:306-308) is modelled as arriving after `stopAfter` cycles. The loop sees it before the next cycle.
- OcrThreadModel.OcrThread.Run: a stop request is never seen in the middle of a cycle. The flag is only read at the top of the loop, as in gui.py:265, but the interleaving of a real second thread is not modelled.
- Region centres are exact quarters of integer sums, truncated toward zero. The float mean of `np.mean` followed by `int()` gives the same value for integer corners.
- Pauses are recorded as `Sleep` events in the trace. No time passes.
- The dead `MainWindow.click_text` and `MainWindow.start_recognition`, the rest of `MainWindow` (gui.py:310-507) and build.py are not part of this model.

## Findings

| source | as written | input that shows it | evidently intended | confidence | as-written member | corrected member |
|---|---|---|---|---|---|---|
| gui.py:223 | after a delivered confirm click, the re-check calls `self.ocr.ocr`. No method of the class assigns `self.ocr`; the engine is a local of `run` (gui.py:253). The lookup raises, so the handler never completes its task | a fight page with the confirm button, whose first confirm click is delivered and whose re-recognized page no longer shows the button | re-recognize with the engine built in `run`, and complete the task when the button is gone | not executed | Findings.AsWrittenDiverges | HandlerProperties.ConfirmChangesIff |
