/** The task automaton as pure functions: what one handler does with one
    recognition result, what one cycle does in a given task state, and what a run
    of cycles does. The environment (window capture, the text recognizer and the
    mouse actuator) appears only as oracle values in a `World`; what the automaton
    does to it is recorded as a trace of `Event`s. */
module Automaton {
  import opened Options
  import opened Geometry
  import opened Recognition

  /** The three tasks: start the dungeon, wait for the whistle, whistle fight. */
  datatype Task = StartDungeon | WaitWhistle | WhistleFight

  /** Polling interval, in seconds, that belongs to each task. */
  function IntervalOf(t: Task): (s: nat)
    ensures s > 0
  {
    match t
    case StartDungeon => 2
    case WaitWhistle => 10
    case WhistleFight => 3
  }

  /** The only transition each task can take. */
  function Next(t: Task): (n: Task)
    ensures n != t
  {
    match t
    case StartDungeon => WaitWhistle
    case WaitWhistle => WhistleFight
    case WhistleFight => StartDungeon
  }

  /** Status messages sent to the controller, without their formatted text. */
  datatype Msg =
    | EngineStarting
    | EngineFailed
    | Spotted(text: string)
    | ClickedDice
    | ClickedWhistle
    | ClickedAdjust
    | ClickedConfirm
    | CycleFailed

  /** What the automaton does to its environment, in order. */
  datatype Event =
    | Click(target: Point, screen: Option<Point>, ok: bool)  // one click attempt at a client point
    | Emit(msg: Msg)                                         // one status message
    | Sleep(millis: nat)                                     // one pause of the loop
    | Finished                                               // the terminal completion signal

  /** The actuator's answer to one click: the window was not found, or it was found
      with these rectangles and the input was delivered or failed. */
  datatype ClickReply = WindowMissing | WindowFound(rects: WindowRects, delivered: bool)

  /** One capture followed by one recognition: either raised, or returned pages. */
  datatype Perception = Raised | Perceived(pages: seq<Page>)

  /** The environment's answers in one round of the confirm loop: the click, and
      the re-capture and re-recognition that follow a successful click. */
  datatype Round = Round(click: ClickReply, check: Perception)

  /** Everything the environment answers during one cycle. `act(i)` answers a
      click on the i-th region of the page; `adjust` answers the adjust click;
      `rounds(i)` answers the i-th round of the confirm loop. */
  datatype World = World(perception: Perception, act: nat -> ClickReply,
                         adjust: ClickReply, rounds: nat -> Round)

  /** A handler returns whether it changed the task, unless an exception escapes. */
  datatype Result = Done(changed: bool) | Fault

  /** What a handler did, and how it ended. */
  datatype Reaction = Reaction(events: seq<Event>, result: Result)

  /** What one cycle did, the task afterwards, and whether the cycle failed. */
  datatype CycleOut = CycleOut(events: seq<Event>, task: Task, faulted: bool)

  predicate Delivered(r: ClickReply) {
    r.WindowFound? && r.delivered
  }

  /** The events a handler may produce itself: clicks, pauses, and the match and
      click messages. */
  predicate IsHandlerEvent(e: Event) {
    e.Click? || e.Sleep? ||
    (e.Emit? && (e.msg.Spotted? || e.msg.ClickedDice? || e.msg.ClickedWhistle? ||
                 e.msg.ClickedAdjust? || e.msg.ClickedConfirm?))
  }

  /** One click attempt at client point `target`: when the window is found, the
      click goes to the mapped screen point and succeeds iff the input went through. */
  function ClickEvent(target: Point, r: ClickReply): (e: Event)
    ensures e.Click? && e.target == target && e.ok == Delivered(r)
    ensures e.screen.Some? <==> r.WindowFound?
    ensures r.WindowFound? ==> ScreenToClient(r.rects, e.screen.value) == target
  {
    match r
    case WindowMissing => Click(target, None, false)
    case WindowFound(w, d) => Click(target, Some(ClientToScreen(w, target)), d)
  }

  function Then(pre: seq<Event>, r: Reaction): Reaction {
    Reaction(pre + r.events, r.result)
  }

  lemma AppendAssoc(a: seq<Event>, b: seq<Event>, c: seq<Event>)
    ensures (a + b) + c == a + (b + c)
  {
  }

  // ---------------------------------------------------------------------------
  // Start-dungeon handler

  /** A dice-button region at index `j` whose click is delivered. */
  predicate DiceHit(lines: seq<Obs>, act: nat -> ClickReply, j: nat)
    requires j < |lines|
  {
    IsDiceButton(lines[j]) && Delivered(act(j))
  }

  /** Scan the regions from index `from` in order; click each dice button; the
      first delivered click ends the scan with a change of task. */
  function StartScan(lines: seq<Obs>, act: nat -> ClickReply, from: nat): (r: Reaction)
    ensures r.result.Done?
    ensures r.result.changed <==> exists j | from <= j < |lines| :: DiceHit(lines, act, j)
    decreases |lines| - from
  {
    if from >= |lines| then Reaction([], Done(false))
    else
      var o := lines[from];
      if !IsDiceButton(o) then StartScan(lines, act, from + 1)
      else
        var reply := act(from);
        var tried := [Emit(Spotted(o.text)), ClickEvent(QuadCenter(o.quad), reply)];
        if Delivered(reply) then
          assert DiceHit(lines, act, from);
          Reaction(tried + [Emit(ClickedDice)], Done(true))
        else Then(tried, StartScan(lines, act, from + 1))
  }

  // ---------------------------------------------------------------------------
  // Wait-whistle handler

  /** What the wait-whistle handler does with one region: report a rolling banner;
      report and click a whistle prompt, pausing after a delivered click. */
  function WaitStep(o: Obs, reply: ClickReply): seq<Event>
  {
    (if IsRollingBanner(o) then [Emit(Spotted(o.text))] else []) +
    (if IsWhistle(o) then
       [Emit(Spotted(o.text)), ClickEvent(QuadCenter(o.quad), reply)] +
       (if Delivered(reply) then [Emit(ClickedWhistle), Sleep(500)] else [])
     else [])
  }

  /** Scan all regions from index `from` in order, handling each one; the task
      changes iff some whistle prompt was seen, whether or not its click was
      delivered. */
  function WaitScan(lines: seq<Obs>, act: nat -> ClickReply, from: nat): (r: Reaction)
    ensures r.result.Done?
    ensures r.result.changed <==> exists j | from <= j < |lines| :: IsWhistle(lines[j])
    decreases |lines| - from
  {
    if from >= |lines| then Reaction([], Done(false))
    else
      var rest := WaitScan(lines, act, from + 1);
      Reaction(WaitStep(lines[from], act(from)) + rest.events,
               if IsWhistle(lines[from]) then Done(true) else rest.result)
  }

  lemma WaitScanUnfold(lines: seq<Obs>, act: nat -> ClickReply, i: nat)
    requires i < |lines|
    ensures WaitScan(lines, act, i).events == WaitStep(lines[i], act(i)) + WaitScan(lines, act, i + 1).events
    ensures WaitScan(lines, act, i).result.changed == (IsWhistle(lines[i]) || WaitScan(lines, act, i + 1).result.changed)
  {
  }

  // ---------------------------------------------------------------------------
  // Whistle-fight handler

  /** The adjust candidate is clicked once if there is one; a delivered click is
      reported. */
  function AdjustPhase(lines: seq<Obs>, reply: ClickReply): seq<Event>
  {
    match LastQuad(lines, IsAdjustPrompt)
    case None => []
    case Some(q) =>
      [ClickEvent(QuadCenter(q), reply)] + (if Delivered(reply) then [Emit(ClickedAdjust)] else [])
  }

  /** The re-recognition after a delivered click shows that the confirm button is gone. */
  predicate Settles(rd: Round) {
    Delivered(rd.click) && rd.check.Perceived? && |rd.check.pages| > 0 &&
    rd.check.pages[0].Some? && !ConfirmVisible(rd.check.pages[0].value)
  }

  /** The round ends without a result and the loop goes on: the click failed, the
      recognizer returned nothing, or the confirm button is still there. */
  predicate Retries(rd: Round) {
    !Delivered(rd.click) ||
    (rd.check.Perceived? &&
     (rd.check.pages == [] || (rd.check.pages[0].Some? && ConfirmVisible(rd.check.pages[0].value))))
  }

  /** The events of one confirm round: the click; after a delivered click, the
      report and the 1.5 s pause, and the 0.5 s pause when the re-recognition
      came back empty; after a failed click, the 0.5 s pause. */
  function RoundEvents(target: Point, rd: Round): seq<Event> {
    var click := ClickEvent(target, rd.click);
    if !Delivered(rd.click) then [click, Sleep(500)]
    else [click, Emit(ClickedConfirm), Sleep(1500)] +
         (if rd.check.Perceived? && rd.check.pages == [] then [Sleep(500)] else [])
  }

  /** A round cannot both retry and settle. */
  lemma RetriesExcludesSettles(rd: Round)
    ensures !(Retries(rd) && Settles(rd))
  {
  }

  /** Rounds `i` to 2 of the confirm loop, each a click at `target` followed, when
      the click is delivered, by a re-check after a pause. A round that retries
      hands over to the next; one that settles completes the task; any other
      round raised while re-checking. */
  function ConfirmRounds(target: Point, rounds: nat -> Round, i: nat): (r: Reaction)
    requires i <= 3
    ensures r.result != Done(true) || exists k | i <= k < 3 :: Settles(rounds(k))
    decreases 3 - i
  {
    if i == 3 then Reaction([], Done(false))
    else
      var rd := rounds(i);
      if Retries(rd) then Then(RoundEvents(target, rd), ConfirmRounds(target, rounds, i + 1))
      else Reaction(RoundEvents(target, rd), if Settles(rd) then Done(true) else Fault)
  }

  /** The fight handler: pick the last adjust prompt and the last confirm button,
      click the adjust prompt once, then run the confirm loop on the button. */
  function FightSpec(lines: seq<Obs>, adjust: ClickReply, rounds: nat -> Round): (r: Reaction)
    ensures r.result.Done? && r.result.changed ==> ConfirmVisible(lines)
  {
    var adjusted := AdjustPhase(lines, adjust);
    match LastQuad(lines, IsConfirmCandidate)
    case None => Reaction(adjusted, Done(false))
    case Some(q) => Then(adjusted, ConfirmRounds(QuadCenter(q), rounds, 0))
  }

  /** The fight handler in terms of its confirm candidate. */
  lemma FightSpecSplit(lines: seq<Obs>, adjust: ClickReply, rounds: nat -> Round, confirm: Option<Quad>)
    requires confirm == LastQuad(lines, IsConfirmCandidate)
    ensures confirm.None? ==> FightSpec(lines, adjust, rounds) == Reaction(AdjustPhase(lines, adjust), Done(false))
    ensures confirm.Some? ==>
              FightSpec(lines, adjust, rounds) ==
              Then(AdjustPhase(lines, adjust), ConfirmRounds(QuadCenter(confirm.value), rounds, 0))
  {
  }

  // ---------------------------------------------------------------------------
  // One cycle and a run of cycles

  /** The handler for the current task, and only that one. */
  function Dispatch(t: Task, lines: seq<Obs>, w: World): (r: Reaction)
    ensures t != WhistleFight ==> r.result.Done?
  {
    match t
    case StartDungeon => StartScan(lines, w.act, 0)
    case WaitWhistle => WaitScan(lines, w.act, 0)
    case WhistleFight => FightSpec(lines, w.adjust, w.rounds)
  }

  /** A fault is reported once and followed by a one-second pause. */
  const FaultEvents: seq<Event> := [Emit(CycleFailed), Sleep(1000)]

  /** One recognition cycle in task `t`: capture and recognize; on an empty result
      do nothing; otherwise run the current task's handler; then pause for the
      interval of the task now current. Any exception ends the cycle as a fault. */
  function CycleSpec(t: Task, w: World): (r: CycleOut)
    ensures r.task == t || r.task == Next(t)
    ensures r.faulted ==> r.task == t
    ensures |r.events| > 0 &&
            r.events[|r.events| - 1] == (if r.faulted then Sleep(1000) else Sleep(IntervalOf(r.task) * 1000))
  {
    match w.perception
    case Raised => CycleOut(FaultEvents, t, true)
    case Perceived(pages) =>
      if pages == [] then CycleOut([Sleep(IntervalOf(t) * 1000)], t, false)
      else match pages[0]
        case None => CycleOut(FaultEvents, t, true)
        case Some(lines) =>
          var h := Dispatch(t, lines, w);
          match h.result
          case Fault => CycleOut(h.events + FaultEvents, t, true)
          case Done(changed) =>
            var next := if changed then Next(t) else t;
            CycleOut(h.events + [Sleep(IntervalOf(next) * 1000)], next, false)
  }

  /** Cycles `c` to `n - 1`, each in the world `worlds` gives it; the events of all
      of them and the task at the end. */
  function RunCycles(t: Task, worlds: nat -> World, c: nat, n: nat): (r: (seq<Event>, Task))
    requires c <= n
    decreases n - c
  {
    if c == n then ([], t)
    else
      var o := CycleSpec(t, worlds(c));
      var rest := RunCycles(o.task, worlds, c + 1, n);
      (o.events + rest.0, rest.1)
  }

  /** A whole run: announce the engine; if it cannot be built, report that and
      stop; otherwise run `n` cycles (the stop request is seen before the next);
      in both cases send the completion signal last. */
  function RunSpec(t: Task, engineReady: bool, worlds: nat -> World, n: nat): (r: (seq<Event>, Task))
  {
    if !engineReady then ([Emit(EngineStarting), Emit(EngineFailed), Finished], t)
    else
      var cycles := RunCycles(t, worlds, 0, n);
      ([Emit(EngineStarting)] + cycles.0 + [Finished], cycles.1)
  }
}
