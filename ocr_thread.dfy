/** The recognition thread: its state (current task, polling interval, running
    flag) updated in place by the handlers, one cycle and the run loop. Every
    state-changing method is proved against the pure functions of `Automaton`;
    the ghost `trace` records, in order, what the thread does to its environment. */
module OcrThreadModel {
  import opened Options
  import opened Geometry
  import opened Recognition
  import opened Automaton

  /** The candidate scan of the fight screen: one pass over the page keeping the
      last adjust prompt and, for regions that are not adjust prompts, the last
      confirm button. */
  method FindCandidates(lines: seq<Obs>) returns (percent: Option<Quad>, confirm: Option<Quad>)
    ensures percent == LastQuad(lines, IsAdjustPrompt)
    ensures confirm == LastQuad(lines, IsConfirmCandidate)
  {
    percent, confirm := None, None;
    for i := 0 to |lines|
      invariant percent == LastQuad(lines[..i], IsAdjustPrompt)
      invariant confirm == LastQuad(lines[..i], IsConfirmCandidate)
    {
      var o := lines[i];
      assert lines[..i + 1][..i] == lines[..i];
      if IsAdjustPrompt(o) {
        percent := Some(o.quad);
      } else if IsConfirmButton(o) {
        confirm := Some(o.quad);
      }
    }
    assert lines[..|lines|] == lines;
  }

  /** The re-check of the confirm loop: does the page still show the button? */
  method ConfirmStillVisible(lines: seq<Obs>) returns (found: bool)
    ensures found <==> ConfirmVisible(lines)
  {
    found := false;
    var j := 0;
    while j < |lines|
      invariant 0 <= j <= |lines|
      invariant found ==> ConfirmVisible(lines)
      invariant !found ==> forall k | 0 <= k < j :: !IsConfirmButton(lines[k])
    {
      if IsConfirmButton(lines[j]) {
        found := true;
        break;
      }
      j := j + 1;
    }
  }

  class OcrThread {
    const windowTitle: string
    var task: Task
    var interval: nat
    var running: bool
    ghost var trace: seq<Event>

    /** The polling interval always belongs to the current task. */
    ghost predicate Valid()
      reads this
    {
      interval == IntervalOf(task)
    }

    constructor (windowTitle: string)
      ensures Valid()
      ensures this.windowTitle == windowTitle
      ensures task == StartDungeon && interval == 2 && running && trace == []
    {
      this.windowTitle := windowTitle;
      task := StartDungeon;
      interval := 2;
      running := true;
      trace := [];
    }

    /** One status message to the controller. */
    method Report(m: Msg)
      modifies this`trace
      ensures trace == old(trace) + [Emit(m)]
    {
      trace := trace + [Emit(m)];
    }

    /** One pause of the thread. */
    method Pause(millis: nat)
      modifies this`trace
      ensures trace == old(trace) + [Sleep(millis)]
    {
      trace := trace + [Sleep(millis)];
    }

    /** A click at client point `target`: look the window up, map the point to the
      screen, and click there; false when the window is missing or the input fails. */
    method ClickAt(target: Point, reply: ClickReply) returns (ok: bool)
      modifies this`trace
      ensures ok == Delivered(reply)
      ensures trace == old(trace) + [ClickEvent(target, reply)]
    {
      match reply
      case WindowMissing =>
        ok := false;
        trace := trace + [Click(target, None, false)];
      case WindowFound(rects, delivered) =>
        var screen := ClientToScreen(rects, target);
        ok := delivered;
        trace := trace + [Click(target, Some(screen), ok)];
    }

    /** The start-dungeon handler. */
    method HandleStartDungeon(lines: seq<Obs>, act: nat -> ClickReply) returns (changed: bool)
      requires Valid()
      modifies this`task, this`interval, this`trace
      ensures Valid()
      ensures changed == StartScan(lines, act, 0).result.changed
      ensures trace == old(trace) + StartScan(lines, act, 0).events
      ensures task == if changed then WaitWhistle else old(task)
    {
      ghost var whole := StartScan(lines, act, 0);
      var i := 0;
      while i < |lines|
        invariant 0 <= i <= |lines|
        invariant task == old(task) && interval == old(interval)
        invariant old(trace) + whole.events == trace + StartScan(lines, act, i).events
        invariant whole.result == StartScan(lines, act, i).result
      {
        ghost var before := trace;
        var o := lines[i];
        if IsDiceButton(o) {
          var target := QuadCenter(o.quad);
          Report(Spotted(o.text));
          var ok := ClickAt(target, act(i));
          ghost var tried := [Emit(Spotted(o.text)), ClickEvent(target, act(i))];
          AppendAssoc(before, [Emit(Spotted(o.text))], [ClickEvent(target, act(i))]);
          if ok {
            Report(ClickedDice);
            task := WaitWhistle;
            interval := 10;
            AppendAssoc(before, tried, [Emit(ClickedDice)]);
            return true;
          }
          AppendAssoc(before, tried, StartScan(lines, act, i + 1).events);
        }
        i := i + 1;
      }
      assert trace + [] == trace;
      return false;
    }

    /** One region of the wait-whistle scan. */
    method HandleWaitRegion(o: Obs, reply: ClickReply) returns (whistle: bool)
      modifies this`trace
      ensures whistle == IsWhistle(o)
      ensures trace == old(trace) + WaitStep(o, reply)
    {
      if IsRollingBanner(o) {
        Report(Spotted(o.text));
      }
      whistle := IsWhistle(o);
      if whistle {
        var target := QuadCenter(o.quad);
        Report(Spotted(o.text));
        var ok := ClickAt(target, reply);
        if ok {
          Report(ClickedWhistle);
          Pause(500);
        }
      }
    }

    /** The wait-whistle handler. */
    method HandleWaitWhistle(lines: seq<Obs>, act: nat -> ClickReply) returns (changed: bool)
      requires Valid()
      modifies this`task, this`interval, this`trace
      ensures Valid()
      ensures changed == WaitScan(lines, act, 0).result.changed
      ensures trace == old(trace) + WaitScan(lines, act, 0).events
      ensures task == if changed then WhistleFight else old(task)
    {
      var foundWhistle := false;
      ghost var whole := WaitScan(lines, act, 0);
      var i := 0;
      while i < |lines|
        invariant 0 <= i <= |lines|
        invariant task == old(task) && interval == old(interval)
        invariant old(trace) + whole.events == trace + WaitScan(lines, act, i).events
        invariant whole.result.changed == (foundWhistle || WaitScan(lines, act, i).result.changed)
      {
        ghost var before := trace;
        var whistle := HandleWaitRegion(lines[i], act(i));
        foundWhistle := foundWhistle || whistle;
        WaitScanUnfold(lines, act, i);
        AppendAssoc(before, WaitStep(lines[i], act(i)), WaitScan(lines, act, i + 1).events);
        i := i + 1;
      }
      assert trace + [] == trace;
      if foundWhistle {
        task := WhistleFight;
        interval := 3;
        return true;
      }
      return false;
    }

    /** The whistle-fight handler: click the adjust candidate once, then run the
      confirm loop on the confirm candidate. */
    method HandleWhistleFight(lines: seq<Obs>, adjust: ClickReply, rounds: nat -> Round)
      returns (result: Result)
      requires Valid()
      modifies this`task, this`interval, this`trace
      ensures Valid()
      ensures result == FightSpec(lines, adjust, rounds).result
      ensures trace == old(trace) + FightSpec(lines, adjust, rounds).events
      ensures task == if result == Done(true) then StartDungeon else old(task)
    {
      var percent, confirm := FindCandidates(lines);
      FightSpecSplit(lines, adjust, rounds, confirm);
      ClickAdjust(lines, percent, adjust);
      if confirm.None? {
        return Done(false);
      }
      ghost var adjusted := trace;
      var target := QuadCenter(confirm.value);
      result := ConfirmLoop(target, rounds);
      AppendAssoc(old(trace), AdjustPhase(lines, adjust), ConfirmRounds(target, rounds, 0).events);
      if result == Done(true) {
        task := StartDungeon;
        interval := 2;
      }
    }

    /** The adjust click of the fight handler, on the last adjust prompt if any. */
    method ClickAdjust(lines: seq<Obs>, percent: Option<Quad>, adjust: ClickReply)
      requires percent == LastQuad(lines, IsAdjustPrompt)
      modifies this`trace
      ensures trace == old(trace) + AdjustPhase(lines, adjust)
    {
      if percent.Some? {
        var ok := ClickAt(QuadCenter(percent.value), adjust);
        if ok {
          Report(ClickedAdjust);
        }
      }
    }

    /** Up to three confirm rounds on `target`, ending at the first round that
      settles or raises. */
    method ConfirmLoop(target: Point, rounds: nat -> Round) returns (result: Result)
      modifies this`trace
      ensures result == ConfirmRounds(target, rounds, 0).result
      ensures trace == old(trace) + ConfirmRounds(target, rounds, 0).events
    {
      ghost var whole := ConfirmRounds(target, rounds, 0);
      ghost var rest := whole;
      var i := 0;
      result := Done(false);
      while i < 3
        invariant 0 <= i <= 3
        invariant rest == ConfirmRounds(target, rounds, i)
        invariant old(trace) + whole.events == trace + rest.events
        invariant whole.result == rest.result
      {
        ghost var before := trace;
        var retry, settled := ConfirmRound(target, rounds(i));
        RetriesExcludesSettles(rounds(i));
        ghost var step := RoundEvents(target, rounds(i));
        if !retry {
          assert rest.events == step;
          return if settled then Done(true) else Fault;
        }
        ghost var next := ConfirmRounds(target, rounds, i + 1);
        AppendAssoc(before, step, next.events);
        rest := next;
        i := i + 1;
      }
      assert rest.events == [];
      assert trace + [] == trace;
    }

    /** One round of the confirm loop: click the button; after a delivered click,
      pause, re-capture and re-recognize, and look for the button again. An
      exception while re-checking escapes (the round neither retries nor settles). */
    method ConfirmRound(target: Point, rd: Round) returns (retry: bool, settled: bool)
      modifies this`trace
      ensures retry == Retries(rd) && settled == Settles(rd)
      ensures trace == old(trace) + RoundEvents(target, rd)
    {
      var ok := ClickAt(target, rd.click);
      if !ok {
        Pause(500);
        return true, false;
      }
      Report(ClickedConfirm);
      Pause(1500);
      if rd.check.Raised? {
        return false, false;
      }
      var pages := rd.check.pages;
      if |pages| == 0 {
        Pause(500);
        return true, false;
      }
      if pages[0].None? {
        return false, false;
      }
      var visible := ConfirmStillVisible(pages[0].value);
      return visible, !visible;
    }

    /** One recognition cycle: perceive, dispatch to the current task's handler when
      the result is non-empty, then pause for the (possibly new) interval; any
      exception is reported once and followed by a one-second pause. */
    method Cycle(w: World) returns (faulted: bool)
      requires Valid()
      modifies this`task, this`interval, this`trace
      ensures Valid()
      ensures faulted == CycleSpec(old(task), w).faulted
      ensures task == CycleSpec(old(task), w).task
      ensures trace == old(trace) + CycleSpec(old(task), w).events
    {
      if w.perception.Raised? {
        ReportFault();
        return true;
      }
      var pages := w.perception.pages;
      if |pages| == 0 {
        Pause(interval * 1000);
        return false;
      }
      if pages[0].None? {
        ReportFault();
        return true;
      }
      var lines := pages[0].value;
      ghost var h := Dispatch(task, lines, w);
      var result := HandleTask(lines, w);
      if result.Fault? {
        ReportFault();
        AppendAssoc(old(trace), h.events, FaultEvents);
        return true;
      }
      Pause(interval * 1000);
      AppendAssoc(old(trace), h.events, [Sleep(interval * 1000)]);
      return false;
    }

    /** Run the current task's handler, and only that one. */
    method HandleTask(lines: seq<Obs>, w: World) returns (result: Result)
      requires Valid()
      modifies this`task, this`interval, this`trace
      ensures Valid()
      ensures result == Dispatch(old(task), lines, w).result
      ensures trace == old(trace) + Dispatch(old(task), lines, w).events
      ensures task == if result == Done(true) then Next(old(task)) else old(task)
    {
      if task == StartDungeon {
        var changed := HandleStartDungeon(lines, w.act);
        result := Done(changed);
      } else if task == WaitWhistle {
        var changed := HandleWaitWhistle(lines, w.act);
        result := Done(changed);
      } else {
        result := HandleWhistleFight(lines, w.adjust, w.rounds);
      }
    }

    /** The error report of a failed cycle, followed by a one-second pause. */
    method ReportFault()
      modifies this`trace
      ensures trace == old(trace) + FaultEvents
    {
      Report(CycleFailed);
      Pause(1000);
    }

    /** A stop request from the controller. */
    method Stop()
      modifies this`running
      ensures !running
    {
      running := false;
    }

    /** The thread body. The controller's stop request is taken to arrive after
      `stopAfter` cycles; the loop sees it at the top of the next iteration. */
    method Run(engineReady: bool, worlds: nat -> World, stopAfter: nat)
      requires Valid()
      modifies this`task, this`interval, this`trace, this`running
      ensures Valid()
      ensures var n := if old(running) then stopAfter else 0;
              trace == old(trace) + RunSpec(old(task), engineReady, worlds, n).0 &&
              task == RunSpec(old(task), engineReady, worlds, n).1
      ensures running == (old(running) && !engineReady)
    {
      Report(EngineStarting);
      if !engineReady {
        Report(EngineFailed);
        trace := trace + [Finished];
        return;
      }
      ghost var n := if running then stopAfter else 0;
      ghost var whole := RunCycles(task, worlds, 0, n);
      ghost var start := trace;
      var c := 0;
      while running
        invariant Valid()
        invariant c <= n
        invariant !running ==> c == n
        invariant running ==> n == stopAfter
        invariant start + whole.0 == trace + RunCycles(task, worlds, c, n).0
        invariant whole.1 == RunCycles(task, worlds, c, n).1
        decreases n - c, running
      {
        if c == stopAfter {
          Stop();
        } else {
          ghost var before := trace;
          ghost var o := CycleSpec(task, worlds(c));
          var faulted := Cycle(worlds(c));
          AppendAssoc(before, o.events, RunCycles(task, worlds, c + 1, n).0);
          c := c + 1;
        }
      }
      assert trace + [] == trace;
      AppendAssoc(old(trace), [Emit(EngineStarting)], whole.0);
      AppendAssoc(old(trace), [Emit(EngineStarting)] + whole.0, [Finished]);
      trace := trace + [Finished];
    }
  }
}
