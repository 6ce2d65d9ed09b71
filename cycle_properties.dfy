/** What a cycle and a run promise: the task moves only along the three-task
    cycle and only when that task's trigger is on the page; a fault is reported
    exactly once and changes nothing; the completion signal ends every run. */
module CycleProperties {
  import opened Options
  import opened Recognition
  import opened Automaton
  import opened Traces
  import opened HandlerProperties
  import opened HandlerEvents

  /** The page the current cycle recognized, when recognition produced one. */
  predicate HasPage(w: World) {
    w.perception.Perceived? && |w.perception.pages| > 0 && w.perception.pages[0].Some?
  }

  /** The condition under which task `t` moves on, in terms of the page and the
      environment's answers. */
  predicate Triggered(t: Task, w: World) {
    HasPage(w) &&
    var lines := w.perception.pages[0].value;
    match t
    case StartDungeon => exists j | 0 <= j < |lines| :: DiceHit(lines, w.act, j)
    case WaitWhistle => exists j | 0 <= j < |lines| :: IsWhistle(lines[j])
    case WhistleFight =>
      ConfirmVisible(lines) &&
      exists k | 0 <= k < 3 :: Settles(w.rounds(k)) && forall j | 0 <= j < k :: Retries(w.rounds(j))
  }

  /** A cycle moves task `t` on (to the next task of the cycle, the only other
      task it can reach) exactly when `t`'s trigger holds; otherwise the task
      stays. */
  lemma CycleAdvancesIff(t: Task, w: World)
    ensures CycleSpec(t, w).task == Next(t) <==> Triggered(t, w)
    ensures CycleSpec(t, w).task != Next(t) ==> CycleSpec(t, w).task == t
  {
    if HasPage(w) {
      var lines := w.perception.pages[0].value;
      if t == WhistleFight {
        FightChangesIff(lines, w.adjust, w.rounds);
      }
    }
  }

  /** A faulty cycle emits exactly one error message and leaves the task as it
      was; a cycle that completes emits none. */
  lemma CycleReportsFaultOnce(t: Task, w: World)
    ensures var o := CycleSpec(t, w);
            Count(o.events, Emit(CycleFailed)) == (if o.faulted then 1 else 0) &&
            (o.faulted ==> o.task == t)
  {
    var o := CycleSpec(t, w);
    assert Count(FaultEvents, Emit(CycleFailed)) == 1 by {
      assert FaultEvents[1..][1..] == [];
    }
    if HasPage(w) {
      var lines := w.perception.pages[0].value;
      var h := Dispatch(t, lines, w);
      assert Count(h.events, Emit(CycleFailed)) == 0 by {
        DispatchEvents(t, lines, w);
        assert !IsHandlerEvent(Emit(CycleFailed));
      }
      if h.result.Fault? {
        CountAppend(h.events, FaultEvents, Emit(CycleFailed));
      } else {
        CountAppend(h.events, [Sleep(IntervalOf(o.task) * 1000)], Emit(CycleFailed));
      }
    }
  }

  /** An empty recognition result runs no handler: no click, no change, and the
      pause of the current task. */
  lemma EmptyResultIsIgnored(t: Task, w: World)
    requires w.perception == Perceived([])
    ensures CycleSpec(t, w) == CycleOut([Sleep(IntervalOf(t) * 1000)], t, false)
    ensures Clicks(CycleSpec(t, w).events) == []
  {
    assert Clicks([Sleep(IntervalOf(t) * 1000)]) == [] by {
      NoClicks([Sleep(IntervalOf(t) * 1000)]);
    }
  }

  /** Triggering the three tasks in order brings the automaton from the start task
      back to the start task. */
  lemma ThreeCyclesReturnToStart(worlds: nat -> World)
    requires Triggered(StartDungeon, worlds(0))
    requires Triggered(WaitWhistle, worlds(1))
    requires Triggered(WhistleFight, worlds(2))
    ensures RunCycles(StartDungeon, worlds, 0, 3).1 == StartDungeon
  {
    CycleAdvancesIff(StartDungeon, worlds(0));
    CycleAdvancesIff(WaitWhistle, worlds(1));
    CycleAdvancesIff(WhistleFight, worlds(2));
  }

  /** No cycle sends the completion signal. */
  lemma CycleNeverFinishes(t: Task, w: World)
    ensures Finished !in CycleSpec(t, w).events
  {
    var o := CycleSpec(t, w);
    if HasPage(w) {
      var lines := w.perception.pages[0].value;
      var h := Dispatch(t, lines, w);
      DispatchEvents(t, lines, w);
      assert !IsHandlerEvent(Finished);
    }
  }

  lemma {:induction false} CyclesNeverFinish(t: Task, worlds: nat -> World, c: nat, n: nat)
    requires c <= n
    ensures Finished !in RunCycles(t, worlds, c, n).0
    decreases n - c
  {
    if c < n {
      var o := CycleSpec(t, worlds(c));
      CycleNeverFinishes(t, worlds(c));
      CyclesNeverFinish(o.task, worlds, c + 1, n);
    }
  }

  /** Every run, whether the engine could be built or not, starts by announcing
      the engine and ends with exactly one completion signal, as its last event. */
  lemma RunFinishesOnce(t: Task, engineReady: bool, worlds: nat -> World, n: nat)
    ensures var es := RunSpec(t, engineReady, worlds, n).0;
            |es| >= 2 && es[0] == Emit(EngineStarting) && es[|es| - 1] == Finished &&
            Count(es, Finished) == 1
  {
    var es := RunSpec(t, engineReady, worlds, n).0;
    if engineReady {
      var cycles := RunCycles(t, worlds, 0, n).0;
      CyclesNeverFinish(t, worlds, 0, n);
      CountAppend([Emit(EngineStarting)] + cycles, [Finished], Finished);
      CountAppend([Emit(EngineStarting)], cycles, Finished);
    } else {
      assert es[1..][1..][1..] == [];
    }
  }

  /** An engine that cannot be built ends the run at once: no cycle runs, nothing
      is clicked, and the task is untouched. */
  lemma EngineFailureIsFatal(t: Task, worlds: nat -> World, n: nat)
    ensures RunSpec(t, false, worlds, n) == ([Emit(EngineStarting), Emit(EngineFailed), Finished], t)
    ensures Clicks(RunSpec(t, false, worlds, n).0) == []
  {
    NoClicks([Emit(EngineStarting), Emit(EngineFailed), Finished]);
  }
}
