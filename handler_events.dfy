/** A handler produces only clicks, pauses and its own match and click messages:
    never the error report of a failed cycle, the engine messages or the
    completion signal, which belong to the run loop. */
module HandlerEvents {
  import opened Options
  import opened Geometry
  import opened Recognition
  import opened Automaton

  predicate OnlyHandlerEvents(es: seq<Event>) {
    forall e | e in es :: IsHandlerEvent(e)
  }

  lemma {:induction false} StartScanEvents(lines: seq<Obs>, act: nat -> ClickReply, from: nat)
    ensures OnlyHandlerEvents(StartScan(lines, act, from).events)
    decreases |lines| - from
  {
    if from < |lines| {
      StartScanEvents(lines, act, from + 1);
    }
  }

  lemma WaitStepEvents(o: Obs, reply: ClickReply)
    ensures OnlyHandlerEvents(WaitStep(o, reply))
  {
  }

  lemma {:induction false} WaitScanEvents(lines: seq<Obs>, act: nat -> ClickReply, from: nat)
    ensures OnlyHandlerEvents(WaitScan(lines, act, from).events)
    decreases |lines| - from
  {
    if from < |lines| {
      WaitStepEvents(lines[from], act(from));
      WaitScanEvents(lines, act, from + 1);
    }
  }

  lemma {:induction false} ConfirmRoundsEvents(target: Point, rounds: nat -> Round, i: nat)
    requires i <= 3
    ensures OnlyHandlerEvents(ConfirmRounds(target, rounds, i).events)
    decreases 3 - i
  {
    if i < 3 {
      ConfirmRoundsEvents(target, rounds, i + 1);
    }
  }

  lemma FightEvents(lines: seq<Obs>, adjust: ClickReply, rounds: nat -> Round)
    ensures OnlyHandlerEvents(FightSpec(lines, adjust, rounds).events)
  {
    match LastQuad(lines, IsConfirmCandidate)
    case None =>
    case Some(q) => ConfirmRoundsEvents(QuadCenter(q), rounds, 0);
  }

  lemma DispatchEvents(t: Task, lines: seq<Obs>, w: World)
    ensures OnlyHandlerEvents(Dispatch(t, lines, w).events)
  {
    match t
    case StartDungeon => StartScanEvents(lines, w.act, 0);
    case WaitWhistle => WaitScanEvents(lines, w.act, 0);
    case WhistleFight => FightEvents(lines, w.adjust, w.rounds);
  }
}
