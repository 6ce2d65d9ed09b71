/** The confirm loop of the fight handler as it is written. After every delivered
    confirm click it re-captures the window and then asks an attribute `ocr` of
    the thread object for a recognizer. The thread never assigns that attribute:
    the engine is a local variable of `run`. So the lookup raises, and the
    exception escapes the handler, before any re-check can happen. The rest of the
    model uses the intended loop, `Automaton.ConfirmRounds`, where the
    re-recognition is an oracle answer. */
module Findings {
  import opened Options
  import opened Geometry
  import opened Recognition
  import opened Automaton

  /** Rounds `i` to 2 of the confirm loop as written: a failed click pauses and
      retries; the first delivered click is reported, followed by the 1.5 s pause,
      and then the handler raises. */
  function ConfirmRoundsAsWritten(target: Point, rounds: nat -> Round, i: nat): (r: Reaction)
    requires i <= 3
    ensures r.result == Fault <==> exists k | i <= k < 3 :: Delivered(rounds(k).click)
    decreases 3 - i
  {
    if i == 3 then Reaction([], Done(false))
    else
      var rd := rounds(i);
      var click := ClickEvent(target, rd.click);
      if !Delivered(rd.click) then Then([click, Sleep(500)], ConfirmRoundsAsWritten(target, rounds, i + 1))
      else Reaction([click, Emit(ClickedConfirm), Sleep(1500)], Fault)
  }

  /** The fight handler as written: the same candidate scan and adjust click,
      followed by the confirm loop as written. */
  function FightAsWritten(lines: seq<Obs>, adjust: ClickReply, rounds: nat -> Round): Reaction
  {
    var adjusted := AdjustPhase(lines, adjust);
    match LastQuad(lines, IsConfirmCandidate)
    case None => Reaction(adjusted, Done(false))
    case Some(q) => Then(adjusted, ConfirmRoundsAsWritten(QuadCenter(q), rounds, 0))
  }

  /** As written, the fight handler can never complete its task: it never returns
      with a change, so the automaton never leaves the fight task. */
  lemma {:induction false} AsWrittenNeverChanges(target: Point, rounds: nat -> Round, i: nat)
    requires i <= 3
    ensures ConfirmRoundsAsWritten(target, rounds, i).result != Done(true)
    decreases 3 - i
  {
    if i < 3 && !Delivered(rounds(i).click) {
      AsWrittenNeverChanges(target, rounds, i + 1);
    }
  }

  lemma FightAsWrittenNeverChanges(lines: seq<Obs>, adjust: ClickReply, rounds: nat -> Round)
    ensures FightAsWritten(lines, adjust, rounds).result != Done(true)
  {
    match LastQuad(lines, IsConfirmCandidate)
    case None =>
    case Some(q) => AsWrittenNeverChanges(QuadCenter(q), rounds, 0);
  }

  /** The input that shows the difference: the first confirm click is delivered
      and the re-recognized page no longer shows the button. The intended loop
      completes the task; the loop as written raises instead. */
  lemma AsWrittenDiverges(target: Point, w: WindowRects, rounds: nat -> Round)
    requires rounds(0) == Round(WindowFound(w, true), Perceived([Some([])]))
    ensures ConfirmRounds(target, rounds, 0).result == Done(true)
    ensures ConfirmRoundsAsWritten(target, rounds, 0).result == Fault
  {
    assert !ConfirmVisible([]);
  }
}
