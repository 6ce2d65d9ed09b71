/** What each handler promises, stated over the pure handler functions: which
    regions are clicked, in what order, and when the task changes. */
module HandlerProperties {
  import opened Options
  import opened Geometry
  import opened Recognition
  import opened Automaton
  import opened Traces

  // ---------------------------------------------------------------------------
  // Start dungeon

  /** Let `k` be the first region whose dice-button click is delivered (or the
      end of the page). Every dice button before `k` is clicked, in order, and
      fails; the one at `k` is clicked and ends the scan with a change of task;
      nothing after it is clicked. With no delivered click, every dice button is
      tried and the task stays. */
  lemma {:induction false} StartClicksUpTo(lines: seq<Obs>, act: nat -> ClickReply, from: nat, k: nat)
    requires from <= k <= |lines|
    requires forall j | from <= j < k :: !DiceHit(lines, act, j)
    requires k == |lines| || DiceHit(lines, act, k)
    ensures Clicks(StartScan(lines, act, from).events) ==
            CentresWhere(lines, IsDiceButton, from, if k == |lines| then k else k + 1)
    ensures StartScan(lines, act, from).result == Done(k < |lines|)
    decreases |lines| - from
  {
    if from == |lines| {
    } else {
      var o := lines[from];
      var reply := act(from);
      var c := ClickEvent(QuadCenter(o.quad), reply);
      if from == k {
        ClicksOfAttempt([Emit(Spotted(o.text))], c, [Emit(ClickedDice)]);
        assert [Emit(Spotted(o.text)), c] + [Emit(ClickedDice)] == [Emit(Spotted(o.text))] + [c] + [Emit(ClickedDice)];
      } else {
        StartClicksUpTo(lines, act, from + 1, k);
        if IsDiceButton(o) {
          assert !Delivered(reply) by { assert !DiceHit(lines, act, from); }
          var rest := StartScan(lines, act, from + 1);
          ClicksAppend([Emit(Spotted(o.text)), c], rest.events);
          ClicksOfAttempt([Emit(Spotted(o.text))], c, []);
          assert [Emit(Spotted(o.text)), c] == [Emit(Spotted(o.text))] + [c] + [];
        }
      }
    }
  }

  // ---------------------------------------------------------------------------
  // Wait whistle

  /** Every whistle prompt is clicked exactly once, in page order, whether or not
      earlier clicks were delivered; regions that are not whistle prompts are
      never clicked. */
  lemma {:induction false} WaitClicksEveryWhistle(lines: seq<Obs>, act: nat -> ClickReply, from: nat)
    requires from <= |lines|
    ensures Clicks(WaitScan(lines, act, from).events) == CentresWhere(lines, IsWhistle, from, |lines|)
    decreases |lines| - from
  {
    if from < |lines| {
      var o := lines[from];
      var banner: seq<Event> := if IsRollingBanner(o) then [Emit(Spotted(o.text))] else [];
      var rest := WaitScan(lines, act, from + 1);
      WaitClicksEveryWhistle(lines, act, from + 1);
      NoClicks(banner);
      ClicksAppend(WaitStep(o, act(from)), rest.events);
      if IsWhistle(o) {
        var reply := act(from);
        var c := ClickEvent(QuadCenter(o.quad), reply);
        var post: seq<Event> := if Delivered(reply) then [Emit(ClickedWhistle), Sleep(500)] else [];
        assert WaitStep(o, reply) == banner + [Emit(Spotted(o.text))] + [c] + post;
        ClicksOfAttempt(banner + [Emit(Spotted(o.text))], c, post);
      } else {
        assert WaitStep(o, act(from)) == banner;
      }
    }
  }

  /** A page without a whistle prompt (for instance one that only shows the
      rolling banner) causes no click and leaves the task as it is. */
  lemma NoWhistleNoEffect(lines: seq<Obs>, act: nat -> ClickReply)
    requires forall j | 0 <= j < |lines| :: !IsWhistle(lines[j])
    ensures WaitScan(lines, act, 0).result == Done(false)
    ensures Clicks(WaitScan(lines, act, 0).events) == []
  {
    WaitClicksEveryWhistle(lines, act, 0);
    NoWhistleNoCentres(lines, 0);
  }

  lemma {:induction false} NoWhistleNoCentres(lines: seq<Obs>, from: nat)
    requires from <= |lines|
    requires forall j | from <= j < |lines| :: !IsWhistle(lines[j])
    ensures CentresWhere(lines, IsWhistle, from, |lines|) == []
    decreases |lines| - from
  {
    if from < |lines| {
      NoWhistleNoCentres(lines, from + 1);
    }
  }

  // ---------------------------------------------------------------------------
  // Whistle fight: the confirm loop

  /** If rounds i..k-1 all retry and round k settles, the loop ends with a change
      of task after exactly k - i + 1 clicks, all on the confirm button. */
  lemma {:induction false} ConfirmSettlesAt(target: Point, rounds: nat -> Round, i: nat, k: nat)
    requires i <= k < 3
    requires forall j | i <= j < k :: Retries(rounds(j))
    requires Settles(rounds(k))
    ensures ConfirmRounds(target, rounds, i).result == Done(true)
    ensures Clicks(ConfirmRounds(target, rounds, i).events) == Repeat(target, k - i + 1)
    decreases k - i
  {
    var rd := rounds(i);
    if i == k {
      RetriesExcludesSettles(rd);
      RoundClicks(target, rd);
    } else {
      assert Retries(rd);
      ConfirmSettlesAt(target, rounds, i + 1, k);
      RetryRoundClicks(target, rounds, i);
    }
  }

  /** If every round from i on retries, the loop makes all 3 - i clicks and leaves
      the task as it is. */
  lemma {:induction false} ConfirmNeverSettles(target: Point, rounds: nat -> Round, i: nat)
    requires i <= 3
    requires forall j | i <= j < 3 :: Retries(rounds(j))
    ensures ConfirmRounds(target, rounds, i).result == Done(false)
    ensures Clicks(ConfirmRounds(target, rounds, i).events) == Repeat(target, 3 - i)
    decreases 3 - i
  {
    if i < 3 {
      assert Retries(rounds(i));
      ConfirmNeverSettles(target, rounds, i + 1);
      RetryRoundClicks(target, rounds, i);
    }
  }

  /** Every round makes exactly one click attempt, on the confirm button. */
  lemma RoundClicks(target: Point, rd: Round)
    ensures Clicks(RoundEvents(target, rd)) == [target]
  {
    var es := RoundEvents(target, rd);
    var c := ClickEvent(target, rd.click);
    assert es == [] + [c] + es[1..];
    ClicksOfAttempt([], c, es[1..]);
  }

  /** A round that retries contributes one click on the confirm button and hands
      over to the next round. */
  lemma RetryRoundClicks(target: Point, rounds: nat -> Round, i: nat)
    requires i < 3 && Retries(rounds(i))
    ensures ConfirmRounds(target, rounds, i).result == ConfirmRounds(target, rounds, i + 1).result
    ensures Clicks(ConfirmRounds(target, rounds, i).events) ==
            [target] + Clicks(ConfirmRounds(target, rounds, i + 1).events)
  {
    RetriesExcludesSettles(rounds(i));
    RoundClicks(target, rounds(i));
    ClicksAppend(RoundEvents(target, rounds(i)), ConfirmRounds(target, rounds, i + 1).events);
  }

  /** The confirm loop ends with a change of task exactly when some round k
      settles after every earlier round retried. */
  lemma {:induction false} ConfirmChangesIff(target: Point, rounds: nat -> Round, i: nat)
    requires i <= 3
    ensures ConfirmRounds(target, rounds, i).result == Done(true) <==>
            exists k | i <= k < 3 :: Settles(rounds(k)) && forall j | i <= j < k :: Retries(rounds(j))
    decreases 3 - i
  {
    if exists k | i <= k < 3 :: Settles(rounds(k)) && forall j | i <= j < k :: Retries(rounds(j)) {
      var k :| i <= k < 3 && Settles(rounds(k)) && forall j | i <= j < k :: Retries(rounds(j));
      ConfirmSettlesAt(target, rounds, i, k);
    } else if ConfirmRounds(target, rounds, i).result == Done(true) {
      var rd := rounds(i);
      assert i < 3;
      if Settles(rd) {
        assert false;
      } else {
        assert Retries(rd);
        RetryRoundClicks(target, rounds, i);
        ConfirmChangesIff(target, rounds, i + 1);
        var k :| i + 1 <= k < 3 && Settles(rounds(k)) && forall j | i + 1 <= j < k :: Retries(rounds(j));
        assert forall j | i <= j < k :: Retries(rounds(j));
        assert false;
      }
    }
  }

  /** The confirm loop never makes more than 3 - i click attempts, failed ones
      included, and every one of them is on the confirm button. */
  lemma {:induction false} ConfirmAttemptsBounded(target: Point, rounds: nat -> Round, i: nat)
    requires i <= 3
    ensures |Clicks(ConfirmRounds(target, rounds, i).events)| <= 3 - i
    ensures Clicks(ConfirmRounds(target, rounds, i).events) ==
            Repeat(target, |Clicks(ConfirmRounds(target, rounds, i).events)|)
    decreases 3 - i
  {
    if i < 3 {
      var rd := rounds(i);
      var c := ClickEvent(target, rd.click);
      if Retries(rd) {
        RetryRoundClicks(target, rounds, i);
        ConfirmAttemptsBounded(target, rounds, i + 1);
      } else {
        RetriesExcludesSettles(rounds(i));
        RoundClicks(target, rd);
        assert ConfirmRounds(target, rounds, i).events == RoundEvents(target, rd) + [];
        assert RoundEvents(target, rd) + [] == RoundEvents(target, rd);
      }
    }
  }

  // ---------------------------------------------------------------------------
  // Whistle fight: the whole handler

  /** The adjust candidate, if any, is clicked first and only once; every later
      click is on the confirm candidate, at most three of them; with no confirm
      candidate there is no later click. */
  lemma FightClicks(lines: seq<Obs>, adjust: ClickReply, rounds: nat -> Round)
    ensures var cs := Clicks(FightSpec(lines, adjust, rounds).events);
            var a := LastQuad(lines, IsAdjustPrompt);
            var k := LastQuad(lines, IsConfirmCandidate);
            var na := if a.Some? then 1 else 0;
            na <= |cs| &&
            (a.Some? ==> cs[0] == QuadCenter(a.value)) &&
            (k.None? ==> |cs| == na) &&
            (k.Some? ==> |cs| <= na + 3 && forall j | na <= j < |cs| :: cs[j] == QuadCenter(k.value))
  {
    var adjusted := AdjustPhase(lines, adjust);
    var a := LastQuad(lines, IsAdjustPrompt);
    if a.Some? {
      var c := ClickEvent(QuadCenter(a.value), adjust);
      var post: seq<Event> := if Delivered(adjust) then [Emit(ClickedAdjust)] else [];
      assert adjusted == [] + [c] + post;
      ClicksOfAttempt([], c, post);
    } else {
      NoClicks(adjusted);
    }
    match LastQuad(lines, IsConfirmCandidate)
    case None =>
    case Some(q) =>
      var r := ConfirmRounds(QuadCenter(q), rounds, 0);
      ClicksAppend(adjusted, r.events);
      ConfirmAttemptsBounded(QuadCenter(q), rounds, 0);
  }

  /** Whether the adjust click is delivered never changes how the handler ends. */
  lemma AdjustNeverDecides(lines: seq<Obs>, a1: ClickReply, a2: ClickReply, rounds: nat -> Round)
    ensures FightSpec(lines, a1, rounds).result == FightSpec(lines, a2, rounds).result
  {
  }

  /** The fight handler changes the task exactly when the page shows the confirm
      button and some confirm round settles after every earlier one retried. */
  lemma FightChangesIff(lines: seq<Obs>, adjust: ClickReply, rounds: nat -> Round)
    ensures FightSpec(lines, adjust, rounds).result == Done(true) <==>
            ConfirmVisible(lines) &&
            exists k | 0 <= k < 3 :: Settles(rounds(k)) && forall j | 0 <= j < k :: Retries(rounds(j))
  {
    var cand := LastQuad(lines, IsConfirmCandidate);
    forall j | 0 <= j < |lines| ensures IsConfirmCandidate(lines[j]) == IsConfirmButton(lines[j]) {
      ConfirmIsNeverAdjust(lines[j]);
    }
    assert cand.Some? <==> ConfirmVisible(lines);
    if cand.Some? {
      ConfirmChangesIff(QuadCenter(cand.value), rounds, 0);
    }
  }

  /** The confirm target disappears at the second check: the handler clicks the
      button exactly twice and changes the task. */
  lemma GoneAtSecondCheck(q: Quad, w: WindowRects, rounds: nat -> Round)
    requires rounds(0) == Round(WindowFound(w, true), Perceived([Some([Obs(q, "确定", 0.9)])]))
    requires rounds(1) == Round(WindowFound(w, true), Perceived([Some([])]))
    ensures var r := FightSpec([Obs(q, "确定", 0.9)], WindowMissing, rounds);
            r.result == Done(true) && Clicks(r.events) == [QuadCenter(q), QuadCenter(q)]
  {
    var button := Obs(q, "确定", 0.9);
    ButtonPage(button);
    assert ConfirmVisible([button]) by { assert IsConfirmButton([button][0]); }
    ConfirmSettlesAt(QuadCenter(q), rounds, 0, 1);
    assert Repeat(QuadCenter(q), 2) == [QuadCenter(q), QuadCenter(q)];
  }

  /** The confirm target never disappears: the handler clicks three times and
      leaves the task as it is. */
  lemma NeverGone(q: Quad, w: WindowRects, rounds: nat -> Round)
    requires forall i | 0 <= i < 3 ::
               rounds(i) == Round(WindowFound(w, true), Perceived([Some([Obs(q, "确定", 0.9)])]))
    ensures var r := FightSpec([Obs(q, "确定", 0.9)], WindowMissing, rounds);
            r.result == Done(false) && Clicks(r.events) == [QuadCenter(q), QuadCenter(q), QuadCenter(q)]
  {
    var button := Obs(q, "确定", 0.9);
    ButtonPage(button);
    assert ConfirmVisible([button]) by { assert IsConfirmButton([button][0]); }
    ConfirmNeverSettles(QuadCenter(q), rounds, 0);
    assert Repeat(QuadCenter(q), 3) == [QuadCenter(q), QuadCenter(q), QuadCenter(q)];
  }

  /** A page holding only the confirm button: no adjust click, and the handler is
      the confirm loop on the button's centre. */
  lemma ButtonPage(button: Obs)
    requires IsConfirmButton(button)
    ensures forall adjust, rounds :: FightSpec([button], adjust, rounds) == ConfirmRounds(QuadCenter(button.quad), rounds, 0)
  {
    ConfirmIsNeverAdjust(button);
    assert LastQuad([button], IsConfirmCandidate) == Some(button.quad);
    assert LastQuad([button], IsAdjustPrompt) == None;
    forall adjust, rounds ensures FightSpec([button], adjust, rounds) == ConfirmRounds(QuadCenter(button.quad), rounds, 0) {
      assert AdjustPhase([button], adjust) == [];
      var r := ConfirmRounds(QuadCenter(button.quad), rounds, 0);
      assert [] + r.events == r.events;
    }
  }
}
