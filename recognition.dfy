/** What the text recognizer reports about one captured image, and the tests the
    automaton applies to it: substring and exact-text matches against strict
    confidence thresholds, and the last-match-wins scan of the fight screen. */
module Recognition {
  import opened Options
  import opened Geometry

  /** One recognized text region: its bounding quad, the text read, and the
      recognizer's confidence. */
  datatype Obs = Obs(quad: Quad, text: string, conf: real)

  /** One page of a recognition result. The recognizer may report a page on which
      it read nothing as an absent list rather than an empty one. */
  type Page = Option<seq<Obs>>

  /** `t` occurs in `s` starting at index `i`. */
  predicate OccursAt(s: string, t: string, i: int) {
    0 <= i && i + |t| <= |s| && s[i..i + |t|] == t
  }

  /** `t in s` on strings: `t` occurs in `s` as a contiguous substring. */
  predicate Contains(s: string, t: string) {
    exists i | 0 <= i <= |s| - |t| :: OccursAt(s, t, i)
  }

  /** The "auto dice" button of the start screen, including the recognizer's known
      misreading of one character. */
  predicate IsDiceButton(o: Obs) {
    (Contains(o.text, "自动骰子") || Contains(o.text, "自动般子")) && o.conf > 0.5
  }

  /** The "auto-rolling dice" banner; it is only reported, never clicked. */
  predicate IsRollingBanner(o: Obs) {
    (Contains(o.text, "自动投掷骰子中") || Contains(o.text, "自动投掷般子中")) && o.conf > 0.5
  }

  /** A "whistle" prompt. */
  predicate IsWhistle(o: Obs) {
    Contains(o.text, "吹响") && o.conf > 0.5
  }

  /** An "increase"/"decrease" adjust-value prompt of the fight screen. */
  predicate IsAdjustPrompt(o: Obs) {
    (Contains(o.text, "增加") || Contains(o.text, "减少")) && o.conf > 0.7
  }

  /** The "confirm" button: the text must be exactly the button label. */
  predicate IsConfirmButton(o: Obs) {
    o.text == "确定" && o.conf > 0.7
  }

  /** The fight-screen scan tests the confirm button only on regions that are not
      adjust prompts (an `elif`). */
  predicate IsConfirmCandidate(o: Obs) {
    !IsAdjustPrompt(o) && IsConfirmButton(o)
  }

  /** Whether a re-recognized page still shows the confirm button. */
  predicate ConfirmVisible(lines: seq<Obs>) {
    exists j | 0 <= j < |lines| :: IsConfirmButton(lines[j])
  }

  /** The index of the LAST region that `keep` accepts: a later match overwrites an
      earlier one. */
  function LastIndex(lines: seq<Obs>, keep: Obs -> bool): (r: Option<nat>)
    ensures r.None? <==> forall i | 0 <= i < |lines| :: !keep(lines[i])
    ensures r.Some? ==>
              r.value < |lines| && keep(lines[r.value]) &&
              forall j | r.value < j < |lines| :: !keep(lines[j])
    decreases |lines|
  {
    if lines == [] then None
    else if keep(lines[|lines| - 1]) then Some(|lines| - 1)
    else LastIndex(lines[..|lines| - 1], keep)
  }

  /** The quad of the last region that `keep` accepts, if any. */
  function LastQuad(lines: seq<Obs>, keep: Obs -> bool): (r: Option<Quad>)
    ensures r.None? <==> forall i | 0 <= i < |lines| :: !keep(lines[i])
  {
    match LastIndex(lines, keep)
    case None => None
    case Some(i) => Some(lines[i].quad)
  }

  /** The exact confirm label contains neither adjust keyword, so the `elif` never
      hides a confirm button: the candidate test is the button test. */
  lemma ConfirmIsNeverAdjust(o: Obs)
    ensures IsConfirmCandidate(o) <==> IsConfirmButton(o)
  {
    if o.text == "确定" {
      assert "确定"[0] != "增加"[0] && "确定"[0] != "减少"[0];
      assert !Contains(o.text, "增加") by {
        forall i | 0 <= i <= |o.text| - 2 ensures !OccursAt(o.text, "增加", i) {
          assert o.text[i..i + 2][0] == "确定"[0];
        }
      }
      assert !Contains(o.text, "减少") by {
        forall i | 0 <= i <= |o.text| - 2 ensures !OccursAt(o.text, "减少", i) {
          assert o.text[i..i + 2][0] == "确定"[0];
        }
      }
    }
  }
}
