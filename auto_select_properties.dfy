/**
 * What whole interactions with `AutoSelectTextBox` do: the typing,
 * committing, deleting and leaving scenarios.
 */
module AutoSelectProperties {
  import opened Common
  import opened AutoSelectSpec

  /** A focused control offering "television". */
  function Offering(): (s: Box)
    ensures s.focused && HasAutoSelectText(s) && Inv(s)
  {
    Run(Initial(), [FocusGained, AutoSelectTextAssigned(Some("television"))])
  }

  /** The state `TypingPreviewsCandidate` shows `Offering()` reaches once "tel" is typed one letter at a time. */
  function TypedTel(): Box {
    Box("television", Some("tel"), Some("television"), true, Selection(3, 7), true, NoKey, false, false)
  }

  /**
   * The candidate arrived while `Text` was "" and `RealText` null; the box
   * turns the null into "", so `Text = RealText` was a no-op and its ignore
   * flag stays armed: the first letter typed is swallowed and `RealText`
   * stays null.
   */
  lemma FirstLetterAfterCandidateIsSwallowed()
    ensures Offering().ignoreNextChanged
    ensures var r := Step(Offering(), TextEdited("t", 1));
            r.text == "t" && r.realText.None? && !r.isPreviewing && !r.ignoreNextChanged
  {
    assert Offering() == Initial().(focused := true, autoSelectText := Some("television"), ignoreNextChanged := true);
  }

  /**
   * Typing a prefix of the candidate shows the whole candidate with the
   * untyped tail selected, while `RealText` holds only what was typed.
   */
  lemma TypingPreviewsCandidate()
    ensures var r := Run(Offering(), [TextEdited("t", 1), TextEdited("te", 2), TextEdited("tel", 3)]);
            && r.text == "television" && r.realText == Some("tel")
            && r.selection == Selection(3, 7) && r.isPreviewing && !r.ignoreNextChanged
    ensures Run(Offering(), [TextEdited("t", 1), TextEdited("te", 2), TextEdited("tel", 3)]) == TypedTel()
  {
    FirstLetterAfterCandidateIsSwallowed();
    var s1 := Step(Offering(), TextEdited("t", 1));
    PrefixStartsWithIgnoreCase("television", 2);
    var s2 := Step(s1, TextEdited("te", 2));
    PrefixStartsWithIgnoreCase("television", 3);
    assert Step(s2, TextEdited("tel", 3)) == TypedTel();
    assert Run(Offering(), [TextEdited("t", 1), TextEdited("te", 2), TextEdited("tel", 3)])
        == Run(s2, [TextEdited("tel", 3)]);
  }

  /** A prefix typed in upper case still matches the lower-case candidate. */
  lemma UpperTelevisionMatches(n: nat)
    requires 0 < n <= 3
    ensures PreviewGuard(true, Some("TEL"[..n]), Some("television"))
  {
    assert "television"[..|"TEL"[..n]|] == "tel"[..n];
  }

  /**
   * Matching ignores case: typing "TEL" against "television" previews the
   * candidate as the candidate is written, while `RealText` keeps what was typed.
   */
  lemma TypingIgnoresCase()
    ensures var r := Run(Offering(), [TextEdited("T", 1), TextEdited("TE", 2), TextEdited("TEL", 3)]);
            && r.text == "television" && r.realText == Some("TEL")
            && r.selection == Selection(3, 7) && r.isPreviewing
  {
    var s0 := Offering();
    assert s0 == Initial().(focused := true, autoSelectText := Some("television"), ignoreNextChanged := true);
    var s1 := Step(s0, TextEdited("T", 1));
    assert s1 == s0.(text := "T", selection := Selection(1, 0), ignoreNextChanged := false);
    UpperTelevisionMatches(2);
    var s2 := Step(s1, TextEdited("TE", 2));
    assert s2 == s1.(text := "television", realText := Some("TE"), selection := Selection(2, 8), isPreviewing := true);
    UpperTelevisionMatches(3);
    assert Step(s2, TextEdited("TEL", 3))
        == s2.(text := "television", realText := Some("TEL"), selection := Selection(3, 7));
  }

  /**
   * Enter commits whenever `RealText` differs from `Text`: with nothing typed,
   * `RealText` is null and `Text` is "", so Enter fills in the whole candidate
   * although no preview shows.
   */
  lemma EnterCommitsUntypedCandidate()
    ensures Offering().text == [] && Offering().realText.None? && !Offering().isPreviewing
    ensures var r := Step(Offering(), KeyDown(Enter));
            && r.text == "television" && r.realText == Some("television")
            && r.selection == Selection(10, 0) && !r.isPreviewing
  {
    assert Offering() == Initial().(focused := true, autoSelectText := Some("television"), ignoreNextChanged := true);
  }

  /** Enter over a showing preview commits the candidate and leaves the caret after it. */
  lemma EnterCommitsPreview()
    ensures var r := Step(TypedTel(), KeyDown(Enter));
            && r.text == "television" && r.realText == Some("television")
            && r.selection == Selection(10, 0) && !r.isPreviewing && r.lastKey == Enter
  {
  }

  /**
   * Backspace over a preview copies the displayed text into `RealText` and
   * arms both flags; when the host has deleted the selected tail, `RealText`
   * takes what is left, the ignore flag swallows the rest of the event and
   * `IsPreviewing` stays set.
   */
  lemma BackspaceDropsTail()
    ensures var r := Step(TypedTel(), KeyDown(Back));
            r.realText == Some("television") && r.isDeleting && r.ignoreNextChanged
    ensures var r := Run(TypedTel(), [KeyDown(Back), TextEdited("tel", 3)]);
            && r.text == "tel" && r.realText == Some("tel") && r.isPreviewing
            && !r.isDeleting && !r.ignoreNextChanged
  {
  }

  /**
   * Leaving the box while a preview shows puts back the typed text; with no
   * focus test in `OnTextChanged`, the nested change consumes the ignore flag.
   * `IsPreviewing` is not cleared.
   */
  lemma LeavingCollapsesPreview()
    ensures var r := Step(TypedTel(), FocusLost);
            && r.text == "tel" && r.realText == Some("tel")
            && r.isPreviewing && !r.ignoreNextChanged
  {
  }

  /**
   * Leaving a box whose `RealText` is null while `Text` is "": the two differ,
   * so the ignore flag is armed, but `Text = RealText` stores "" again, a
   * no-op, and the flag stays armed. The next edit is shown but `RealText`
   * stays null.
   */
  lemma LeavingUntypedBoxArmsIgnore(s: Box, v: Str, caret: nat)
    requires Consistent(s) && HasAutoSelectText(s)
    requires s.realText.None? && s.text == [] && !s.isDeleting && v != []
    ensures var l := Step(s, FocusLost);
            l.ignoreNextChanged && l.text == [] && l.realText.None?
    ensures var r := Step(Step(s, FocusLost), TextEdited(v, caret));
            r.text == v && r.realText.None? && !r.ignoreNextChanged
  {
  }

  /**
   * Clearing the candidate during the "tel" preview: `AutoSelectTextChanged`
   * resets `Text` to `RealText` (the nested change, with no candidate left,
   * only stores `RealText` again) and then calls `PreviewText` on a focused box
   * with `RealText` "tel" and a null candidate, where the guard as written
   * dereferences null.
   */
  lemma ClearingCandidateReachesNullGuard()
    ensures var s1 := WriteText(TypedTel().(autoSelectText := None, ignoreNextChanged := true),
                                TextOrEmpty(TypedTel().realText));
            && s1.focused && s1.realText == Some("tel") && s1.autoSelectText.None?
            && PreviewGuardAsWritten(s1.focused, s1.realText, s1.autoSelectText).None?
  {
  }

  /** Text changes are processed without a focus test: an unfocused edit updates `RealText` too. */
  lemma UnfocusedEditIsMirrored(s: Box, v: Str, caret: nat)
    requires Consistent(s) && HasAutoSelectText(s)
    requires !s.focused && !s.ignoreNextChanged && s.text != v
    ensures var r := Step(s, TextEdited(v, caret));
            r.realText == Some(v) && r.text == v && !r.isPreviewing
  {
  }

  /** `RealText` has no change callback: an outside write never alters what is displayed. */
  lemma OutsideRealTextWriteKeepsDisplay(s: Box, v: Str)
    requires Consistent(s)
    ensures var r := Step(s, RealTextAssigned(v));
            r.text == s.text && r.realText == Some(v) && r.isPreviewing == s.isPreviewing
  {
  }
}
