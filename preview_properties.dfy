/**
 * What whole interactions with `PreviewTextBox` do: the typing, committing,
 * deleting and leaving scenarios, and the consequences of the flags the
 * handlers can leave armed.
 */
module PreviewProperties {
  import opened Common
  import opened PreviewSpec

  /** A focused control offering "television". */
  function Offering(): (s: Box)
    ensures s.focused && HasPreviewText(s) && Inv(s)
  {
    Run(Initial(), [FocusGained, PreviewTextAssigned(Some("television"))])
  }

  /** The state `TypingPreviewsCandidate` shows `Offering()` reaches once "tel" is typed one letter at a time. */
  function TypedTel(): Box {
    Box("television", "tel", Some("television"), true, Selection(3, 7), true, false, false, false)
  }

  lemma TelevisionMatches(n: nat)
    requires 0 < n < 10
    ensures PreviewGuard(true, Some("television"[..n]), Some("television"))
  {
    PrefixStartsWithIgnoreCase("television", n);
  }

  /**
   * The candidate arrived while `Text` and `RealText` were both "", so the
   * `Text = RealText` of `PreviewTextChanged` was a no-op and its ignore flag
   * stays armed: the first letter typed is swallowed, `RealText` stays "" and
   * nothing is previewed.
   */
  lemma FirstLetterAfterCandidateIsSwallowed()
    ensures Offering().ignoreNextChanged
    ensures var r := Step(Offering(), TextEdited("t", 1));
            r.text == "t" && r.realText == [] && !r.isPreviewing && !r.ignoreNextChanged
  {
    assert Offering() == Initial().(focused := true, previewText := Some("television"), ignoreNextChanged := true);
  }

  /**
   * Typing a prefix of the candidate shows the whole candidate with the
   * untyped tail selected, while `RealText` holds only what was typed.
   */
  lemma TypingPreviewsCandidate()
    ensures var r := Run(Offering(), [TextEdited("t", 1), TextEdited("te", 2), TextEdited("tel", 3)]);
            && r.text == "television" && r.realText == "tel"
            && r.selection == Selection(3, 7) && r.isPreviewing && !r.ignoreNextChanged
    ensures Run(Offering(), [TextEdited("t", 1), TextEdited("te", 2), TextEdited("tel", 3)]) == TypedTel()
  {
    FirstLetterAfterCandidateIsSwallowed();
    var s1 := Step(Offering(), TextEdited("t", 1));
    TelevisionMatches(2);
    var s2 := Step(s1, TextEdited("te", 2));
    TelevisionMatches(3);
    assert Step(s2, TextEdited("tel", 3)) == TypedTel();
    assert Run(Offering(), [TextEdited("t", 1), TextEdited("te", 2), TextEdited("tel", 3)])
        == Run(s2, [TextEdited("tel", 3)]);
  }

  /** A prefix typed in upper case still matches the lower-case candidate. */
  lemma UpperTelevisionMatches(n: nat)
    requires 0 < n <= 3
    ensures PreviewGuard(true, Some("TEL"[..n]), Some("television"))
  {
    assert "television"[..|"TEL"[..n]|] == "tel"[..n];
  }

  /**
   * Matching ignores case: typing "TEL" against "television" previews the
   * candidate as the candidate is written, while `RealText` keeps what was typed.
   */
  lemma TypingIgnoresCase()
    ensures var r := Run(Offering(), [TextEdited("T", 1), TextEdited("TE", 2), TextEdited("TEL", 3)]);
            && r.text == "television" && r.realText == "TEL"
            && r.selection == Selection(3, 7) && r.isPreviewing
  {
    var s0 := Offering();
    assert s0 == Initial().(focused := true, previewText := Some("television"), ignoreNextChanged := true);
    var s1 := Step(s0, TextEdited("T", 1));
    assert s1 == s0.(text := "T", selection := Selection(1, 0), ignoreNextChanged := false);
    UpperTelevisionMatches(2);
    var s2 := Step(s1, TextEdited("TE", 2));
    assert s2 == s1.(text := "television", realText := "TE", selection := Selection(2, 8), isPreviewing := true);
    UpperTelevisionMatches(3);
    assert Step(s2, TextEdited("TEL", 3))
        == s2.(text := "television", realText := "TEL", selection := Selection(3, 7));
  }

  /** Enter over a showing preview commits the candidate and leaves the caret after it. */
  lemma EnterCommitsPreview()
    ensures var r := Step(TypedTel(), KeyDown(Enter));
            r.text == r.realText == "television" && r.selection == Selection(10, 0) && !r.isPreviewing
  {
  }

  /**
   * Enter commits whenever `RealText` differs from `Text`, not only while a
   * preview shows: after the swallowed first letter nothing is previewed, yet
   * Enter replaces the typed "x" with the candidate.
   */
  lemma EnterCommitsWithoutPreview()
    ensures var s := Step(Offering(), TextEdited("x", 1));
            !s.isPreviewing && s.text == "x" && s.realText == []
    ensures var r := Run(Offering(), [TextEdited("x", 1), KeyDown(Enter)]);
            r.text == r.realText == "television" && r.selection == Selection(10, 0) && !r.isPreviewing
  {
    var s0 := Offering();
    assert s0 == Initial().(focused := true, previewText := Some("television"), ignoreNextChanged := true);
    var s1 := Step(s0, TextEdited("x", 1));
    assert s1 == s0.(text := "x", selection := Selection(1, 0), ignoreNextChanged := false);
    assert Run(s0, [TextEdited("x", 1), KeyDown(Enter)]) == Step(s1, KeyDown(Enter));
  }

  /** Text the candidate does not start with is taken as typed, and nothing is previewed. */
  lemma MismatchIsNotPreviewed()
    ensures var r := Run(Offering(), [TextEdited("x", 1), TextEdited("xy", 2), TextEdited("xyz", 3)]);
            r.text == r.realText == "xyz" && !r.isPreviewing
  {
    var s0 := Offering();
    assert s0 == Initial().(focused := true, previewText := Some("television"), ignoreNextChanged := true);
    var s1 := Step(s0, TextEdited("x", 1));
    assert s1 == s0.(text := "x", selection := Selection(1, 0), ignoreNextChanged := false);
    FirstLetterMismatch("television", "xy");
    var s2 := Step(s1, TextEdited("xy", 2));
    assert s2 == s1.(text := "xy", realText := "xy", selection := Selection(2, 0));
    FirstLetterMismatch("television", "xyz");
    assert Step(s2, TextEdited("xyz", 3)) == s2.(text := "xyz", realText := "xyz", selection := Selection(3, 0));
  }

  /**
   * Backspace over a preview first copies the displayed text, tail included,
   * into `RealText`; when the host has deleted the selected tail, `RealText`
   * takes what is left and no preview is tried, so `IsPreviewing` stays set
   * although nothing is previewed any more.
   */
  lemma BackspaceDropsTail()
    ensures Step(TypedTel(), KeyDown(Back)).realText == "television"
    ensures var r := Run(TypedTel(), [KeyDown(Back), TextEdited("tel", 3)]);
            r.text == r.realText == "tel" && r.isPreviewing && !r.isDeleting
  {
  }

  /**
   * An arrow pressed once the delete has landed: `IsPreviewing` is still set,
   * so the arrow arms the ignore flag, but `Text = RealText` is then a no-op
   * and no nested change consumes the flag. The next letter is shown but
   * `RealText` misses it.
   */
  lemma ArrowAfterDeleteSwallowsNextLetter()
    ensures var d := Step(Step(TypedTel(), KeyDown(Back)), TextEdited("tel", 3));
            var l := Step(d, KeyDown(Left));
            && d.text == d.realText == "tel" && d.isPreviewing
            && l.text == l.realText == "tel" && l.ignoreNextChanged && !l.isPreviewing
    ensures var l := Step(Step(Step(TypedTel(), KeyDown(Back)), TextEdited("tel", 3)), KeyDown(Left));
            var r := Step(l, TextEdited("tele", 4));
            r.text == "tele" && r.realText == "tel" && !r.isPreviewing && !r.ignoreNextChanged
  {
    var b := Step(TypedTel(), KeyDown(Back));
    assert b == TypedTel().(realText := "television", isDeleting := true);
    var d := Step(b, TextEdited("tel", 3));
    assert d == Box("tel", "tel", Some("television"), true, Selection(3, 0), true, false, false, false);
    var l := Step(d, KeyDown(Left));
    assert l == d.(ignoreNextChanged := true, isPreviewing := false);
    assert Step(l, TextEdited("tele", 4)) == l.(text := "tele", selection := Selection(4, 0), ignoreNextChanged := false);
  }

  /**
   * Clearing the candidate during the "tel" preview: `PreviewTextChanged`
   * resets `Text` to `RealText` (the nested change, with no candidate left,
   * only stores `RealText` again) and then calls `TryPreviewText` on a focused
   * box with `RealText` "tel" and a null candidate, where the guard as written
   * dereferences null.
   */
  lemma ClearingCandidateReachesNullGuard()
    ensures var s1 := WriteText(TypedTel().(previewText := None, ignoreNextChanged := true), TypedTel().realText);
            && s1.focused && s1.realText == "tel" && s1.previewText.None?
            && PreviewGuardAsWritten(s1.focused, Some(s1.realText), s1.previewText).None?
  {
  }

  /**
   * Leaving the box while a preview shows puts back the typed text. The nested
   * `TextChanged` meets the focus test before the ignore test, so the ignore
   * flag stays armed, the no-op `SetRealText` arms the internal flag, and
   * `IsPreviewing` is not cleared.
   */
  lemma LeavingCollapsesPreview()
    ensures var r := Step(TypedTel(), FocusLost);
            && r.text == r.realText == "tel"
            && r.isPreviewing
            && r.ignoreNextChanged && r.isInternalRealTextSet
  {
  }

  /**
   * An outside write to `RealText` while the box is unfocused replaces the
   * displayed text, but the nested `TextChanged` calls `SetRealText` with the
   * value `RealText` already has, which leaves the internal flag armed: the
   * next outside write changes `RealText` and not the displayed text.
   */
  lemma OutsideRealTextWritesAlternate(s: Box, v: Str, w: Str)
    requires !s.focused && !s.isInternalRealTextSet
    requires s.realText != v && s.text != v && w != v
    ensures var r1 := AssignRealText(s, v);
            r1.text == r1.realText == v && r1.isInternalRealTextSet
    ensures var r2 := AssignRealText(AssignRealText(s, v), w);
            r2.realText == w && r2.text == v && !r2.isInternalRealTextSet
  {
  }

  /**
   * When the candidate changes while no preview shows and the new one does
   * not match, `Text = RealText` is a no-op and the ignore flag it armed stays
   * armed: the next keystroke is swallowed and `RealText` misses it.
   */
  lemma CandidateChangeSwallowsNextEdit(s: Box, v: Option<Str>, typed: Str, caret: nat)
    requires s.focused && !s.isDeleting && s.text == s.realText
    requires v != s.previewText && !IsNullOrEmpty(v) && !PreviewGuard(true, Some(s.realText), v)
    requires typed != s.text
    ensures AssignPreviewText(s, v).ignoreNextChanged
    ensures var r := Edit(AssignPreviewText(s, v), typed, caret);
            r.realText == s.realText && r.text == typed && !r.ignoreNextChanged
  {
  }

  /** Delivering the same candidate twice leaves the state the first delivery left. */
  lemma CandidateDeliveryIdempotent(s: Box, v: Option<Str>)
    ensures AssignPreviewText(AssignPreviewText(s, v), v) == AssignPreviewText(s, v)
  {
  }
}
