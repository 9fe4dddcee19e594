/**
 * The preview/commit state machine of `AutoSelectTextBox`, as the net effect
 * of each handler on a snapshot of the control. It differs from
 * `PreviewTextBox`: `RealText` starts as `null` and has no change callback,
 * every key is recorded, Backspace arms the ignore flag as well, a text change
 * after a delete falls through to the ignore test, text changes are processed
 * without a focus test, and arrows are not handled.
 */
module AutoSelectSpec {
  import opened Common

  datatype Box = Box(
    text: Str,
    realText: Option<Str>,
    autoSelectText: Option<Str>,
    isPreviewing: bool,
    selection: Selection,
    focused: bool,
    lastKey: Key,
    ignoreNextChanged: bool,
    isDeleting: bool)

  /** A fresh control: `RealText` and `AutoSelectText` are null, `_lastKey` is `Key.None`. */
  function Initial(): (s: Box)
    ensures !s.isPreviewing && s.text == [] && s.realText.None? && s.autoSelectText.None?
  {
    Box([], None, None, false, Selection(0, 0), false, NoKey, false, false)
  }

  /** `HasAutoSelectText`: the candidate is neither null nor "". */
  predicate HasAutoSelectText(s: Box): (r: bool)
    ensures r <==> s.autoSelectText.Some? && |s.autoSelectText.value| > 0
  {
    !IsNullOrEmpty(s.autoSelectText)
  }

  /** The assignment `Text = v` itself, before `TextChanged` is raised: the caret goes to 0. */
  function AssignText(s: Box, v: Str): Box {
    s.(text := v, selection := Selection(0, 0))
  }

  function SetSelectionStart(s: Box, n: nat): Box {
    s.(selection := Select(s.text, n, s.selection.length))
  }

  function SetSelectionLength(s: Box, n: nat): Box {
    s.(selection := Select(s.text, s.selection.start, n))
  }

  /** The first block of `OnTextChanged`: after a delete `RealText` takes `Text`; it does not return. */
  function AfterDelete(s: Box): (r: Box)
    ensures !r.isDeleting
    ensures s.isDeleting ==> r == s.(realText := Some(s.text), isDeleting := false)
    ensures !s.isDeleting ==> r == s
  {
    if s.isDeleting then s.(realText := Some(s.text), isDeleting := false) else s
  }

  /** The states in which `OnTextChanged` returns before it reaches `PreviewText`. */
  predicate Swallows(s: Box) {
    !HasAutoSelectText(s) || s.ignoreNextChanged
  }

  /**
   * `OnTextChanged` up to its returns: without a candidate `RealText` follows
   * `Text`; otherwise the armed ignore flag is consumed.
   */
  function Swallow(s: Box): (r: Box)
    requires Swallows(s)
    ensures r.text == s.text && r.selection == s.selection && r.isPreviewing == s.isPreviewing
    ensures r.autoSelectText == s.autoSelectText && r.focused == s.focused && r.lastKey == s.lastKey
    ensures !r.isDeleting
    ensures !HasAutoSelectText(s) ==> r.realText == Some(s.text) && r.ignoreNextChanged == s.ignoreNextChanged
    ensures HasAutoSelectText(s) ==>
              && !r.ignoreNextChanged
              && r.realText == (if s.isDeleting then Some(s.text) else s.realText)
  {
    var s1 := AfterDelete(s);
    if !HasAutoSelectText(s1) then s1.(realText := Some(s1.text))
    else s1.(ignoreNextChanged := false)
  }

  /**
   * `PreviewText(t, p)`: when the guard holds, the whole candidate is
   * displayed with its tail after `t` selected and `IsPreviewing` set, and the
   * nested `TextChanged` is swallowed; otherwise only `IsPreviewing` is cleared.
   */
  function PreviewText(s: Box, t: Option<Str>, p: Option<Str>): (r: Box)
    ensures s.realText.Some? ==> r.realText.Some?
    ensures r.autoSelectText == s.autoSelectText && r.focused == s.focused && r.lastKey == s.lastKey
    ensures PreviewGuard(s.focused, t, p) ==>
              && r.isPreviewing
              && r.text == p.value
              && r.selection == Selection(|t.value|, |p.value| - |t.value|)
              && StartsWithIgnoreCase(r.text, t.value)
    ensures PreviewGuard(s.focused, t, p) && p == s.autoSelectText && !s.isDeleting && s.text != p.value ==>
              r == s.(text := p.value, selection := Selection(|t.value|, |p.value| - |t.value|),
                      isPreviewing := true, ignoreNextChanged := false)
    ensures !PreviewGuard(s.focused, t, p) ==> r == s.(isPreviewing := false)
  {
    if PreviewGuard(s.focused, t, p) then
      var s1 := s.(isPreviewing := true, ignoreNextChanged := true);
      var s2 := if s1.text == p.value then s1 else Swallow(AssignText(s1, p.value));
      SetSelectionLength(SetSelectionStart(s2, |t.value|), |p.value| - |t.value|)
    else
      s.(isPreviewing := false)
  }

  /**
   * `OnTextChanged`. A change after a delete copies `Text` into `RealText`
   * and then meets the ignore flag that Backspace armed; without a candidate
   * `RealText` follows `Text`; otherwise `RealText` takes the typed text and
   * the preview is tried. No branch tests the focus.
   */
  function OnTextChanged(s: Box): (r: Box)
    ensures !r.isDeleting
    ensures s.realText.Some? ==> r.realText.Some?
    ensures r.autoSelectText == s.autoSelectText && r.focused == s.focused && r.lastKey == s.lastKey
    ensures !HasAutoSelectText(s) ==> r == s.(realText := Some(s.text), isDeleting := false)
    ensures HasAutoSelectText(s) && s.ignoreNextChanged ==>
              r == s.(realText := if s.isDeleting then Some(s.text) else s.realText,
                      isDeleting := false, ignoreNextChanged := false)
    ensures !Swallows(s) ==> r.realText == Some(s.text) && !r.ignoreNextChanged
    ensures !Swallows(s) && PreviewGuard(s.focused, Some(s.text), s.autoSelectText) ==>
              && r.isPreviewing
              && r.text == s.autoSelectText.value
              && r.selection == Selection(|s.text|, |s.autoSelectText.value| - |s.text|)
    ensures !Swallows(s) && !PreviewGuard(s.focused, Some(s.text), s.autoSelectText) ==>
              r == s.(realText := Some(s.text), isDeleting := false, isPreviewing := false)
  {
    if Swallows(s) then Swallow(s)
    else
      var s1 := AfterDelete(s);
      var s2 := if Some(s1.text) != s1.realText then s1.(realText := Some(s1.text)) else s1;
      PreviewText(s2, s2.realText, s2.autoSelectText)
  }

  /** `Text = v`: `TextChanged` is raised only when the value differs. */
  function WriteText(s: Box, v: Str): (r: Box)
    ensures s.text == v ==> r == s
    ensures s.realText.Some? ==> r.realText.Some?
    ensures r.autoSelectText == s.autoSelectText && r.focused == s.focused && r.lastKey == s.lastKey
  {
    if s.text == v then s else OnTextChanged(AssignText(s, v))
  }

  /**
   * `OnPreviewKeyDown`: every key is recorded in `_lastKey`. With a
   * candidate, Backspace arms both flags and copies `Text` into `RealText`,
   * and Enter commits the candidate (`Text = RealText = AutoSelectText`)
   * whenever `RealText` differs from `Text`, whether or not a preview shows.
   */
  function OnPreviewKeyDown(s: Box, key: Key): (r: Box)
    ensures r.lastKey == key
    ensures r.autoSelectText == s.autoSelectText && r.focused == s.focused
    ensures !HasAutoSelectText(s) ==> r == s.(lastKey := key)
    ensures HasAutoSelectText(s) && key == Back ==>
              r == s.(lastKey := key, isDeleting := true, ignoreNextChanged := true, realText := Some(s.text))
    ensures HasAutoSelectText(s) && key == Enter && s.realText != Some(s.text) ==>
              && r.realText == Some(r.text)
              && r.text == s.autoSelectText.value
              && r.selection == Selection(|s.autoSelectText.value|, 0)
              && !r.isPreviewing
    ensures key == Enter && s.realText == Some(s.text) ==> r == s.(lastKey := key)
    ensures key != Back && key != Enter ==> r == s.(lastKey := key)
  {
    var s0 := s.(lastKey := key);
    if !HasAutoSelectText(s0) then s0
    else if key == Back then
      s0.(isDeleting := true, ignoreNextChanged := true, realText := Some(s0.text))
    else if key == Enter then
      if s0.realText != Some(s0.text) then
        var p := s0.autoSelectText.value;
        var s1 := WriteText(s0.(realText := Some(p)), p);
        SetSelectionStart(s1, |p|).(isPreviewing := false)
      else s0
    else s0
  }

  /**
   * `OnLostFocus`, run once the host has cleared `IsFocused`: with a candidate
   * and a showing difference, `Text` is reset to `RealText` (null becomes "")
   * with the ignore flag armed, which the nested `TextChanged` consumes.
   */
  function OnLostFocus(s: Box): (r: Box)
    requires !s.focused
    ensures !HasAutoSelectText(s) || s.realText == Some(s.text) ==> r == s
    ensures HasAutoSelectText(s) && s.realText != Some(s.text) ==>
              && r.text == TextOrEmpty(s.realText)
              && r.isPreviewing == s.isPreviewing
              && (s.realText.Some? || !s.isDeleting ==> r.realText == s.realText)
              && (s.text != TextOrEmpty(s.realText) ==> !r.ignoreNextChanged)
  {
    if !HasAutoSelectText(s) then s
    else if s.realText != Some(s.text) then WriteText(s.(ignoreNextChanged := true), TextOrEmpty(s.realText))
    else s
  }

  /** A preview is only ever shown over a non-null `RealText`. */
  predicate Consistent(s: Box) {
    s.isPreviewing ==> s.realText.Some?
  }

  /**
   * `AutoSelectTextChanged`, raised after `AutoSelectText` changed: `Text` is
   * reset to `RealText` with the ignore flag armed and the preview is retried
   * against the new candidate. The caret is moved to the end of `RealText`
   * only when a preview was showing before the change. When a delete is
   * still pending and `Text` already shows `RealText`, the nested change of
   * the preview write meets the delete flag and the whole candidate becomes
   * `RealText`.
   */
  function AutoSelectTextChanged(s: Box): (r: Box)
    requires Consistent(s)
    ensures Consistent(r)
    ensures r.autoSelectText == s.autoSelectText && r.focused == s.focused && r.lastKey == s.lastKey
    ensures (!s.isDeleting || s.text != TextOrEmpty(s.realText)) && PreviewGuard(s.focused, s.realText, s.autoSelectText) ==>
              && r.realText == s.realText
              && r.isPreviewing
              && r.text == s.autoSelectText.value
              && r.selection == Selection(|s.realText.value|, |s.autoSelectText.value| - |s.realText.value|)
              && !r.ignoreNextChanged
    ensures s.isDeleting && s.text == TextOrEmpty(s.realText) && PreviewGuard(s.focused, s.realText, s.autoSelectText) ==>
              && r.realText == Some(r.text)
              && r.text == s.autoSelectText.value
              && r.isPreviewing
              && r.selection == (if s.isPreviewing then Selection(|s.autoSelectText.value|, 0)
                                 else Selection(|s.realText.value|, |s.autoSelectText.value| - |s.realText.value|))
              && !r.ignoreNextChanged && !r.isDeleting
    ensures !PreviewGuard(s.focused, s.realText, s.autoSelectText) ==>
              && r.text == TextOrEmpty(s.realText)
              && !r.isPreviewing
              && (s.realText.Some? ==> r.realText == s.realText)
    ensures !PreviewGuard(s.focused, s.realText, s.autoSelectText) && s.isPreviewing ==>
              r.selection == Selection(|s.realText.value|, 0)
    ensures !PreviewGuard(s.focused, s.realText, s.autoSelectText) && !s.isPreviewing ==>
              r.selection == if s.text == TextOrEmpty(s.realText) then s.selection else Selection(0, 0)
  {
    var setCaretAtEnd := s.isPreviewing;
    var s1 := WriteText(s.(ignoreNextChanged := true), TextOrEmpty(s.realText));
    var s2 := PreviewText(s1, s1.realText, s1.autoSelectText);
    if setCaretAtEnd then SetSelectionStart(s2, |s2.realText.value|) else s2
  }

  /** `AutoSelectText = v`: the change callback runs only when the value differs. */
  function AssignAutoSelectText(s: Box, v: Option<Str>): (r: Box)
    requires Consistent(s)
    ensures Consistent(r)
    ensures r.autoSelectText == v
    ensures s.autoSelectText == v ==> r == s
  {
    if s.autoSelectText == v then s else AutoSelectTextChanged(s.(autoSelectText := v))
  }

  /**
   * The host puts new text and a caret in the box, then raises `TextChanged`
   * if the text differs.
   */
  function Edit(s: Box, v: Str, caret: nat): (r: Box)
    ensures s.text == v ==> r == s.(selection := Select(v, caret, 0))
    ensures s.text != v ==> !r.isDeleting
  {
    var s1 := s.(text := v, selection := Select(v, caret, 0));
    if s.text == v then s1 else OnTextChanged(s1)
  }

  datatype Event =
    | KeyDown(key: Key)
    | TextEdited(newText: Str, caret: nat)
    | FocusGained
    | FocusLost
    | AutoSelectTextAssigned(candidate: Option<Str>)
    /** `RealText` has no change callback: an outside write only stores the value. */
    | RealTextAssigned(value: Str)

  function Step(s: Box, e: Event): (r: Box)
    requires Consistent(s)
    ensures Consistent(r)
  {
    match e
    case KeyDown(k) => OnPreviewKeyDown(s, k)
    case TextEdited(v, c) => Edit(s, v, c)
    case FocusGained => s.(focused := true)
    case FocusLost => OnLostFocus(s.(focused := false))
    case AutoSelectTextAssigned(c) => AssignAutoSelectText(s, c)
    case RealTextAssigned(v) => s.(realText := Some(v))
  }

  function Run(s: Box, es: seq<Event>): Box
    requires Consistent(s)
    decreases |es|
  {
    if es == [] then s else Run(Step(s, es[0]), es[1..])
  }

  /**
   * What holds in every reachable state: the selection lies inside the
   * displayed text, without a candidate nothing is previewed, and a preview
   * is only shown over a non-null `RealText`.
   */
  predicate Inv(s: Box) {
    && s.selection.start + s.selection.length <= |s.text|
    && (!HasAutoSelectText(s) ==> !s.isPreviewing)
    && Consistent(s)
  }

  lemma StepPreservesInv(s: Box, e: Event)
    requires Inv(s)
    ensures Inv(Step(s, e))
  {
  }

  lemma {:induction false} RunPreservesInv(s: Box, es: seq<Event>)
    requires Inv(s)
    ensures Inv(Run(s, es))
    decreases |es|
  {
    if es != [] {
      StepPreservesInv(s, es[0]);
      RunPreservesInv(Step(s, es[0]), es[1..]);
    }
  }
}
