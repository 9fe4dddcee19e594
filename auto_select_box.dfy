/**
 * `AutoSelectTextBox` as a class whose handlers run as the source writes
 * them. Writing `Text` goes through `SetText`, which raises `OnTextChanged`
 * synchronously when the value differs; `RealText` has no change callback and
 * is a plain field. Each handler is proved to leave the state that the
 * matching function of module AutoSelectSpec describes.
 */
module AutoSelectBox {
  import opened Common
  import opened AutoSelectSpec

  class AutoSelectTextBox {
    var text: Str
    var realText: Option<Str>
    var autoSelectText: Option<Str>
    var isPreviewing: bool
    var selection: Selection
    /** `IsFocused`: owned by the host, read by the handlers. */
    var isFocused: bool
    var lastKey: Key
    var ignoreNextChanged: bool
    var isDeleting: bool

    function Snap(): Box
      reads this
    {
      Box(text, realText, autoSelectText, isPreviewing, selection, isFocused,
          lastKey, ignoreNextChanged, isDeleting)
    }

    ghost predicate Valid()
      reads this
    {
      Inv(Snap())
    }

    constructor ()
      ensures Snap() == Initial() && Valid()
    {
      text, realText, autoSelectText := [], None, None;
      isPreviewing, selection, isFocused := false, Selection(0, 0), false;
      lastKey, ignoreNextChanged, isDeleting := NoKey, false, false;
    }

    predicate HasAutoSelectText()
      reads this
    {
      !IsNullOrEmpty(autoSelectText)
    }

    /** True when `OnTextChanged` would return before trying a preview; it ranks the re-entrant calls. */
    predicate Swallowing()
      reads this
    {
      !HasAutoSelectText() || ignoreNextChanged
    }

    /** `Text = v`. */
    method SetText(v: Str)
      modifies this
      ensures Snap() == WriteText(old(Snap()), v)
      decreases if Swallowing() then 1 else 2, 3
    {
      if text != v {
        text, selection := v, Selection(0, 0);
        OnTextChanged();
      }
    }

    /** `SelectionStart = n`. */
    method SetSelectionStart(n: nat)
      modifies this
      ensures Snap() == AutoSelectSpec.SetSelectionStart(old(Snap()), n)
    {
      selection := Select(text, n, selection.length);
    }

    /** `SelectionLength = n`. */
    method SetSelectionLength(n: nat)
      modifies this
      ensures Snap() == AutoSelectSpec.SetSelectionLength(old(Snap()), n)
    {
      selection := Select(text, selection.start, n);
    }

    method OnTextChanged()
      modifies this
      ensures Snap() == AutoSelectSpec.OnTextChanged(old(Snap()))
      decreases if Swallowing() then 1 else 2, 2
    {
      if isDeleting {
        realText := Some(text);
        isDeleting := !isDeleting;
      }
      if !HasAutoSelectText() {
        realText := Some(text);
        return;
      }
      if ignoreNextChanged {
        ignoreNextChanged := !ignoreNextChanged;
        return;
      }
      if Some(text) != realText {
        realText := Some(text);
      }
      PreviewText(realText, autoSelectText);
    }

    method PreviewText(t: Option<Str>, p: Option<Str>)
      modifies this
      ensures Snap() == AutoSelectSpec.PreviewText(old(Snap()), t, p)
      decreases 2, 0
    {
      if PreviewGuard(isFocused, t, p) {
        isPreviewing := true;
        ignoreNextChanged := true;
        SetText(p.value);
        SetSelectionStart(|t.value|);
        SetSelectionLength(|p.value| - |t.value|);
      } else {
        isPreviewing := false;
      }
    }

    method OnPreviewKeyDown(key: Key)
      modifies this
      ensures Snap() == AutoSelectSpec.OnPreviewKeyDown(old(Snap()), key)
    {
      lastKey := key;
      if !HasAutoSelectText() {
        return;
      }
      if lastKey == Back {
        isDeleting := true;
        ignoreNextChanged := true;
        realText := Some(text);
      } else if lastKey == Enter {
        if realText != Some(text) {
          // Text = RealText = AutoSelectText
          var v := autoSelectText.value;
          realText := Some(v);
          SetText(v);
          SetSelectionStart(|autoSelectText.value|);
          isPreviewing := false;
        }
      }
    }

    method OnLostFocus()
      requires !isFocused
      modifies this
      ensures Snap() == AutoSelectSpec.OnLostFocus(old(Snap()))
    {
      if !HasAutoSelectText() {
        return;
      }
      if realText != Some(text) {
        ignoreNextChanged := true;
        SetText(TextOrEmpty(realText));
      }
    }

    method AutoSelectTextChanged()
      requires Consistent(Snap())
      modifies this
      ensures Snap() == AutoSelectSpec.AutoSelectTextChanged(old(Snap()))
    {
      var setCaretAtEnd := isPreviewing;
      ignoreNextChanged := true;
      SetText(TextOrEmpty(realText));
      PreviewText(realText, autoSelectText);
      if setCaretAtEnd {
        SetSelectionStart(|realText.value|);
      }
    }

    /** `AutoSelectText = v`, which raises `AutoSelectTextChanged` when the value differs. */
    method AssignAutoSelectText(v: Option<Str>)
      requires Consistent(Snap())
      modifies this
      ensures Snap() == AutoSelectSpec.AssignAutoSelectText(old(Snap()), v)
    {
      if autoSelectText != v {
        autoSelectText := v;
        AutoSelectTextChanged();
      }
    }

    /** The host puts new text and a caret in the box, then raises `TextChanged` if the text differs. */
    method Edit(v: Str, caret: nat)
      modifies this
      ensures Snap() == AutoSelectSpec.Edit(old(Snap()), v, caret)
    {
      var changed := text != v;
      text, selection := v, Select(v, caret, 0);
      if changed {
        OnTextChanged();
      }
    }

    /** The host delivers one event; the control's invariant is kept. */
    method Handle(e: Event)
      requires Valid()
      modifies this
      ensures Snap() == Step(old(Snap()), e) && Valid()
    {
      StepPreservesInv(Snap(), e);
      match e
      case KeyDown(k) => OnPreviewKeyDown(k);
      case TextEdited(v, c) => Edit(v, c);
      case FocusGained => isFocused := true;
      case FocusLost =>
        isFocused := false;
        OnLostFocus();
      case AutoSelectTextAssigned(c) => AssignAutoSelectText(c);
      case RealTextAssigned(v) => realText := Some(v);
    }
  }
}
