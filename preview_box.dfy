/**
 * `PreviewTextBox` as a class whose handlers run as the source writes them.
 * Property writes with a change callback are explicit: `SetText` and
 * `AssignRealText` assign and, only when the value differs, call the handler
 * synchronously, so `OnTextChanged` and `RealTextChanged` are re-entered from
 * inside the other handlers. Each handler is proved to leave the state that
 * the matching function of module PreviewSpec describes.
 */
module PreviewBox {
  import opened Common
  import opened PreviewSpec

  class PreviewTextBox {
    var text: Str
    var realText: Str
    var previewText: Option<Str>
    var isPreviewing: bool
    var selection: Selection
    /** `IsFocused`: owned by the host, read by the handlers. */
    var isFocused: bool
    var ignoreNextChanged: bool
    var isDeleting: bool
    var isInternalRealTextSet: bool

    function Snap(): Box
      reads this
    {
      Box(text, realText, previewText, isPreviewing, selection, isFocused,
          ignoreNextChanged, isDeleting, isInternalRealTextSet)
    }

    ghost predicate Valid()
      reads this
    {
      Inv(Snap())
    }

    constructor ()
      ensures Snap() == Initial() && Valid()
    {
      text, realText, previewText := [], [], None;
      isPreviewing, selection, isFocused := false, Selection(0, 0), false;
      ignoreNextChanged, isDeleting, isInternalRealTextSet := false, false, false;
    }

    predicate HasPreviewText()
      reads this
    {
      !IsNullOrEmpty(previewText)
    }

    /**
     * True when `OnTextChanged` would return before trying a preview; it
     * ranks the re-entrant calls, which only go one level deeper through a
     * write made in such a state.
     */
    predicate Swallowing()
      reads this
    {
      isDeleting || !isFocused || !HasPreviewText() || ignoreNextChanged
    }

    /** `Text = v`. */
    method SetText(v: Str)
      modifies this
      ensures Snap() == WriteText(old(Snap()), v)
      decreases if Swallowing() then 1 else 2, 3
    {
      if text != v {
        text, selection := v, Selection(0, 0);
        OnTextChanged();
      }
    }

    /** `SelectionStart = n`. */
    method SetSelectionStart(n: nat)
      modifies this
      ensures Snap() == PreviewSpec.SetSelectionStart(old(Snap()), n)
    {
      selection := Select(text, n, selection.length);
    }

    /** `SelectionLength = n`. */
    method SetSelectionLength(n: nat)
      modifies this
      ensures Snap() == PreviewSpec.SetSelectionLength(old(Snap()), n)
    {
      selection := Select(text, selection.start, n);
    }

    /** `RealText = v`, which raises `RealTextChanged` when the value differs. */
    method AssignRealText(v: Str)
      modifies this
      ensures Snap() == PreviewSpec.AssignRealText(old(Snap()), v)
      decreases if isInternalRealTextSet then 0 else 3, 6
    {
      if realText != v {
        realText := v;
        RealTextChanged();
      }
    }

    method RealTextChanged()
      modifies this
      ensures Snap() == PreviewSpec.RealTextChanged(old(Snap()))
      decreases if isInternalRealTextSet then 0 else 3, 5
    {
      if isInternalRealTextSet {
        isInternalRealTextSet := !isInternalRealTextSet;
        return;
      }
      SetText(realText);
    }

    /** Set `RealText` without letting `RealTextChanged` rewrite `Text`. */
    method SetRealText(v: Str)
      modifies this
      ensures Snap() == PreviewSpec.SetRealText(old(Snap()), v)
      decreases 1, 0
    {
      isInternalRealTextSet := true;
      AssignRealText(v);
    }

    method OnTextChanged()
      modifies this
      ensures Snap() == PreviewSpec.OnTextChanged(old(Snap()))
      decreases if Swallowing() then 1 else 2, 2
    {
      if isDeleting {
        SetRealText(text);
        isDeleting := !isDeleting;
        return;
      }
      if !isFocused {
        SetRealText(text);
        return;
      }
      if !HasPreviewText() {
        SetRealText(text);
        return;
      }
      if ignoreNextChanged {
        ignoreNextChanged := !ignoreNextChanged;
        return;
      }
      if text != realText {
        SetRealText(text);
      }
      TryPreviewText(realText, previewText);
    }

    method TryPreviewText(t: Str, p: Option<Str>)
      modifies this
      ensures Snap() == PreviewSpec.TryPreviewText(old(Snap()), t, p)
      decreases 2, 0
    {
      if PreviewGuard(isFocused, Some(t), p) {
        isPreviewing := true;
        ignoreNextChanged := true;
        SetText(p.value);
        SetSelectionStart(|t|);
        SetSelectionLength(|p.value| - |t|);
      } else {
        isPreviewing := false;
      }
    }

    method OnPreviewKeyDown(key: Key)
      modifies this
      ensures Snap() == PreviewSpec.OnPreviewKeyDown(old(Snap()), key)
    {
      if !HasPreviewText() {
        return;
      }
      if key == Back {
        isDeleting := true;
        SetRealText(text);
      } else if key == Enter {
        if realText != text {
          SetRealText(previewText.value);
          SetText(realText);
          SetSelectionStart(|previewText.value|);
          isPreviewing := false;
        }
      } else if IsArrow(key) {
        if isPreviewing {
          ignoreNextChanged := true;
          SetText(realText);
          SetSelectionStart(|text|);
          isPreviewing := false;
        }
      }
    }

    method OnLostFocus()
      requires !isFocused
      modifies this
      ensures Snap() == PreviewSpec.OnLostFocus(old(Snap()))
    {
      if !HasPreviewText() {
        return;
      }
      if realText != text {
        ignoreNextChanged := true;
        SetText(realText);
      }
    }

    method PreviewTextChanged()
      modifies this
      ensures Snap() == PreviewSpec.PreviewTextChanged(old(Snap()))
    {
      ignoreNextChanged := true;
      SetText(realText);
      TryPreviewText(realText, previewText);
      SetSelectionStart(|realText|);
    }

    /** `PreviewText = v`, which raises `PreviewTextChanged` when the value differs. */
    method AssignPreviewText(v: Option<Str>)
      modifies this
      ensures Snap() == PreviewSpec.AssignPreviewText(old(Snap()), v)
    {
      if previewText != v {
        previewText := v;
        PreviewTextChanged();
      }
    }

    /** The host puts new text and a caret in the box, then raises `TextChanged` if the text differs. */
    method Edit(v: Str, caret: nat)
      modifies this
      ensures Snap() == PreviewSpec.Edit(old(Snap()), v, caret)
    {
      var changed := text != v;
      text, selection := v, Select(v, caret, 0);
      if changed {
        OnTextChanged();
      }
    }

    /** The host delivers one event; the control's invariant is kept. */
    method Handle(e: Event)
      requires Valid()
      modifies this
      ensures Snap() == Step(old(Snap()), e) && Valid()
    {
      StepPreservesInv(Snap(), e);
      match e
      case KeyDown(k) => OnPreviewKeyDown(k);
      case TextEdited(v, c) => Edit(v, c);
      case FocusGained => isFocused := true;
      case FocusLost =>
        isFocused := false;
        OnLostFocus();
      case PreviewTextAssigned(c) => AssignPreviewText(c);
      case RealTextAssigned(v) => AssignRealText(v);
    }
  }
}
