# PreviewTextBox and AutoSelectTextBox: the preview/commit state machine

Two WPF text boxes offer a completion while the user types. Each keeps:

- `Text`, what is displayed.
- `RealText`, what the user actually typed.
- A candidate: `PreviewText` or `AutoSelectText`.
- `IsPreviewing`.
- A selection.
- One-shot flags: `_ignoreNextChanged`, `_isDeleting` and, in `PreviewTextBox` only, `_isInternalRealTextSet`.

When the typed text is a non-empty, strictly shorter, case-insensitive prefix of the candidate and the box has focus, the whole candidate is displayed with its untyped tail selected. Enter commits it. An arrow key (`PreviewTextBox` only) or losing focus puts the typed text back. Backspace removes the preview.

Every handler is modelled twice. Both layers are proved to agree.

- **Spec modules (`PreviewSpec`, `AutoSelectSpec`).** A `datatype Box` is a snapshot of every field. Each handler is a function giving the net effect of the whole call on a snapshot, re-entrant writes included. The function's contract says what the handler does branch by branch. `Step` and `Run` replay a sequence of host events, and an invariant is proved to hold in every reachable state.
- **Class modules (`PreviewBox`, `AutoSelectBox`).** A class holds the same fields as mutable state. Its methods run the handlers statement by statement, in source order. Writing `Text` (or, in `PreviewTextBox`, `RealText`) calls the change handler synchronously, and only when the value differs, just as WPF's change callbacks do. The methods call each other re-entrantly. Each method ensures `Snap() == <Spec>.<Handler>(old(Snap()), …)`, and termination of the re-entrant calls is proved from the flags.
- **Properties modules (`PreviewProperties`, `AutoSelectProperties`).** Whole interactions (typing, committing, deleting, leaving), and the consequences of flags the handlers leave armed.

Module `Common` holds:

- the nullable string (`Option`)
- the selection and the clamping `Select` that `SelectionStart`/`SelectionLength` go through
- an ASCII case fold and the prefix test
- the preview guard shared by `TryPreviewText` and `PreviewText`

Host assumptions, stated as inputs and helper functions:

- `IsFocused` is an input the host sets. For lost focus, the host clears it before the handler runs.
- A `Text` write that changes the value puts the caret at 0, then raises `TextChanged`.
- `Text = null` stores "".
- The host's own edits (typing, deleting, pasting) are the `TextEdited(newText, caret)` event. The host puts the new text and caret in place, then raises `TextChanged` if the text differs.

Where the code and the controls' documented intent disagree, the model follows the code, and the lemmas in the Properties modules show the difference:

- In `PreviewTextBox`, losing focus resets `Text` but leaves `_ignoreNextChanged` and `_isInternalRealTextSet` armed. It does not clear `IsPreviewing`.
- Backspace copies the displayed text, preview tail included, into `RealText`. `IsPreviewing` stays set after the delete.
- A candidate assignment while `Text == RealText` that offers no preview leaves `_ignoreNextChanged` armed. The next keystroke is therefore swallowed, and this includes the first letter typed after the first candidate arrives.
- The same no-op reset happens in two more places, and the next typed letter is again shown but missed by `RealText`:
  - In `PreviewTextBox`, an arrow pressed after Backspace has landed (`Text == RealText`, `IsPreviewing` still set) arms the ignore flag, and `Text = RealText` changes nothing.
  - In `AutoSelectTextBox`, leaving the box while `RealText` is null and `Text` is "" arms the ignore flag, and `Text = RealText` stores "" again.
- In `PreviewTextBox`, external `RealText` writes while unfocused alternate between replacing `Text` and being stored in `RealText` without being shown in `Text`.
- Enter commits whenever `RealText != Text`, not only while a preview shows: after a swallowed first letter in `PreviewTextBox`, and in `AutoSelectTextBox` with nothing typed (a null `RealText` differs from ""), Enter fills in the candidate.
- A Backspace that deletes nothing (caret at 0) raises no text change and leaves `_isDeleting` armed. A matching candidate change while `Text == RealText` then copies the whole candidate into `RealText`.
- So "`IsPreviewing` implies `Text` longer than `RealText`" and "no preview implies `Text == RealText`" do not hold as invariants. The invariants proved are:
  - the selection lies inside `Text`
  - without a candidate nothing is previewed
  - in `AutoSelectTextBox`, a preview is shown only over a non-null `RealText`

## Model

| member | source | states |
|---|---|---|
| Common.Select | PreviewTextBox/PreviewTextBox.cs:288-289 | The selection set through `SelectionStart`/`SelectionLength` always lies inside the text. A request that fits is taken exactly, and one that does not is cut at the end of the text. |
| Common.Fold | PreviewTextBox/PreviewTextBox.cs:280 | The case fold behind `InvariantCultureIgnoreCase` maps each upper-case ASCII letter to the lower-case letter at the same place in the alphabet, and leaves every other character unchanged. |
| Common.FoldIgnoresCase | PreviewTextBox/PreviewTextBox.cs:280 | Two characters compare equal ignoring case exactly when they are equal or are the upper- and lower-case forms of one ASCII letter; folding twice is folding once. |
| Common.StartsWithIgnoreCase | PreviewTextBox/PreviewTextBox.cs:280 | `previewText.StartsWith(text, InvariantCultureIgnoreCase)` holds exactly when the prefix is no longer than the string and each of its characters folds like the string's character at the same place. |
| Common.PreviewGuard | PreviewTextBox/PreviewTextBox.cs:277-280 | The preview rule shared by both controls: the box is focused, the text is non-null and non-empty, strictly shorter than the candidate, and the candidate starts with it ignoring case. A null candidate is no match, where the code throws (see Findings). A preview therefore never shows a null or empty candidate, nor the typed text unchanged. |
| Common.PreviewGuardAsWritten | PreviewTextBox/PreviewTextBox.cs:277-280 | The guard evaluated left to right with short-circuit throws exactly when the box is focused, the text is non-empty and the candidate is null. Otherwise it agrees with the preview rule. |
| Common.NullCandidateThrows | PreviewTextBox/PreviewTextBox.cs:279 | A focused box holding "tel" with a null candidate reaches `previewText.Length` on null. |
| Common.GuardCorrected | WPFAutoSelectTextBox/AutoSelectTextBox.cs:188-191 | The corrected guard never previews a null or empty candidate. It agrees with the as-written guard on every input where that one does not throw. |
| PreviewSpec.HasPreviewText | PreviewTextBox/PreviewTextBox.cs:257-263 | There is a candidate exactly when `PreviewText` is neither null nor "". |
| PreviewSpec.Initial | PreviewTextBox/PreviewTextBox.cs:91-122 | A new box shows "", its `RealText` is "", its candidate is null and it is not previewing. |
| PreviewSpec.SetRealText | PreviewTextBox/PreviewTextBox.cs:301-305 | `RealText` takes the value and `Text` is never touched. The internal flag stays armed exactly when the write was a no-op, because `RealTextChanged` is then not raised to consume it. |
| PreviewSpec.Swallow | PreviewTextBox/PreviewTextBox.cs:200-231 | The early returns of `OnTextChanged` never change the display. After a delete, while unfocused or without a candidate, `RealText` becomes `Text` (a delete also clears `_isDeleting`). Otherwise the armed ignore flag is consumed and nothing else changes. |
| PreviewSpec.TryPreviewText | PreviewTextBox/PreviewTextBox.cs:275-295 | When the guard holds: `IsPreviewing` is set, the whole candidate is displayed, the selection is (`\|text\|`, `\|candidate\| - \|text\|`) and the display starts with the text ignoring case; when the candidate is the current one, no delete is pending and the candidate is not already shown, only those fields change and the ignore flag ends up cleared. When the guard fails, only `IsPreviewing` is cleared. |
| PreviewSpec.OnTextChanged | PreviewTextBox/PreviewTextBox.cs:196-240 | Branch by branch. After a delete, while unfocused or without a candidate, `RealText` follows `Text` and there is no preview. An armed ignore flag is consumed and nothing else changes. Otherwise `RealText` becomes `Text` and the preview is tried: on a match the candidate is shown with the tail selected, and it agrees with `RealText` up to case over the typed prefix; on no match `Text` and the selection are unchanged and `IsPreviewing` is cleared. |
| PreviewSpec.WriteText | PreviewTextBox/PreviewTextBox.cs:22 | `Text = v` with `v` already shown changes nothing. No text write alters the candidate or the focus. |
| PreviewSpec.RealTextChanged | PreviewTextBox/PreviewTextBox.cs:177-189 | An internal write is consumed, clearing the flag and nothing else. An external write keeps `RealText` and shows it in `Text`, or a preview of the candidate that starts with it. |
| PreviewSpec.AssignRealText | PreviewTextBox/PreviewTextBox.cs:123-139 | After `RealText = v`, `RealText` is `v`. Writing the current value changes nothing. |
| PreviewSpec.OnPreviewKeyDown | PreviewTextBox/PreviewTextBox.cs:26-69 | Without a candidate nothing happens. Backspace arms `_isDeleting` and copies `Text` into `RealText`. When `RealText != Text` (a preview showing or not), Enter makes `RealText == Text == PreviewText`, puts the caret at its end and clears `IsPreviewing`; when `RealText == Text`, Enter changes nothing. An arrow while previewing resets `Text` to `RealText`, puts the caret at its end, clears `IsPreviewing`; when focused with no delete pending and `Text != RealText`, the nested change consumes the ignore flag (when `Text == RealText` already, the reset is a no-op and the flag stays armed). Other keys change nothing. |
| PreviewSpec.OnLostFocus | PreviewTextBox/PreviewTextBox.cs:71-86 | With a candidate and `Text != RealText`, `Text` goes back to `RealText`, both flags stay armed and `IsPreviewing` is kept. Otherwise nothing changes. |
| PreviewSpec.PreviewTextChanged | PreviewTextBox/PreviewTextBox.cs:160-171 | `Text` is reset to `RealText` and the preview is retried against the new candidate. On a match the candidate is shown with the tail after `RealText` selected, unless a delete is pending while `Text` already equals `RealText`: then the nested change of the preview write copies the whole candidate into `RealText`, the caret lands at its end and the ignore flag stays armed. Otherwise `Text == RealText`, the caret is at its end and `IsPreviewing` is cleared; if `Text` already equalled `RealText`, the ignore flag stays armed. |
| PreviewSpec.AssignPreviewText | PreviewTextBox/PreviewTextBox.cs:91-111 | After `PreviewText = v`, the candidate is `v`. Writing the current value changes nothing. |
| PreviewSpec.Edit | PreviewTextBox/PreviewTextBox.cs:20-24 | A host edit that leaves the text as it was only moves the caret. Any other edit runs `OnTextChanged`. |
| PreviewSpec.StepPreservesInv | PreviewTextBox/PreviewTextBox.cs:26-305 | Every event keeps the selection inside `Text`, and keeps `IsPreviewing` off while there is no candidate. |
| PreviewSpec.RunPreservesInv | PreviewTextBox/PreviewTextBox.cs:26-305 | Any sequence of events keeps that invariant, by induction on the sequence. |
| PreviewBox.PreviewTextBox.constructor | PreviewTextBox/PreviewTextBox.cs:20-24 | The new control is in the initial state and satisfies the invariant. |
| PreviewBox.PreviewTextBox.SetText | PreviewTextBox/PreviewTextBox.cs:22 | The `Text` setter, which raises `OnTextChanged` re-entrantly only when the value differs, leaves the state `WriteText` gives. |
| PreviewBox.PreviewTextBox.SetSelectionStart | PreviewTextBox/PreviewTextBox.cs:288 | The `SelectionStart` setter moves the selection start through the clamping `Select` and keeps the length. |
| PreviewBox.PreviewTextBox.SetSelectionLength | PreviewTextBox/PreviewTextBox.cs:289 | The `SelectionLength` setter sets the length through `Select` and keeps the start. |
| PreviewBox.PreviewTextBox.AssignRealText | PreviewTextBox/PreviewTextBox.cs:123-139 | The `RealText` setter, which calls `RealTextChanged` only when the value differs, leaves the state `AssignRealText` gives. |
| PreviewBox.PreviewTextBox.RealTextChanged | PreviewTextBox/PreviewTextBox.cs:177-189 | The handler, which writes `Text` re-entrantly, leaves the state `PreviewSpec.RealTextChanged` gives. |
| PreviewBox.PreviewTextBox.SetRealText | PreviewTextBox/PreviewTextBox.cs:301-305 | Arming the flag and then writing `RealText` leaves the state `PreviewSpec.SetRealText` gives. |
| PreviewBox.PreviewTextBox.OnTextChanged | PreviewTextBox/PreviewTextBox.cs:196-240 | The handler in source order leaves the state `PreviewSpec.OnTextChanged` gives. |
| PreviewBox.PreviewTextBox.TryPreviewText | PreviewTextBox/PreviewTextBox.cs:275-295 | The handler, with its nested `Text` write, leaves the state `PreviewSpec.TryPreviewText` gives. |
| PreviewBox.PreviewTextBox.OnPreviewKeyDown | PreviewTextBox/PreviewTextBox.cs:26-69 | The handler leaves the state `PreviewSpec.OnPreviewKeyDown` gives. |
| PreviewBox.PreviewTextBox.OnLostFocus | PreviewTextBox/PreviewTextBox.cs:71-86 | The handler, run with focus already gone, leaves the state `PreviewSpec.OnLostFocus` gives. |
| PreviewBox.PreviewTextBox.PreviewTextChanged | PreviewTextBox/PreviewTextBox.cs:160-171 | The handler leaves the state `PreviewSpec.PreviewTextChanged` gives. |
| PreviewBox.PreviewTextBox.AssignPreviewText | PreviewTextBox/PreviewTextBox.cs:98-111 | The `PreviewText` setter, which calls back only on a change, leaves the state `AssignPreviewText` gives. |
| PreviewBox.PreviewTextBox.Edit | PreviewTextBox/PreviewTextBox.cs:20-24 | A host edit leaves the state `PreviewSpec.Edit` gives. |
| PreviewBox.PreviewTextBox.Handle | PreviewTextBox/PreviewTextBox.cs:20-24 | Delivering any event leaves the state `Step` gives and keeps the invariant. |
| PreviewProperties.FirstLetterAfterCandidateIsSwallowed | PreviewTextBox/PreviewTextBox.cs:163-164 | Once the first candidate arrives on an empty box, the ignore flag stays armed. The first typed letter is shown, but `RealText` stays "" and nothing is previewed. |
| PreviewProperties.TypingPreviewsCandidate | PreviewTextBox/PreviewTextBox.cs:233-239 | Typing "tel" against "television" shows "television" with "evision" selected (3, 7), `RealText` is "tel" and `IsPreviewing` is set. |
| PreviewProperties.TypingIgnoresCase | PreviewTextBox/PreviewTextBox.cs:277-289 | Typing "TEL" against "television" previews: `Text` is "television" as the candidate is written, `RealText` is "TEL", (3, 7) is selected and `IsPreviewing` is set. |
| PreviewProperties.EnterCommitsWithoutPreview | PreviewTextBox/PreviewTextBox.cs:48-53 | After the swallowed first letter "x", nothing is previewed but `RealText` ("") differs from `Text`, so Enter still replaces "x" with "television" in both and puts the caret at 10. |
| PreviewProperties.EnterCommitsPreview | PreviewTextBox/PreviewTextBox.cs:42-54 | Enter over that preview makes `Text == RealText == "television"`, puts the caret at 10 and ends the preview. |
| PreviewProperties.MismatchIsNotPreviewed | PreviewTextBox/PreviewTextBox.cs:277-294 | Text the candidate does not start with is taken as typed (`Text == RealText == "xyz"`) and nothing is previewed. |
| PreviewProperties.BackspaceDropsTail | PreviewTextBox/PreviewTextBox.cs:32-41 | Backspace over the preview first puts "television" in `RealText`. After the host deletes the tail, `Text == RealText == "tel"`, the delete flag is cleared, and `IsPreviewing` is still set. |
| PreviewProperties.ArrowAfterDeleteSwallowsNextLetter | PreviewTextBox/PreviewTextBox.cs:55-67 | After Backspace over the "tel" preview has landed, `Text == RealText == "tel"` with `IsPreviewing` set. Left then leaves the ignore flag armed and clears `IsPreviewing`, so typing "tele" shows "tele" while `RealText` stays "tel". |
| PreviewProperties.ClearingCandidateReachesNullGuard | PreviewTextBox/PreviewTextBox.cs:160-167 | Clearing the candidate during the "tel" preview: after the reset of line 164, `TryPreviewText` is called on a focused box with `RealText` "tel" and a null candidate, where the as-written guard throws. |
| PreviewProperties.LeavingCollapsesPreview | PreviewTextBox/PreviewTextBox.cs:81-85 | Leaving during the preview shows "tel" again, leaves `IsPreviewing` set, and leaves the ignore and internal flags armed. |
| PreviewProperties.OutsideRealTextWritesAlternate | PreviewTextBox/PreviewTextBox.cs:177-189 | While unfocused, an outside `RealText` write is shown but leaves the internal flag armed. The next outside write changes `RealText` and not `Text`, and clears the flag. |
| PreviewProperties.CandidateChangeSwallowsNextEdit | PreviewTextBox/PreviewTextBox.cs:160-171 | A non-matching candidate change while `Text == RealText` leaves the ignore flag armed. The next edit is shown, but `RealText` does not take it. |
| PreviewProperties.CandidateDeliveryIdempotent | PreviewTextBox/PreviewTextBox.cs:91-111 | Assigning the same candidate twice leaves the state the first assignment left. |
| AutoSelectSpec.HasAutoSelectText | WPFAutoSelectTextBox/AutoSelectTextBox.cs:168-174 | There is a candidate exactly when `AutoSelectText` is neither null nor "". |
| AutoSelectSpec.Initial | WPFAutoSelectTextBox/AutoSelectTextBox.cs:75-91 | A new box shows "", `RealText` and `AutoSelectText` are null, and it is not previewing. |
| AutoSelectSpec.Swallow | WPFAutoSelectTextBox/AutoSelectTextBox.cs:123-140 | The early returns of `OnTextChanged` never change the display. Without a candidate `RealText` follows `Text`. Otherwise the ignore flag is consumed, and `RealText` changes only if a delete was pending. |
| AutoSelectSpec.PreviewText | WPFAutoSelectTextBox/AutoSelectTextBox.cs:186-207 | When the guard holds, the whole candidate is displayed with the tail after the text selected and `IsPreviewing` set. When it fails, only `IsPreviewing` is cleared. |
| AutoSelectSpec.OnTextChanged | WPFAutoSelectTextBox/AutoSelectTextBox.cs:119-151 | Branch by branch, with no focus test. Without a candidate `RealText` becomes `Text`. An armed ignore flag is consumed, after a pending delete has copied `Text` into `RealText` (the fall-through block, helper `AfterDelete`). Otherwise `RealText` becomes `Text` and the preview is tried: on a match the candidate is shown with the tail selected, and on no match only `IsPreviewing` is cleared. The delete flag always ends cleared. |
| AutoSelectSpec.WriteText | WPFAutoSelectTextBox/AutoSelectTextBox.cs:20 | `Text = v` with `v` already shown changes nothing. A text write never makes `RealText` null and never alters the candidate, the focus or `_lastKey`. |
| AutoSelectSpec.OnPreviewKeyDown | WPFAutoSelectTextBox/AutoSelectTextBox.cs:24-56 | Every key is recorded in `_lastKey`, and without a candidate nothing else changes. Backspace arms both flags and copies `Text` into `RealText`. When `RealText != Text` (a preview showing or not; a null `RealText` differs from every text), Enter makes `RealText == Text == AutoSelectText`, puts the caret at its end and clears `IsPreviewing`; otherwise Enter only records the key. |
| AutoSelectSpec.OnLostFocus | WPFAutoSelectTextBox/AutoSelectTextBox.cs:58-73 | With a candidate and `Text != RealText`, `Text` goes back to `RealText` (null shows as ""), `IsPreviewing` is kept, and when `Text` differs from what `RealText` shows the nested change consumes the ignore flag. Otherwise nothing changes. |
| AutoSelectSpec.AutoSelectTextChanged | WPFAutoSelectTextBox/AutoSelectTextBox.cs:108-117 | `Text` is reset to `RealText` and the preview is retried. On a match the candidate is shown with the tail selected, and `RealText` is kept unless a delete is pending while `Text` already shows `RealText`: then the whole candidate becomes `RealText`, and the caret goes to its end if a preview was showing before. Otherwise `Text` shows `RealText` and `IsPreviewing` is cleared; the caret moves to the end of `RealText` only if a preview was showing before the change, and is otherwise kept or at 0. |
| AutoSelectSpec.AssignAutoSelectText | WPFAutoSelectTextBox/AutoSelectTextBox.cs:75-88 | After `AutoSelectText = v`, the candidate is `v`. Writing the current value changes nothing, and a preview stays over a non-null `RealText`. |
| AutoSelectSpec.Edit | WPFAutoSelectTextBox/AutoSelectTextBox.cs:18-22 | A host edit that leaves the text as it was only moves the caret. Any other edit clears the delete flag. |
| AutoSelectSpec.Step | WPFAutoSelectTextBox/AutoSelectTextBox.cs:18-207 | No event shows a preview over a null `RealText`. |
| AutoSelectSpec.StepPreservesInv | WPFAutoSelectTextBox/AutoSelectTextBox.cs:18-207 | Every event keeps the selection inside `Text`, keeps `IsPreviewing` off while there is no candidate, and keeps any preview over a non-null `RealText`. |
| AutoSelectSpec.RunPreservesInv | WPFAutoSelectTextBox/AutoSelectTextBox.cs:18-207 | Any sequence of events keeps that invariant, by induction on the sequence. |
| AutoSelectBox.AutoSelectTextBox.constructor | WPFAutoSelectTextBox/AutoSelectTextBox.cs:18-22 | The new control is in the initial state and satisfies the invariant. |
| AutoSelectBox.AutoSelectTextBox.SetText | WPFAutoSelectTextBox/AutoSelectTextBox.cs:20 | The `Text` setter, which raises `OnTextChanged` re-entrantly only on a change, leaves the state `WriteText` gives. |
| AutoSelectBox.AutoSelectTextBox.SetSelectionStart | WPFAutoSelectTextBox/AutoSelectTextBox.cs:200 | The `SelectionStart` setter moves the selection start through `Select` and keeps the length. |
| AutoSelectBox.AutoSelectTextBox.SetSelectionLength | WPFAutoSelectTextBox/AutoSelectTextBox.cs:201 | The `SelectionLength` setter sets the length through `Select` and keeps the start. |
| AutoSelectBox.AutoSelectTextBox.OnTextChanged | WPFAutoSelectTextBox/AutoSelectTextBox.cs:119-151 | The handler in source order, including the fall-through delete block, leaves the state `AutoSelectSpec.OnTextChanged` gives. |
| AutoSelectBox.AutoSelectTextBox.PreviewText | WPFAutoSelectTextBox/AutoSelectTextBox.cs:186-207 | The handler leaves the state `AutoSelectSpec.PreviewText` gives. |
| AutoSelectBox.AutoSelectTextBox.OnPreviewKeyDown | WPFAutoSelectTextBox/AutoSelectTextBox.cs:24-56 | The handler leaves the state `AutoSelectSpec.OnPreviewKeyDown` gives. The chained `Text = RealText = AutoSelectText` is run right to left. |
| AutoSelectBox.AutoSelectTextBox.OnLostFocus | WPFAutoSelectTextBox/AutoSelectTextBox.cs:58-73 | The handler, run with focus already gone, leaves the state `AutoSelectSpec.OnLostFocus` gives. |
| AutoSelectBox.AutoSelectTextBox.AutoSelectTextChanged | WPFAutoSelectTextBox/AutoSelectTextBox.cs:108-117 | The handler leaves the state `AutoSelectSpec.AutoSelectTextChanged` gives. |
| AutoSelectBox.AutoSelectTextBox.AssignAutoSelectText | WPFAutoSelectTextBox/AutoSelectTextBox.cs:78-88 | The `AutoSelectText` setter, which calls back only on a change, leaves the state `AssignAutoSelectText` gives. |
| AutoSelectBox.AutoSelectTextBox.Edit | WPFAutoSelectTextBox/AutoSelectTextBox.cs:18-22 | A host edit leaves the state `AutoSelectSpec.Edit` gives. |
| AutoSelectBox.AutoSelectTextBox.Handle | WPFAutoSelectTextBox/AutoSelectTextBox.cs:18-22 | Delivering any event leaves the state `Step` gives and keeps the invariant. |
| AutoSelectProperties.FirstLetterAfterCandidateIsSwallowed | WPFAutoSelectTextBox/AutoSelectTextBox.cs:111-112 | Once the first candidate arrives on an empty box (null `RealText`), the ignore flag stays armed. The first typed letter is shown, but `RealText` stays null and nothing is previewed. |
| AutoSelectProperties.TypingPreviewsCandidate | WPFAutoSelectTextBox/AutoSelectTextBox.cs:146-150 | Typing "tel" against "television" shows "television" with (3, 7) selected, `RealText` is "tel" and `IsPreviewing` is set. |
| AutoSelectProperties.TypingIgnoresCase | WPFAutoSelectTextBox/AutoSelectTextBox.cs:188-201 | Typing "TEL" against "television" previews: `Text` is "television" as the candidate is written, `RealText` is "TEL", (3, 7) is selected and `IsPreviewing` is set. |
| AutoSelectProperties.EnterCommitsUntypedCandidate | WPFAutoSelectTextBox/AutoSelectTextBox.cs:49-53 | With nothing typed, `RealText` is null and `Text` is "", so they differ and Enter fills in "television" in both with the caret at 10, although no preview shows. |
| AutoSelectProperties.EnterCommitsPreview | WPFAutoSelectTextBox/AutoSelectTextBox.cs:43-54 | Enter over that preview makes `Text` and `RealText` "television", puts the caret at 10, ends the preview and records Enter. |
| AutoSelectProperties.BackspaceDropsTail | WPFAutoSelectTextBox/AutoSelectTextBox.cs:32-41 | Backspace over the preview puts "television" in `RealText` and arms both flags. After the host deletes the tail, `Text` and `RealText` are "tel", both flags are cleared, and `IsPreviewing` is still set. |
| AutoSelectProperties.LeavingCollapsesPreview | WPFAutoSelectTextBox/AutoSelectTextBox.cs:68-72 | Leaving during the preview shows "tel" again with `RealText` "tel". The ignore flag is consumed and `IsPreviewing` stays set. |
| AutoSelectProperties.LeavingUntypedBoxArmsIgnore | WPFAutoSelectTextBox/AutoSelectTextBox.cs:68-71 | Leaving a box with a candidate, a null `RealText` and `Text` "" leaves the ignore flag armed, so the next edit is shown while `RealText` stays null. |
| AutoSelectProperties.ClearingCandidateReachesNullGuard | WPFAutoSelectTextBox/AutoSelectTextBox.cs:108-114 | Clearing the candidate during the "tel" preview: after the reset of line 112, `PreviewText` is called on a focused box with `RealText` "tel" and a null candidate, where the as-written guard throws. |
| AutoSelectProperties.UnfocusedEditIsMirrored | WPFAutoSelectTextBox/AutoSelectTextBox.cs:119-151 | With no focus test, an edit while unfocused still updates `RealText` and ends any preview. |
| AutoSelectProperties.OutsideRealTextWriteKeepsDisplay | WPFAutoSelectTextBox/AutoSelectTextBox.cs:90-91 | `RealText` has no change callback: an outside write stores the value and leaves `Text` and `IsPreviewing` unchanged. |

## Left out

- WPF plumbing is reduced to fields and change hooks: dependency property registration, binding and journal options, routed events, `base.OnLostFocus` and rendering.
- `Debug.WriteLine` calls have no effect on the state and are not modelled.
- The unused `Contains` helper is not modelled.
- The demo windows and the UI test project are not part of this model. They drive real windows and timers.
- How a keystroke edits `Text` is the host's job, modelled as the `TextEdited(newText, caret)` event.
- Common.Fold: the culture-aware `InvariantCultureIgnoreCase` comparison is reduced to an ASCII case fold. Non-ASCII letters compare only when they are equal.
- PreviewSpec.AssignRealText: outside writes of a null `RealText` are not modelled. `Text = null` stores ""; when `_isInternalRealTextSet` is armed (`RealTextChanged` returns at lines 184-185 without writing `Text`), when `Text` was already "", or when the nested change is swallowed by an armed ignore flag, `RealText` stays null and a later `PreviewTextChanged` can throw at `RealText.Length` (line 170). Otherwise `SetRealText(Text)` puts "" back.
- Lengths: .NET `string.Length` counts UTF-16 code units, while the model's `seq<char>` counts Unicode scalar values; for text outside the Basic Multilingual Plane the lengths and selection offsets differ.
- AutoSelectSpec.AutoSelectTextChanged: requires that a showing preview sits over a non-null `RealText` (an invariant of the model). Outside `RealText` writes are modelled as non-null only. An outside null write while previewing, followed by a candidate change, would make `RealText.Length` throw at line 116.
- The `NullReferenceException` of the preview guard is not propagated as an exception. The model records it in `Common.PreviewGuardAsWritten` and uses the corrected guard elsewhere (see Findings).
- Focus changes are events the host delivers. Keyboard focus routing is not modelled.

## Findings

| source | as written | input that shows it | evidently intended | confidence | as-written member | corrected member |
|---|---|---|---|---|---|---|
| PreviewTextBox/PreviewTextBox.cs:279 | `text.Length < previewText.Length` dereferences the candidate with no null test. It is reached from `PreviewTextChanged` (line 167), which runs when `PreviewText` is cleared. | A focused box with `RealText` "tel", then `PreviewText = null`. | A null candidate is simply no match: `IsPreviewing` is cleared and nothing throws. | high; not executed | Common.PreviewGuardAsWritten, Common.NullCandidateThrows, PreviewProperties.ClearingCandidateReachesNullGuard | Common.PreviewGuard, Common.GuardCorrected |
| WPFAutoSelectTextBox/AutoSelectTextBox.cs:190 | The same unguarded `previewText.Length`, reached from `AutoSelectTextChanged` (line 114) when `AutoSelectText` is cleared. | A focused box with `RealText` "tel", then `AutoSelectText = null`. | A null candidate is no match. | high; not executed | Common.PreviewGuardAsWritten, Common.NullCandidateThrows, AutoSelectProperties.ClearingCandidateReachesNullGuard | Common.PreviewGuard, Common.GuardCorrected |
