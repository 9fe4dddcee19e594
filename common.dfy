/**
 * Vocabulary shared by the two text-box controls: nullable strings, the
 * selection of a WPF TextBox, the case-insensitive prefix test and the
 * guard that decides whether a candidate may be previewed.
 */
module Common {

  /** A .NET string reference: `None` is `null`. */
  datatype Option<T> = None | Some(value: T)

  type Str = seq<char>

  /**
   * The keys the controls distinguish; `NoKey` is `Key.None`, the default
   * value of a `Key` field, and every other key is `Other`.
   */
  datatype Key = NoKey | Back | Enter | Left | Right | Up | Down | Other

  predicate IsArrow(k: Key) {
    k == Left || k == Right || k == Up || k == Down
  }

  /** `string.IsNullOrEmpty`. */
  predicate IsNullOrEmpty(s: Option<Str>) {
    s.None? || s.value == []
  }

  /** The text a WPF TextBox holds after `Text = s`: the box coerces `null` to "". */
  function TextOrEmpty(s: Option<Str>): (r: Str)
    ensures s.Some? ==> r == s.value
    ensures s.None? ==> r == []
  {
    match s
    case None => []
    case Some(v) => v
  }

  /** A selection inside the displayed text: the caret when `length` is 0. */
  datatype Selection = Selection(start: nat, length: nat)

  /**
   * `TextBox.Select(start, length)`, through which the `SelectionStart` and
   * `SelectionLength` setters go: a request that does not fit the text is
   * clamped to its end.
   */
  function Select(text: Str, start: nat, length: nat): (r: Selection)
    ensures r.start + r.length <= |text|
    ensures r.length <= length
    ensures start <= |text| ==> r.start == start
    ensures start >= |text| ==> r == Selection(|text|, 0)
    ensures start + length <= |text| ==> r == Selection(start, length)
    ensures start + length > |text| ==> r.start + r.length == |text|
  {
    var s := if start <= |text| then start else |text|;
    var l := if length <= |text| - s then length else |text| - s;
    Selection(s, l)
  }

  /** Case folding, reduced to ASCII letters (the culture-aware fold is not modelled). */
  function Fold(c: char): (r: char)
    ensures 'A' <= c <= 'Z' ==> 'a' <= r <= 'z' && r as int - 'a' as int == c as int - 'A' as int
    ensures !('A' <= c <= 'Z') ==> r == c
  {
    if 'A' <= c <= 'Z' then (c as int + 32) as char else c
  }

  /** `a` and `b` are the same ASCII letter, one upper case and the other lower case. */
  predicate CaseVariants(a: char, b: char) {
    || ('A' <= a <= 'Z' && 'a' <= b <= 'z' && b as int - 'a' as int == a as int - 'A' as int)
    || ('A' <= b <= 'Z' && 'a' <= a <= 'z' && a as int - 'a' as int == b as int - 'A' as int)
  }

  /**
   * Two characters fold alike exactly when they are equal or are the two cases
   * of one ASCII letter, and folding twice is folding once.
   */
  lemma FoldIgnoresCase(a: char, b: char)
    ensures Fold(a) == Fold(b) <==> a == b || CaseVariants(a, b)
    ensures Fold(Fold(a)) == Fold(a)
  {
  }

  /** Two strings that differ at most in the case of their letters. */
  predicate SameIgnoringCase(a: Str, b: Str) {
    |a| == |b| && forall i :: 0 <= i < |a| ==> Fold(a[i]) == Fold(b[i])
  }

  /** `s.StartsWith(prefix, StringComparison.InvariantCultureIgnoreCase)`. */
  predicate StartsWithIgnoreCase(s: Str, prefix: Str): (r: bool)
    ensures r <==> |prefix| <= |s| && forall i :: 0 <= i < |prefix| ==> Fold(s[i]) == Fold(prefix[i])
  {
    |prefix| <= |s| && SameIgnoringCase(s[..|prefix|], prefix)
  }

  lemma {:induction false} SameIgnoringCaseIsEquivalence(a: Str, b: Str, c: Str)
    ensures SameIgnoringCase(a, a)
    ensures SameIgnoringCase(a, b) ==> SameIgnoringCase(b, a)
    ensures SameIgnoringCase(a, b) && SameIgnoringCase(b, c) ==> SameIgnoringCase(a, c)
  {
  }

  /** A string always starts with itself, and a case-exact prefix is also a prefix ignoring case. */
  lemma {:induction false} PrefixStartsWithIgnoreCase(s: Str, n: nat)
    requires n <= |s|
    ensures StartsWithIgnoreCase(s, s[..n])
  {
    assert s[..|s[..n]|] == s[..n];
    SameIgnoringCaseIsEquivalence(s[..n], s[..n], s[..n]);
  }

  /** A candidate whose first letter differs, ignoring case, from that of the text does not start with it. */
  lemma {:induction false} FirstLetterMismatch(s: Str, t: Str)
    requires |s| > 0 && |t| > 0 && Fold(s[0]) != Fold(t[0])
    ensures !StartsWithIgnoreCase(s, t)
  {
    if |t| <= |s| {
      assert s[..|t|][0] == s[0];
    }
  }

  /**
   * The preview condition shared by `TryPreviewText` and `PreviewText`, with a
   * `null` candidate treated as no match: the box is focused, the typed text
   * is non-empty and strictly shorter than the candidate, and the candidate
   * starts with it, ignoring case.
   */
  predicate PreviewGuard(focused: bool, text: Option<Str>, candidate: Option<Str>): (r: bool)
    ensures r ==> !IsNullOrEmpty(candidate) && text.Some? && text.value != candidate.value
    ensures r <==> && focused && text.Some? && candidate.Some?
                   && 0 < |text.value| < |candidate.value|
                   && forall i :: 0 <= i < |text.value| ==> Fold(candidate.value[i]) == Fold(text.value[i])
  {
    && focused
    && !IsNullOrEmpty(text)
    && candidate.Some?
    && |text.value| < |candidate.value|
    && StartsWithIgnoreCase(candidate.value, text.value)
  }

  /**
   * The same condition evaluated as the source writes it, left to right with
   * short-circuit: `None` stands for the NullReferenceException raised by
   * `previewText.Length` when the candidate is `null`.
   */
  function PreviewGuardAsWritten(focused: bool, text: Option<Str>, candidate: Option<Str>): (r: Option<bool>)
    ensures r.None? <==> focused && !IsNullOrEmpty(text) && candidate.None?
    ensures r.Some? ==> r.value == PreviewGuard(focused, text, candidate)
  {
    if !focused then Some(false)
    else if IsNullOrEmpty(text) then Some(false)
    else if candidate.None? then None
    else Some(|text.value| < |candidate.value| && StartsWithIgnoreCase(candidate.value, text.value))
  }

  /** The as-written guard throws when the candidate is cleared while the focused box holds text. */
  lemma NullCandidateThrows()
    ensures PreviewGuardAsWritten(true, Some("tel"), None).None?
  {
  }

  /**
   * The corrected guard never throws, never previews a null or empty candidate,
   * and agrees with the as-written guard wherever that one returns.
   */
  lemma GuardCorrected(focused: bool, text: Option<Str>, candidate: Option<Str>)
    ensures IsNullOrEmpty(candidate) ==> !PreviewGuard(focused, text, candidate)
    ensures PreviewGuardAsWritten(focused, text, candidate) == Some(PreviewGuard(focused, text, candidate))
            || (focused && !IsNullOrEmpty(text) && candidate.None?)
  {
  }
}
