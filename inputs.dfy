/** The shell's text helpers: the label of the option indicator, the positive-integer pattern
    and the input dialog that filters what is typed into it. */
module Inputs {
  import opened Options

  /** The labels the option switch assigns, in the order of its cases; the last one is the
      default case. */
  const OPTION_LABELS: seq<string> := ["Line", "Triangle", "Rectangle", "Pentagon", "Hexagon", "{}"]

  /** The case at which control enters the switch for an option value: side counts 2 to 6
      have a case each, every other value enters at the default. */
  function CaseEntry(option: int): (i: nat)
    ensures i < |OPTION_LABELS|
    ensures 2 <= option <= 6 ==> i == option - 2 && OPTION_LABELS[i] != "{}"
    ensures !(2 <= option <= 6) ==> i == |OPTION_LABELS| - 1
  {
    if 2 <= option <= 6 then option - 2 else |OPTION_LABELS| - 1
  }

  /** Running the assignments from case `i` to the end of the switch, none of which ends with
      `break`: each one overwrites the label set by the one before. */
  function FallThrough(labels: seq<string>, i: nat, current: string): (shown: string)
    requires i <= |labels|
    ensures i < |labels| ==> shown == labels[|labels| - 1]
    ensures i == |labels| ==> shown == current
    decreases |labels| - i
  {
    if i == |labels| then current else FallThrough(labels, i + 1, labels[i])
  }

  /** `getOption`: whatever the option, control falls through to the default case, so the
      label is always "{}", the side counts 2 to 6 included. */
  function OptionLabel(option: int): (shown: string)
    ensures shown == "{}"
  {
    FallThrough(OPTION_LABELS, CaseEntry(option), "")
  }

  predicate IsDigit(c: char)
  {
    '0' <= c <= '9'
  }

  /** A non-empty digit string whose first digit is 1 to 9. */
  predicate IsPositiveInteger(s: string)
  {
    |s| >= 1 && '1' <= s[0] <= '9' && forall i :: 1 <= i < |s| ==> IsDigit(s[i])
  }

  /** The states of a matcher for `([1-9][0-9]*)`: before the first character, inside the
      digits, and after a character the pattern does not allow. */
  datatype MatchState = Start | InDigits | Rejected

  function Step(q: MatchState, c: char): MatchState
  {
    match q
    case Start => if '1' <= c <= '9' then InDigits else Rejected
    case InDigits => if IsDigit(c) then InDigits else Rejected
    case Rejected => Rejected
  }

  function Run(q: MatchState, s: string): MatchState
    decreases s
  {
    if s == [] then q else Run(Step(q, s[0]), s[1..])
  }

  /** Whole-text matching of `([1-9][0-9]*)`, as `Pattern.matches` and `String.matches` do it. */
  predicate Matches(s: string): (m: bool)
    ensures m ==> s != [] && '1' <= s[0] <= '9'
  {
    RunRejected(if s == [] then s else s[1..]);
    Run(Start, s) == InDigits
  }

  lemma {:induction false} RunRejected(s: string)
    ensures Run(Rejected, s) == Rejected
    decreases s
  {
    if s != [] {
      RunRejected(s[1..]);
    }
  }

  lemma {:induction false} RunDigits(s: string)
    ensures Run(InDigits, s) == InDigits <==> forall i :: 0 <= i < |s| ==> IsDigit(s[i])
    decreases s
  {
    if s != [] {
      RunDigits(s[1..]);
      RunRejected(s[1..]);
      assert forall i :: 1 <= i < |s| ==> s[i] == s[1..][i - 1];
    }
  }

  /** The pattern accepts a text exactly when it is a positive integer written without
      leading zeros. */
  lemma MatchesPositiveInteger(s: string)
    ensures Matches(s) <==> IsPositiveInteger(s)
  {
    if s != [] {
      RunDigits(s[1..]);
      RunRejected(s[1..]);
      assert forall i :: 1 <= i < |s| ==> s[i] == s[1..][i - 1];
    }
  }

  /** The listener's rule: a change to a non-empty text the pattern rejects is undone; every
      other change stands. */
  function Filtered(accepts: string -> bool, oldText: string, newText: string): (text: string)
    ensures newText == "" || accepts(newText) ==> text == newText
    ensures newText != "" && !accepts(newText) ==> text == oldText
    ensures (oldText == "" || accepts(oldText)) ==> (text == "" || accepts(text))
  {
    if newText != "" && !accepts(newText) then oldText else newText
  }

  /** The input dialog: an editor whose text is filtered on every change, and a callback that
      receives the text only when the dialog is confirmed with a matching text. */
  class InputDialog {
    const accepts: string -> bool
    var text: string

    /** The editor text is empty or matches. */
    ghost predicate Valid()
      reads this
    {
      text == "" || accepts(text)
    }

    constructor (accepts: string -> bool)
      ensures Valid()
      ensures this.accepts == accepts && text == ""
    {
      this.accepts := accepts;
      text := "";
    }

    /** The user changes the editor text to `newText`. */
    method Edit(newText: string)
      requires Valid()
      modifies this`text
      ensures Valid()
      ensures text == Filtered(accepts, old(text), newText)
    {
      text := Filtered(accepts, text, newText);
    }

    /** The dialog closes, confirmed or not; the result is what the callback receives, if it
        is called at all. */
    method Close(confirmed: bool) returns (value: Option<string>)
      requires Valid()
      ensures value.Some? <==> confirmed && accepts(text)
      ensures value.Some? ==> value.value == text && accepts(value.value)
    {
      if confirmed && accepts(text) {
        value := Some(text);
      } else {
        value := None;
      }
    }
  }
}
