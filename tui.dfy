/** The confirmation step before ntrust changes anything: skipped when asked to, refused
    without a terminal, and otherwise decided by the answer to a `[Y/n]` prompt. */
module Tui {
  import opened Wrappers
  import opened Strings

  const NonInteractiveMessage := "This command requires confirmation. Re-run with --yes in non-interactive mode."
  const CancelledMessage := "Operation cancelled by user."

  /** The `dryRun` and `yes` options; an absent option counts as `false`. */
  datatype ConfirmOptions = ConfirmOptions(dryRun: bool, yes: bool)

  /** What `confirm` did: the prompt it showed, if any, and whether the command may go on. */
  datatype Confirmation = Confirmation(shown: Option<string>, outcome: Result<(), string>)

  /** The question shown to the user. */
  function PromptText(prompt: string): (r: string)
    ensures StartsWith(r, prompt) && EndsWith(r, " [Y/n]: ")
    ensures |r| == |prompt| + |" [Y/n]: "|
  {
    var r := prompt + " [Y/n]: ";
    assert r[..|prompt|] == prompt;
    r
  }

  /** One character of the answer against one letter of the pattern, under the `i` flag. */
  predicate SameLetter(c: char, letter: char) {
    AsciiLower(c) == letter
  }

  /** `/^$|^y(es)?$/i` on the trimmed answer: empty, or `y` optionally followed by `es`. */
  predicate MatchesAcceptance(s: string) {
    || s == []
    || (|s| == 1 && SameLetter(s[0], 'y'))
    || (|s| == 3 && SameLetter(s[0], 'y') && SameLetter(s[1], 'e') && SameLetter(s[2], 's'))
  }

  /** The accepted answers, written out: the empty answer and every spelling of `y` and
      `yes` in upper and lower case. */
  const AcceptedAnswers: set<string> :=
    {"", "y", "Y", "yes", "yeS", "yEs", "yES", "Yes", "YeS", "YEs", "YES"}

  lemma SameLetterCases(c: char, letter: char)
    requires 'a' <= letter <= 'z'
    ensures SameLetter(c, letter) <==> c == letter || c as int == letter as int - 32
  {
  }

  /** The pattern accepts exactly the listed answers. */
  lemma AcceptanceIsListed(s: string)
    ensures MatchesAcceptance(s) <==> s in AcceptedAnswers
  {
    if |s| == 1 {
      SameLetterCases(s[0], 'y');
      if SameLetter(s[0], 'y') {
        assert s == [s[0]];
      }
    } else if |s| == 3 {
      SameLetterCases(s[0], 'y');
      SameLetterCases(s[1], 'e');
      SameLetterCases(s[2], 's');
      if MatchesAcceptance(s) {
        assert s == [s[0], s[1], s[2]];
      }
    } else if s != [] {
      assert forall a :: a in AcceptedAnswers && a != [] ==> |a| == 1 || |a| == 3;
    }
  }

  /** `confirm`, given whether standard input is a terminal and the line the user types. */
  function Confirm(prompt: string, options: ConfirmOptions, isTTY: bool, answer: string): (r: Confirmation)
    ensures options.yes || options.dryRun ==> r == Confirmation(None, Ok(()))
    ensures !options.yes && !options.dryRun && !isTTY ==> r == Confirmation(None, Err(NonInteractiveMessage))
    ensures !options.yes && !options.dryRun && isTTY ==>
      && r.shown == Some(PromptText(prompt))
      && (r.outcome.Ok? <==> Trim(answer) in AcceptedAnswers)
      && (r.outcome.Err? ==> r.outcome.error == CancelledMessage)
  {
    AcceptanceIsListed(Trim(answer));
    if options.yes || options.dryRun then Confirmation(None, Ok(()))
    else if !isTTY then Confirmation(None, Err(NonInteractiveMessage))
    else if MatchesAcceptance(Trim(answer)) then Confirmation(Some(PromptText(prompt)), Ok(()))
    else Confirmation(Some(PromptText(prompt)), Err(CancelledMessage))
  }

  /** White space around the answer does not matter. */
  lemma PaddedAnswer(prompt: string, options: ConfirmOptions, isTTY: bool, before: string, answer: string, after: string)
    requires AllWhitespace(before) && AllWhitespace(after)
    ensures Confirm(prompt, options, isTTY, before + answer + after) == Confirm(prompt, options, isTTY, answer)
  {
    TrimOfBlankPadding(before, answer, after);
  }
}
