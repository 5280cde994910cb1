/** Detecting the GitHub Actions workflow that publishes the packages
    (packages/ntrust/src/github.ts). A workflow is taken already parsed: reading the
    directory and the files and parsing YAML are inputs of the model, not part of it. */
module GitHub {
  import opened Wrappers
  import opened Strings

  /** A step of a job. `run` is `None` when the step has no string-valued `run`
      (this covers a step that is not a record at all). */
  datatype Step = Step(run: Option<string>)

  /** A job. `steps` is `None` when the job has no array-valued `steps`
      (this covers a job that is not a record at all). */
  datatype Job = Job(steps: Option<seq<Step>>)

  /** A parsed workflow document. `jobs` is `None` when the document or its `jobs`
      is not a record; otherwise it holds `Object.entries(jobs)` in entry order. */
  datatype Workflow = Workflow(jobs: Option<seq<(string, Job)>>)

  /** An entry of the workflow directory, together with the parsed content of the file. */
  datatype DirEntry = DirEntry(name: string, isFile: bool, workflow: Workflow)

  /** One publish command found in a workflow; `step` counts the job's steps from 1. */
  datatype PublishCommandMatch = PublishCommandMatch(file: string, job: string, step: nat, command: string)

  // ---------------------------------------------------------------------------
  // splitRunCommand: `run.split(/\r?\n|&&|\|\||;/g).map(trim).filter(Boolean)`

  /** The length of the separator that starts at `i`, or 0 when none does. The five
      alternatives begin with five different characters, so at most one applies. */
  function SeparatorLength(s: string, i: nat): (n: nat)
    requires i <= |s|
    ensures i + n <= |s| && n <= 2
  {
    if i < |s| && s[i] == '\n' then 1
    else if i + 1 < |s| && s[i] == '\r' && s[i + 1] == '\n' then 2
    else if i + 1 < |s| && s[i] == '&' && s[i + 1] == '&' then 2
    else if i + 1 < |s| && s[i] == '|' && s[i + 1] == '|' then 2
    else if i < |s| && s[i] == ';' then 1
    else 0
  }

  const RunSeparators: set<string> := {"\n", "\r\n", "&&", "||", ";"}

  /** The pieces `split` cuts from `s[start..]` and the separators it removes between
      them, scanning from `i`, where no separator starts in `s[start..i]`. Putting the
      separators back between the pieces gives the scanned text. */
  function Scan(s: string, start: nat, i: nat): (r: (seq<string>, seq<string>))
    requires start <= i <= |s|
    ensures |r.0| == |r.1| + 1
    ensures Interleave(r.0, r.1) == s[start..]
    decreases |s| - i
  {
    if i == |s| then ([s[start..]], [])
    else
      var n := SeparatorLength(s, i);
      if n > 0 then
        var rest := Scan(s, i + n, i + n);
        InterleaveCons(s[start..i], s[i..i + n], rest.0, rest.1);
        SlicesJoin(s, start, i, i + n);
        ([s[start..i]] + rest.0, [s[i..i + n]] + rest.1)
      else Scan(s, start, i + 1)
  }

  /** What `split` returns, before trimming and filtering. */
  function RawSegments(run: string): seq<string> {
    Scan(run, 0, 0).0
  }

  /** The separators `split` removes, in order. */
  function RemovedSeparators(run: string): seq<string> {
    Scan(run, 0, 0).1
  }

  function Interleave(pieces: seq<string>, seps: seq<string>): string
    requires |pieces| == |seps| + 1
  {
    if seps == [] then pieces[0] else pieces[0] + seps[0] + Interleave(pieces[1..], seps[1..])
  }

  lemma InterleaveCons(piece: string, sep: string, pieces: seq<string>, seps: seq<string>)
    requires |pieces| == |seps| + 1
    ensures Interleave([piece] + pieces, [sep] + seps) == piece + sep + Interleave(pieces, seps)
  {
    assert ([piece] + pieces)[1..] == pieces && ([sep] + seps)[1..] == seps;
  }

  lemma SlicesJoin(s: string, a: nat, b: nat, c: nat)
    requires a <= b <= c <= |s|
    ensures s[a..] == s[a..b] + s[b..c] + s[c..]
  {
    assert s[a..] == s[a..b] + s[b..];
    assert s[b..] == s[b..c] + s[c..];
  }

  /** No separator occurs in `p`: no newline, no `;`, no `&&`, no `||`. */
  predicate HasNoSeparator(p: string) {
    && '\n' !in p && ';' !in p
    && forall j :: 0 <= j < |p| - 1 ==> !(p[j] == '&' && p[j + 1] == '&') && !(p[j] == '|' && p[j + 1] == '|')
  }

  function SplitRunCommand(run: string): seq<string> {
    var pieces := RawSegments(run);
    NonEmpty(seq(|pieces|, k requires 0 <= k < |pieces| => Trim(pieces[k])))
  }

  lemma SeparatorIsKnown(s: string, i: nat)
    requires i <= |s| && SeparatorLength(s, i) > 0
    ensures s[i..i + SeparatorLength(s, i)] in RunSeparators
  {
    if SeparatorLength(s, i) == 1 {
      assert s[i..i + 1] == [s[i]];
    } else {
      assert s[i..i + 2] == [s[i], s[i + 1]];
    }
  }

  lemma {:induction false} ScanSeparatorsAreKnown(s: string, start: nat, i: nat)
    requires start <= i <= |s|
    ensures forall sep :: sep in Scan(s, start, i).1 ==> sep in RunSeparators
    decreases |s| - i
  {
    if i < |s| {
      var n := SeparatorLength(s, i);
      if n > 0 {
        SeparatorIsKnown(s, i);
        ScanSeparatorsAreKnown(s, i + n, i + n);
        assert Scan(s, start, i).1 == [s[i..i + n]] + Scan(s, i + n, i + n).1;
      } else {
        ScanSeparatorsAreKnown(s, start, i + 1);
      }
    }
  }

  /** `split` loses nothing and keeps the order: putting the removed separators back
      between the pieces gives the original `run`, and every one of them is one of the
      five separators. */
  lemma SplitReassembles(run: string)
    ensures |RawSegments(run)| == |RemovedSeparators(run)| + 1
    ensures Interleave(RawSegments(run), RemovedSeparators(run)) == run
    ensures forall sep :: sep in RemovedSeparators(run) ==> sep in RunSeparators
  {
    ScanSeparatorsAreKnown(run, 0, 0);
  }

  lemma {:induction false} ScanPiecesHaveNoSeparator(s: string, start: nat, i: nat)
    requires start <= i <= |s|
    requires forall j :: start <= j < i ==> SeparatorLength(s, j) == 0
    ensures forall p :: p in Scan(s, start, i).0 ==> HasNoSeparator(p)
    decreases |s| - i
  {
    if i == |s| {
      SliceHasNoSeparator(s, start, i);
    } else {
      var n := SeparatorLength(s, i);
      if n > 0 {
        SliceHasNoSeparator(s, start, i);
        ScanPiecesHaveNoSeparator(s, i + n, i + n);
        assert Scan(s, start, i).0 == [s[start..i]] + Scan(s, i + n, i + n).0;
      } else {
        ScanPiecesHaveNoSeparator(s, start, i + 1);
      }
    }
  }

  lemma SliceHasNoSeparator(s: string, start: nat, i: nat)
    requires start <= i <= |s|
    requires forall j :: start <= j < i ==> SeparatorLength(s, j) == 0
    ensures HasNoSeparator(s[start..i])
  {
    var p := s[start..i];
    forall j | 0 <= j < |p|
      ensures p[j] != '\n' && p[j] != ';'
      ensures j < |p| - 1 ==> !(p[j] == '&' && p[j + 1] == '&') && !(p[j] == '|' && p[j + 1] == '|')
    {
      assert SeparatorLength(s, start + j) == 0;
    }
  }

  lemma TrimmedPieceHasNoSeparator(p: string)
    requires HasNoSeparator(p)
    ensures HasNoSeparator(Trim(p))
  {
    var a := LeadingBlanks(p);
    SubstringHasNoSeparator(p, a, a + |Trim(p)|);
  }

  lemma SubstringHasNoSeparator(p: string, a: nat, b: nat)
    requires a <= b <= |p| && HasNoSeparator(p)
    ensures HasNoSeparator(p[a..b])
  {
    var q := p[a..b];
    forall j | 0 <= j < |q| ensures q[j] == p[a + j] {}
  }

  /** Every command of a step is non-empty, has no surrounding white space and holds
      no separator; each one is a trimmed piece of the `split`. */
  lemma SplitRunCommandSegments(run: string)
    ensures forall c :: c in SplitRunCommand(run) ==> c != [] && IsTrimmed(c) && HasNoSeparator(c)
    ensures forall c :: c in SplitRunCommand(run) ==> exists k :: 0 <= k < |RawSegments(run)| && c == Trim(RawSegments(run)[k])
  {
    var pieces := RawSegments(run);
    ScanPiecesHaveNoSeparator(run, 0, 0);
    var trimmed := seq(|pieces|, k requires 0 <= k < |pieces| => Trim(pieces[k]));
    assert SplitRunCommand(run) == NonEmpty(trimmed);
    forall c | c in NonEmpty(trimmed)
      ensures c != [] && IsTrimmed(c) && HasNoSeparator(c)
      ensures exists k :: 0 <= k < |pieces| && c == Trim(pieces[k])
    {
      assert c in trimmed;
      var k :| 0 <= k < |pieces| && trimmed[k] == c;
      TrimmedPieceHasNoSeparator(pieces[k]);
    }
  }

  lemma {:induction false} ScanOfSeparatorFree(s: string, start: nat, i: nat)
    requires start <= i <= |s| && HasNoSeparator(s)
    ensures Scan(s, start, i).0 == [s[start..]]
    decreases |s| - i
  {
    if i < |s| {
      assert s[i] != '\n' && s[i] != ';';
      if i + 1 < |s| {
        assert s[i + 1] != '\n';
      }
      ScanOfSeparatorFree(s, start, i + 1);
    }
  }

  /** A non-empty trimmed command without separators is a single segment of itself. */
  lemma SplitSingleCommand(command: string)
    requires command != [] && IsTrimmed(command) && HasNoSeparator(command)
    ensures SplitRunCommand(command) == [command]
  {
    ScanOfSeparatorFree(command, 0, 0);
    TrimOfTrimmed(command);
    var trimmed := seq(1, k requires 0 <= k < 1 => Trim(RawSegments(command)[k]));
    assert trimmed == [command];
    assert NonEmpty(trimmed) == [command] + NonEmpty([]);
  }

  /** The commands are the raw segments in their order, trimmed: command `k` is the
      trimmed segment at position `idx[k]`, the positions increase, and every segment
      that is skipped trims to nothing. */
  lemma SplitRunCommandOrder(run: string) returns (idx: seq<nat>)
    ensures |idx| == |SplitRunCommand(run)|
    ensures forall k :: 0 <= k < |idx| ==>
      idx[k] < |RawSegments(run)| && SplitRunCommand(run)[k] == Trim(RawSegments(run)[idx[k]])
    ensures forall k, l :: 0 <= k < l < |idx| ==> idx[k] < idx[l]
    ensures forall j :: 0 <= j < |RawSegments(run)| && j !in idx ==> Trim(RawSegments(run)[j]) == []
  {
    var pieces := RawSegments(run);
    var trimmed := seq(|pieces|, k requires 0 <= k < |pieces| => Trim(pieces[k]));
    assert SplitRunCommand(run) == NonEmpty(trimmed);
    idx := NonEmptyPositions(trimmed);
    forall j | 0 <= j < |pieces| && j !in idx ensures Trim(pieces[j]) == [] {
      assert trimmed[j] == Trim(pieces[j]);
    }
  }

  /** Splitting is idempotent: each command it yields splits into just itself. */
  lemma SplitRunCommandIdempotent(run: string)
    ensures forall c :: c in SplitRunCommand(run) ==> SplitRunCommand(c) == [c]
  {
    SplitRunCommandSegments(run);
    forall c | c in SplitRunCommand(run) ensures SplitRunCommand(c) == [c] {
      SplitSingleCommand(c);
    }
  }

  // ---------------------------------------------------------------------------
  // isDirectPublishCommand

  predicate IsWord(w: string) {
    w != [] && forall j :: 0 <= j < |w| ==> !IsWhitespace(w[j])
  }

  /** The length of the run of non-blank characters at the start of `s`. */
  function WordLength(s: string): (n: nat)
    ensures n <= |s|
    ensures forall j :: 0 <= j < n ==> !IsWhitespace(s[j])
    ensures n < |s| ==> IsWhitespace(s[n])
  {
    if s == [] || IsWhitespace(s[0]) then 0 else WordLength(s[1..]) + 1
  }

  /** `command.split(/\s+/).filter(Boolean)`: the maximal runs of non-blank characters. */
  function Tokens(s: string): (r: seq<string>)
    ensures forall k :: 0 <= k < |r| ==> IsWord(r[k])
    decreases |s|
  {
    if s == [] then []
    else if IsWhitespace(s[0]) then Tokens(s[1..])
    else
      var n := WordLength(s);
      [s[..n]] + Tokens(s[n..])
  }

  lemma {:induction false} WordLengthOfConcat(w: string, t: string)
    requires forall j :: 0 <= j < |w| ==> !IsWhitespace(w[j])
    requires t == [] || IsWhitespace(t[0])
    ensures WordLength(w + t) == |w|
  {
    if w != [] {
      assert (w + t)[1..] == w[1..] + t;
      WordLengthOfConcat(w[1..], t);
    }
  }

  /** White space in front of a command produces no token. */
  lemma {:induction false} TokensOfBlanks(x: string, s: string)
    requires AllWhitespace(x)
    ensures Tokens(x + s) == Tokens(s)
  {
    if x != [] {
      var xs := x + s;
      assert xs[0] == x[0] && IsWhitespace(xs[0]);
      assert xs[1..] == x[1..] + s;
      assert Tokens(xs) == Tokens(xs[1..]);
      TokensOfBlanks(x[1..], s);
    } else {
      assert x + s == s;
    }
  }

  /** A word followed by white space or the end is the next token. */
  lemma TokensOfWord(w: string, s: string)
    requires IsWord(w)
    requires s == [] || IsWhitespace(s[0])
    ensures Tokens(w + s) == [w] + Tokens(s)
  {
    WordLengthOfConcat(w, s);
    assert (w + s)[0] == w[0];
    assert (w + s)[..|w|] == w;
    assert (w + s)[|w|..] == s;
  }

  /** Words joined by single spaces split back into the same words. */
  lemma {:induction false} TokensOfJoin(words: seq<string>)
    requires forall k :: 0 <= k < |words| ==> IsWord(words[k])
    ensures Tokens(Join(words, " ")) == words
  {
    if |words| == 1 {
      WordLengthOfConcat(words[0], []);
      assert words[0] + [] == words[0];
    } else if |words| > 1 {
      var w, rest := words[0], Join(words[1..], " ");
      var s := w + " " + rest;
      assert Join(words, " ") == s;
      WordLengthOfConcat(w, " " + rest);
      assert s == w + (" " + rest);
      assert s[..|w|] == w && s[|w|..] == " " + rest;
      assert (" " + rest)[1..] == rest;
      TokensOfJoin(words[1..]);
      assert words == [w] + words[1..];
    }
  }

  const PackageManagers: set<string> := {"npm", "pnpm", "yarn"}

  predicate IsFlag(token: string) {
    StartsWith(token, "-")
  }

  /** A direct publish call: at least two tokens, the first a known package manager,
      and the first token after it that is not a flag is `publish`. */
  predicate IsDirectPublish(command: string) {
    var tokens := Tokens(command);
    && |tokens| >= 2
    && tokens[0] in PackageManagers
    && exists j :: 1 <= j < |tokens| && tokens[j] == "publish" && forall k :: 1 <= k < j ==> IsFlag(tokens[k])
  }

  method IsDirectPublishCommand(command: string) returns (b: bool)
    ensures b == IsDirectPublish(command)
  {
    var tokens := Tokens(command);
    if |tokens| < 2 {
      return false;
    }
    var packageManager := tokens[0];
    if packageManager !in PackageManagers {
      return false;
    }
    assert "publish"[..1][0] == 'p';
    var subCommand := "";
    for i := 1 to |tokens|
      invariant subCommand == ""
      invariant forall k :: 1 <= k < i ==> IsFlag(tokens[k])
    {
      if IsFlag(tokens[i]) {
        continue;
      }
      subCommand := tokens[i];
      assert IsDirectPublish(command) <==> tokens[i] == "publish";
      break;
    }
    return subCommand == "publish";
  }

  // ---------------------------------------------------------------------------
  // formatPublishCandidates

  function CandidateLine(m: PublishCommandMatch): string {
    "- " + m.file + " (job=" + m.job + ", step=" + NatToString(m.step) + "): " + m.command
  }

  function FormatPublishCandidates(matches: seq<PublishCommandMatch>): string {
    Join(seq(|matches|, k requires 0 <= k < |matches| => CandidateLine(matches[k])), "\n")
  }

  /** The candidate list has one line per match, in order, and no trailing newline:
      splitting it at newlines gives back exactly the candidate lines. */
  lemma FormatHasOneLinePerMatch(matches: seq<PublishCommandMatch>)
    requires |matches| >= 1
    requires forall m :: m in matches ==> '\n' !in m.file && '\n' !in m.job && '\n' !in m.command
    ensures SplitOn(FormatPublishCandidates(matches), '\n')
         == seq(|matches|, k requires 0 <= k < |matches| => CandidateLine(matches[k]))
  {
    var lines := seq(|matches|, k requires 0 <= k < |matches| => CandidateLine(matches[k]));
    forall k | 0 <= k < |lines| ensures '\n' !in lines[k] {
      var m := matches[k];
      assert m in matches;
      var digits := NatToString(m.step);
      assert forall i :: 0 <= i < |digits| ==> digits[i] != '\n';
    }
    SplitOnJoin(lines, '\n');
  }

  // ---------------------------------------------------------------------------
  // collectPublishCommandMatches: the order is file, job, step, then command

  function SegmentMatches(file: string, job: string, step: nat, commands: seq<string>): seq<PublishCommandMatch> {
    if commands == [] then []
    else
      var command := commands[|commands| - 1];
      SegmentMatches(file, job, step, commands[..|commands| - 1])
        + (if IsDirectPublish(command) then [PublishCommandMatch(file, job, step, command)] else [])
  }

  /** The matches of step number `n` of a job: none unless its `run` is a string. */
  function StepContribution(file: string, job: string, n: nat, step: Step): seq<PublishCommandMatch> {
    match step.run
    case None => []
    case Some(run) => SegmentMatches(file, job, n, SplitRunCommand(run))
  }

  function StepMatches(file: string, job: string, steps: seq<Step>): seq<PublishCommandMatch> {
    if steps == [] then []
    else StepMatches(file, job, steps[..|steps| - 1]) + StepContribution(file, job, |steps|, steps[|steps| - 1])
  }

  /** The matches of one `(name, job)` entry: none unless its `steps` is an array. */
  function JobContribution(file: string, entry: (string, Job)): seq<PublishCommandMatch> {
    match entry.1.steps
    case None => []
    case Some(steps) => StepMatches(file, entry.0, steps)
  }

  function JobMatches(file: string, jobs: seq<(string, Job)>): seq<PublishCommandMatch> {
    if jobs == [] then []
    else JobMatches(file, jobs[..|jobs| - 1]) + JobContribution(file, jobs[|jobs| - 1])
  }

  /** The matches of one workflow file: none unless its `jobs` is a record. */
  function FileContribution(entry: DirEntry): seq<PublishCommandMatch> {
    match entry.workflow.jobs
    case None => []
    case Some(jobs) => JobMatches(entry.name, jobs)
  }

  function FileMatches(files: seq<DirEntry>): seq<PublishCommandMatch> {
    if files == [] then []
    else FileMatches(files[..|files| - 1]) + FileContribution(files[|files| - 1])
  }

  lemma SegmentMatchesSnoc(file: string, job: string, n: nat, commands: seq<string>, c: nat)
    requires c < |commands|
    ensures SegmentMatches(file, job, n, commands[..c + 1])
         == SegmentMatches(file, job, n, commands[..c])
            + (if IsDirectPublish(commands[c]) then [PublishCommandMatch(file, job, n, commands[c])] else [])
  {
    assert commands[..c + 1][..c] == commands[..c];
  }

  lemma StepMatchesSnoc(file: string, job: string, steps: seq<Step>, index: nat)
    requires index < |steps|
    ensures StepMatches(file, job, steps[..index + 1])
         == StepMatches(file, job, steps[..index]) + StepContribution(file, job, index + 1, steps[index])
  {
    assert steps[..index + 1][..index] == steps[..index];
  }

  lemma JobMatchesSnoc(file: string, jobs: seq<(string, Job)>, j: nat)
    requires j < |jobs|
    ensures JobMatches(file, jobs[..j + 1]) == JobMatches(file, jobs[..j]) + JobContribution(file, jobs[j])
  {
    assert jobs[..j + 1][..j] == jobs[..j];
  }

  lemma FileMatchesSnoc(files: seq<DirEntry>, f: nat)
    requires f < |files|
    ensures FileMatches(files[..f + 1]) == FileMatches(files[..f]) + FileContribution(files[f])
  {
    assert files[..f + 1][..f] == files[..f];
  }

  /** A list built by putting one contribution per element in front of the list of the
      rest is the list of a prefix followed by the list of the rest. */
  lemma {:induction false} ConsFoldAppend<T, U>(f: seq<T> -> seq<U>, c: T -> seq<U>, a: seq<T>, b: seq<T>)
    requires f([]) == []
    requires forall x, s :: f([x] + s) == c(x) + f(s)
    ensures f(a + b) == f(a) + f(b)
  {
    if a == [] {
      assert a + b == b;
    } else {
      var x, t := a[0], a[1..];
      assert a == [x] + t;
      assert a + b == [x] + (t + b);
      ConsFoldAppend(f, c, t, b);
      assert f(a + b) == c(x) + f(t) + f(b);
    }
  }

  /** A list built by appending one contribution per element, left to right, is the list
      of a prefix followed by the list of the rest. */
  lemma {:induction false} SnocFoldAppend<T, U>(f: seq<T> -> seq<U>, c: T -> seq<U>, a: seq<T>, b: seq<T>)
    requires f([]) == []
    requires forall s, x :: f(s + [x]) == f(s) + c(x)
    ensures f(a + b) == f(a) + f(b)
    decreases |b|
  {
    if b == [] {
      assert a + b == a;
    } else {
      var init, last := b[..|b| - 1], b[|b| - 1];
      assert b == init + [last];
      assert a + b == (a + init) + [last];
      SnocFoldAppend(f, c, a, init);
      assert f(a + b) == f(a) + f(init) + c(last);
    }
  }

  lemma JobMatchesSnocOne(file: string, s: seq<(string, Job)>, x: (string, Job))
    ensures JobMatches(file, s + [x]) == JobMatches(file, s) + JobContribution(file, x)
  {
    assert (s + [x])[..|s|] == s;
  }

  /** The jobs of a file are scanned in entry order: the matches of a run of job entries
      are those of its first part followed by those of the rest. */
  lemma JobMatchesAppend(file: string, a: seq<(string, Job)>, b: seq<(string, Job)>)
    ensures JobMatches(file, a + b) == JobMatches(file, a) + JobMatches(file, b)
  {
    var f := (s: seq<(string, Job)>) => JobMatches(file, s);
    var c := (e: (string, Job)) => JobContribution(file, e);
    forall s: seq<(string, Job)>, x: (string, Job) ensures f(s + [x]) == f(s) + c(x) {
      JobMatchesSnocOne(file, s, x);
    }
    SnocFoldAppend(f, c, a, b);
  }

  lemma FileMatchesSnocOne(s: seq<DirEntry>, x: DirEntry)
    ensures FileMatches(s + [x]) == FileMatches(s) + FileContribution(x)
  {
    assert (s + [x])[..|s|] == s;
  }

  /** The workflow files are scanned in listing order: the matches of a listing are those
      of its first part followed by those of the rest. */
  lemma FileMatchesAppend(a: seq<DirEntry>, b: seq<DirEntry>)
    ensures FileMatches(a + b) == FileMatches(a) + FileMatches(b)
  {
    var f := (s: seq<DirEntry>) => FileMatches(s);
    var c := (e: DirEntry) => FileContribution(e);
    forall s: seq<DirEntry>, x: DirEntry ensures f(s + [x]) == f(s) + c(x) {
      FileMatchesSnocOne(s, x);
    }
    SnocFoldAppend(f, c, a, b);
  }

  /** The regular files of the listing whose name ends in `.yml`, in listing order. */
  function WorkflowFiles(entries: seq<DirEntry>): (r: seq<DirEntry>)
    ensures forall e :: e in r <==> e in entries && e.isFile && EndsWith(e.name, ".yml")
  {
    if entries == [] then []
    else
      (if entries[0].isFile && EndsWith(entries[0].name, ".yml") then [entries[0]] else [])
        + WorkflowFiles(entries[1..])
  }

  /** Every publish command of the listed workflow files, in scan order. */
  function PublishMatches(entries: seq<DirEntry>): seq<PublishCommandMatch> {
    FileMatches(WorkflowFiles(entries))
  }

  /** One entry is kept exactly when it is a regular `.yml` file. */
  lemma WorkflowFilesOfEntry(e: DirEntry)
    ensures WorkflowFiles([e]) == if e.isFile && EndsWith(e.name, ".yml") then [e] else []
  {
    assert [e][1..] == [];
  }

  /** The filter keeps the listing's order and every entry it selects: filtering a
      concatenation is concatenating the filtered parts. */
  lemma WorkflowFilesAppend(a: seq<DirEntry>, b: seq<DirEntry>)
    ensures WorkflowFiles(a + b) == WorkflowFiles(a) + WorkflowFiles(b)
  {
    var f := (s: seq<DirEntry>) => WorkflowFiles(s);
    var c := (e: DirEntry) => if e.isFile && EndsWith(e.name, ".yml") then [e] else [];
    forall e: DirEntry, s: seq<DirEntry> ensures f([e] + s) == c(e) + f(s) {
      WorkflowFilesCons(e, s);
    }
    ConsFoldAppend(f, c, a, b);
  }

  lemma WorkflowFilesCons(e: DirEntry, rest: seq<DirEntry>)
    ensures WorkflowFiles([e] + rest)
         == (if e.isFile && EndsWith(e.name, ".yml") then [e] else []) + WorkflowFiles(rest)
  {
    assert ([e] + rest)[0] == e;
    assert ([e] + rest)[1..] == rest;
  }

  /** The matches of a listing come in listing order: those of its first part, then
      those of the rest. */
  lemma PublishMatchesAppend(a: seq<DirEntry>, b: seq<DirEntry>)
    ensures PublishMatches(a + b) == PublishMatches(a) + PublishMatches(b)
  {
    WorkflowFilesAppend(a, b);
    FileMatchesAppend(WorkflowFiles(a), WorkflowFiles(b));
  }

  function WorkflowDir(repoRoot: string): string {
    repoRoot + "/.github/workflows"
  }

  function MissingDirMessage(repoRoot: string): string {
    "Cannot find workflow directory \"" + WorkflowDir(repoRoot) + "\". Please specify --file manually."
  }

  /** What the scan yields: an error when the directory cannot be read (`listing` is
      `None`), otherwise the matches of its entries. */
  function CollectedMatches(repoRoot: string, listing: Option<seq<DirEntry>>): Result<seq<PublishCommandMatch>, string> {
    match listing
    case None => Err(MissingDirMessage(repoRoot))
    case Some(entries) => Ok(PublishMatches(entries))
  }

  /** The scan itself: a loop over the workflow files, entering each file's jobs; the
      listing is taken in the order the source sorts it into. The source's four nested
      loops are written as one method per outer level. */
  method CollectPublishCommandMatches(repoRoot: string, listing: Option<seq<DirEntry>>)
    returns (r: Result<seq<PublishCommandMatch>, string>)
    ensures r == CollectedMatches(repoRoot, listing)
  {
    if listing.None? {
      return Err(MissingDirMessage(repoRoot));
    }
    var workflowFiles := WorkflowFiles(listing.value);
    var matches: seq<PublishCommandMatch> := [];
    for f := 0 to |workflowFiles|
      invariant matches == FileMatches(workflowFiles[..f])
    {
      var entry := workflowFiles[f];
      FileMatchesSnoc(workflowFiles, f);
      if entry.workflow.jobs.None? {
        continue;
      }
      var found := CollectJobMatches(entry.name, entry.workflow.jobs.value);
      matches := matches + found;
    }
    assert workflowFiles[..|workflowFiles|] == workflowFiles;
    return Ok(matches);
  }

  /** The loop over the jobs of one workflow file, entering each job's steps. */
  method CollectJobMatches(file: string, jobs: seq<(string, Job)>) returns (matches: seq<PublishCommandMatch>)
    ensures matches == JobMatches(file, jobs)
  {
    matches := [];
    for j := 0 to |jobs|
      invariant matches == JobMatches(file, jobs[..j])
    {
      var jobName, job := jobs[j].0, jobs[j].1;
      JobMatchesSnoc(file, jobs, j);
      if job.steps.None? {
        continue;
      }
      var found := CollectStepMatches(file, jobName, job.steps.value);
      matches := matches + found;
    }
    assert jobs[..|jobs|] == jobs;
  }

  /** The loop over the steps of one job, entering each step's commands. */
  method CollectStepMatches(file: string, job: string, steps: seq<Step>) returns (matches: seq<PublishCommandMatch>)
    ensures matches == StepMatches(file, job, steps)
  {
    matches := [];
    for index := 0 to |steps|
      invariant matches == StepMatches(file, job, steps[..index])
    {
      var step := steps[index];
      StepMatchesSnoc(file, job, steps, index);
      if step.run.None? {
        continue;
      }
      var commands := SplitRunCommand(step.run.value);
      var found := CollectCommandMatches(file, job, index + 1, commands);
      matches := matches + found;
    }
    assert steps[..|steps|] == steps;
  }

  /** The loop over the commands of one step, keeping the direct publish calls. */
  method CollectCommandMatches(file: string, job: string, step: nat, commands: seq<string>)
    returns (matches: seq<PublishCommandMatch>)
    ensures matches == SegmentMatches(file, job, step, commands)
  {
    matches := [];
    for c := 0 to |commands|
      invariant matches == SegmentMatches(file, job, step, commands[..c])
    {
      SegmentMatchesSnoc(file, job, step, commands, c);
      var isPublish := IsDirectPublishCommand(commands[c]);
      if isPublish {
        matches := matches + [PublishCommandMatch(file, job, step, commands[c])];
      }
    }
    assert commands[..|commands|] == commands;
  }

  // ---------------------------------------------------------------------------
  // What a match is: soundness and completeness of the scan

  /** Step number `n` of `steps` has a string `run` one of whose commands is `command`,
      a direct publish call. */
  predicate PublishStepAt(steps: seq<Step>, n: nat, command: string) {
    && 1 <= n <= |steps|
    && steps[n - 1].run.Some?
    && command in SplitRunCommand(steps[n - 1].run.value)
    && IsDirectPublish(command)
  }

  predicate PublishInJob(entry: (string, Job), m: PublishCommandMatch) {
    entry.0 == m.job && entry.1.steps.Some? && PublishStepAt(entry.1.steps.value, m.step, m.command)
  }

  predicate PublishInFile(e: DirEntry, m: PublishCommandMatch) {
    m.file == e.name && e.workflow.jobs.Some? && exists entry :: entry in e.workflow.jobs.value && PublishInJob(entry, m)
  }

  lemma {:induction false} SegmentMatchesIff(file: string, job: string, step: nat, commands: seq<string>, m: PublishCommandMatch)
    ensures m in SegmentMatches(file, job, step, commands)
        <==> m.file == file && m.job == job && m.step == step && m.command in commands && IsDirectPublish(m.command)
  {
    if commands != [] {
      var init := commands[..|commands| - 1];
      SegmentMatchesIff(file, job, step, init, m);
      assert commands == init + [commands[|commands| - 1]];
    }
  }

  lemma {:induction false} StepMatchesIff(file: string, job: string, steps: seq<Step>, m: PublishCommandMatch)
    ensures m in StepMatches(file, job, steps) <==> m.file == file && m.job == job && PublishStepAt(steps, m.step, m.command)
  {
    if steps != [] {
      var init := steps[..|steps| - 1];
      StepMatchesIff(file, job, init, m);
      var last := steps[|steps| - 1];
      if last.run.Some? {
        SegmentMatchesIff(file, job, |steps|, SplitRunCommand(last.run.value), m);
      }
      assert StepMatches(file, job, steps) == StepMatches(file, job, init) + StepContribution(file, job, |steps|, last);
      if 1 <= m.step < |steps| {
        assert init[m.step - 1] == steps[m.step - 1];
      }
    }
  }

  lemma {:induction false} JobMatchesComplete(file: string, jobs: seq<(string, Job)>, entry: (string, Job), m: PublishCommandMatch)
    requires entry in jobs && m.file == file && PublishInJob(entry, m)
    ensures m in JobMatches(file, jobs)
  {
    var init, last := jobs[..|jobs| - 1], jobs[|jobs| - 1];
    assert JobMatches(file, jobs) == JobMatches(file, init) + JobContribution(file, last);
    var i :| 0 <= i < |jobs| && jobs[i] == entry;
    if i == |jobs| - 1 {
      StepMatchesIff(file, entry.0, entry.1.steps.value, m);
      assert JobContribution(file, last) == StepMatches(file, entry.0, entry.1.steps.value);
    } else {
      assert init[i] == entry;
      JobMatchesComplete(file, init, entry, m);
    }
  }

  lemma {:induction false} JobMatchesSound(file: string, jobs: seq<(string, Job)>, m: PublishCommandMatch)
    returns (entry: (string, Job))
    requires m in JobMatches(file, jobs)
    ensures entry in jobs && m.file == file && PublishInJob(entry, m)
  {
    var init, last := jobs[..|jobs| - 1], jobs[|jobs| - 1];
    assert JobMatches(file, jobs) == JobMatches(file, init) + JobContribution(file, last);
    if m in JobMatches(file, init) {
      entry := JobMatchesSound(file, init, m);
      var i :| 0 <= i < |init| && init[i] == entry;
      assert jobs[i] == entry;
    } else {
      entry := last;
      StepMatchesIff(file, last.0, last.1.steps.value, m);
    }
  }

  lemma JobMatchesIff(file: string, jobs: seq<(string, Job)>, m: PublishCommandMatch)
    ensures m in JobMatches(file, jobs) <==> m.file == file && exists entry :: entry in jobs && PublishInJob(entry, m)
  {
    if m in JobMatches(file, jobs) {
      var entry := JobMatchesSound(file, jobs, m);
    }
    if m.file == file && exists entry :: entry in jobs && PublishInJob(entry, m) {
      var entry :| entry in jobs && PublishInJob(entry, m);
      JobMatchesComplete(file, jobs, entry, m);
    }
  }

  lemma {:induction false} FileMatchesComplete(files: seq<DirEntry>, e: DirEntry, m: PublishCommandMatch)
    requires e in files && PublishInFile(e, m)
    ensures m in FileMatches(files)
  {
    var init, last := files[..|files| - 1], files[|files| - 1];
    assert FileMatches(files) == FileMatches(init) + FileContribution(last);
    var i :| 0 <= i < |files| && files[i] == e;
    if i == |files| - 1 {
      var jobs := e.workflow.jobs.value;
      var entry :| entry in jobs && PublishInJob(entry, m);
      JobMatchesComplete(e.name, jobs, entry, m);
      assert FileContribution(last) == JobMatches(e.name, jobs);
    } else {
      assert init[i] == e;
      FileMatchesComplete(init, e, m);
    }
  }

  lemma {:induction false} FileMatchesSound(files: seq<DirEntry>, m: PublishCommandMatch) returns (e: DirEntry)
    requires m in FileMatches(files)
    ensures e in files && PublishInFile(e, m)
  {
    var init, last := files[..|files| - 1], files[|files| - 1];
    assert FileMatches(files) == FileMatches(init) + FileContribution(last);
    if m in FileMatches(init) {
      e := FileMatchesSound(init, m);
      var i :| 0 <= i < |init| && init[i] == e;
      assert files[i] == e;
    } else {
      e := last;
      JobMatchesIff(last.name, last.workflow.jobs.value, m);
    }
  }

  lemma FileMatchesIff(files: seq<DirEntry>, m: PublishCommandMatch)
    ensures m in FileMatches(files) <==> exists e :: e in files && PublishInFile(e, m)
  {
    if m in FileMatches(files) {
      var e := FileMatchesSound(files, m);
    }
    if exists e :: e in files && PublishInFile(e, m) {
      var e :| e in files && PublishInFile(e, m);
      FileMatchesComplete(files, e, m);
    }
  }

  /** A match is found iff some regular `.yml` file of the listing has a job with that
      name whose step, numbered from 1, runs that command as a direct publish call;
      nothing else is scanned and nothing is missed. */
  lemma PublishMatchesIff(entries: seq<DirEntry>, m: PublishCommandMatch)
    ensures m in PublishMatches(entries)
        <==> exists e :: e in entries && e.isFile && EndsWith(e.name, ".yml") && PublishInFile(e, m)
  {
    FileMatchesIff(WorkflowFiles(entries), m);
  }

  /** Within a job the matches come in step order: a later match never has an earlier step. */
  lemma {:induction false} StepMatchesInStepOrder(file: string, job: string, steps: seq<Step>)
    ensures var r := StepMatches(file, job, steps);
      forall i, j :: 0 <= i < j < |r| ==> r[i].step <= r[j].step
  {
    if steps != [] {
      var init := steps[..|steps| - 1];
      StepMatchesInStepOrder(file, job, init);
      var p := StepMatches(file, job, init);
      var last := steps[|steps| - 1];
      var q := StepContribution(file, job, |steps|, last);
      forall i | 0 <= i < |p| ensures p[i].step < |steps| {
        StepMatchesIff(file, job, init, p[i]);
      }
      forall i | 0 <= i < |q| ensures q[i].step == |steps| {
        SegmentMatchesIff(file, job, |steps|, SplitRunCommand(last.run.value), q[i]);
      }
      assert StepMatches(file, job, steps) == p + q;
    }
  }

  // ---------------------------------------------------------------------------
  // inferGithubWorkflowFile

  const MultipleHeader := "Found multiple publish workflow commands in GitHub actions. Please specify --file manually."

  /** No match gives no file, one match gives its file, and more than one is an error
      listing every candidate, even when they all lie in the same file. */
  function InferGithubWorkflowFile(repoRoot: string, listing: Option<seq<DirEntry>>): (r: Result<Option<string>, string>)
    ensures listing.None? ==> r == Err(MissingDirMessage(repoRoot))
    ensures listing.Some? ==>
      var ms := PublishMatches(listing.value);
      && (r == Ok(None) <==> |ms| == 0)
      && (r.Ok? && r.value.Some? <==> |ms| == 1)
      && (|ms| == 1 ==> r.value.value == ms[0].file)
      && (r.Err? <==> |ms| > 1)
      && (r.Err? ==> r.error == MultipleHeader + "\n" + FormatPublishCandidates(ms))
  {
    var matches :- CollectedMatches(repoRoot, listing);
    if |matches| > 1 then Err(MultipleHeader + "\n" + FormatPublishCandidates(matches))
    else if |matches| == 0 then Ok(None)
    else Ok(Some(matches[0].file))
  }
}
