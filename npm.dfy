/** The npm side of ntrust: the command line that runs npm (directly or through mise),
    the shape of its result and of its failure, and the minimum-version gate. */
module Npm {
  import opened Wrappers
  import opened Strings

  /** The oldest npm with the `trust` command. */
  const MinNpmVersion := "11.10.0"

  /** What runs npm through mise, pinned to a release at least as new as `MinNpmVersion`. */
  const MiseLauncher: seq<string> := ["mise", "exec", "npm@^11.10.0", "--", "npm"]

  /** Added to every invocation and left out of the reported command. */
  const LogLevelFlag := "--loglevel=error"

  const UnknownError := "Unknown npm error"

  datatype Stdio = Pipe | Inherit

  datatype RunNpmOptions = RunNpmOptions(args: seq<string>, cwd: Option<string>, mise: bool, stdio: Option<Stdio>)

  /** The file, arguments and options handed to the process runner. */
  datatype Invocation = Invocation(file: string, arguments: seq<string>, cwd: Option<string>, stdio: Stdio)

  /** What the process runner did with an invocation: it completed, with the fields it
      reported, or it threw, with the fields its error carried. */
  datatype ExecOutcome =
    | Completed(stdout: Option<string>, stderr: Option<string>, exitCode: Option<int>)
    | Threw(shortMessage: Option<string>, errStderr: Option<string>, errStdout: Option<string>, errExitCode: Option<int>)

  datatype RunNpmResult = RunNpmResult(command: seq<string>, stdout: string, stderr: string, exitCode: int)

  // ---------------------------------------------------------------------------
  // getNpmCommand

  /** The npm command line: the arguments follow `npm`, which mise runs when asked to. */
  function GetNpmCommand(args: seq<string>, mise: bool): (r: seq<string>)
    ensures |r| == |args| + (if mise then 5 else 1)
    ensures r[|r| - |args|..] == args && r[|r| - |args| - 1] == "npm"
    ensures mise ==> r[..5] == MiseLauncher
    ensures r[0] == (if mise then "mise" else "npm")
  {
    (if mise then MiseLauncher else ["npm"]) + args
  }

  /** Through mise, the plain command follows `mise exec npm@^11.10.0 --`. */
  lemma MiseWrapsPlainCommand(args: seq<string>)
    ensures GetNpmCommand(args, true) == ["mise", "exec", "npm@^11.10.0", "--"] + GetNpmCommand(args, false)
  {
  }

  // ---------------------------------------------------------------------------
  // runNpm

  /** The invocation: the command's first token is the file, the rest and the log-level
      flag are the arguments, and the output is piped unless the caller says otherwise. */
  function InvocationOf(options: RunNpmOptions): (inv: Invocation)
    ensures [inv.file] + inv.arguments == GetNpmCommand(options.args, options.mise) + [LogLevelFlag]
    ensures inv.cwd == options.cwd
    ensures options.stdio.Some? ==> inv.stdio == options.stdio.value
    ensures options.stdio.None? ==> inv.stdio == Pipe
  {
    var command := GetNpmCommand(options.args, options.mise);
    Invocation(command[0], command[1..] + [LogLevelFlag], options.cwd, options.stdio.GetOr(Pipe))
  }

  /** JavaScript's `||` on an optional string: absent and empty both count as false. */
  predicate Blank(s: Option<string>) {
    s.None? || s.value == ""
  }

  /** The first candidate that is present and not empty, or `fallback`. */
  function FirstNonBlank(candidates: seq<Option<string>>, fallback: string): (r: string)
    ensures forall k :: 0 <= k < |candidates| && !Blank(candidates[k]) && (forall j :: 0 <= j < k ==> Blank(candidates[j]))
              ==> r == candidates[k].value
    ensures (forall k :: 0 <= k < |candidates| ==> Blank(candidates[k])) ==> r == fallback
  {
    if candidates == [] then fallback
    else if !Blank(candidates[0]) then candidates[0].value
    else
      var r := FirstNonBlank(candidates[1..], fallback);
      assert forall k :: 1 <= k < |candidates| ==> candidates[1..][k - 1] == candidates[k];
      r
  }

  /** The exit code as the failure message prints it. */
  function ExitText(exitCode: Option<int>): string {
    match exitCode
    case Some(code) => IntToString(code)
    case None => "unknown"
  }

  function FailureText(command: seq<string>, exitCode: Option<int>, message: string): string {
    "Failed to run command \"" + Join(command, " ") + "\" (exit=" + ExitText(exitCode) + ")\n" + message
  }

  /** `runNpm`, given what the process runner did with `InvocationOf(options)`: the result
      reports the command without the log-level flag, and a failure is reported with its
      most specific message. */
  function RunNpm(options: RunNpmOptions, outcome: ExecOutcome): (r: Result<RunNpmResult, string>)
    ensures outcome.Completed? <==> r.Ok?
    ensures outcome.Completed? ==>
      && r.value.command == GetNpmCommand(options.args, options.mise)
      && r.value.stdout == outcome.stdout.GetOr("")
      && r.value.stderr == outcome.stderr.GetOr("")
      && r.value.exitCode == outcome.exitCode.GetOr(0)
    ensures outcome.Threw? ==>
      var message := FirstNonBlank([outcome.errStderr, outcome.shortMessage, outcome.errStdout], UnknownError);
      r.error == FailureText(GetNpmCommand(options.args, options.mise), outcome.errExitCode, message)
  {
    var command := GetNpmCommand(options.args, options.mise);
    match outcome
    case Completed(stdout, stderr, exitCode) =>
      Ok(RunNpmResult(command, stdout.GetOr(""), stderr.GetOr(""), exitCode.GetOr(0)))
    case Threw(shortMessage, stderr, stdout, exitCode) =>
      var message := FirstNonBlank([stderr, shortMessage, stdout], UnknownError);
      Err(FailureText(command, exitCode, message))
  }

  /** The reported command is what was run, less the log-level flag. */
  lemma ReportedCommandIsInvoked(options: RunNpmOptions, stdout: Option<string>, stderr: Option<string>, exitCode: Option<int>)
    ensures var inv := InvocationOf(options);
      [inv.file] + inv.arguments == RunNpm(options, Completed(stdout, stderr, exitCode)).value.command + [LogLevelFlag]
  {
  }

  /** The failure message: standard error first, then the runner's short message, then
      standard output, and a fixed text when all three are missing or empty. */
  lemma FailureMessageOrder(options: RunNpmOptions, shortMessage: Option<string>, stderr: Option<string>,
                            stdout: Option<string>, exitCode: Option<int>)
    ensures var command := GetNpmCommand(options.args, options.mise);
      var r := RunNpm(options, Threw(shortMessage, stderr, stdout, exitCode));
      && (!Blank(stderr) ==> r.error == FailureText(command, exitCode, stderr.value))
      && (Blank(stderr) && !Blank(shortMessage) ==> r.error == FailureText(command, exitCode, shortMessage.value))
      && (Blank(stderr) && Blank(shortMessage) && !Blank(stdout) ==> r.error == FailureText(command, exitCode, stdout.value))
      && (Blank(stderr) && Blank(shortMessage) && Blank(stdout) ==> r.error == FailureText(command, exitCode, UnknownError))
  {
    var candidates := [stderr, shortMessage, stdout];
    assert candidates[0] == stderr && candidates[1] == shortMessage && candidates[2] == stdout;
  }

  /** A failure message names the command and ends with the chosen message. */
  lemma FailureTextShape(command: seq<string>, exitCode: Option<int>, message: string)
    ensures var t := FailureText(command, exitCode, message);
      StartsWith(t, "Failed to run command \"" + Join(command, " ") + "\"") && EndsWith(t, "\n" + message)
  {
    var head := "Failed to run command \"" + Join(command, " ") + "\"";
    var middle := " (exit=" + ExitText(exitCode) + ")";
    var t := FailureText(command, exitCode, message);
    assert t == head + middle + ("\n" + message);
    assert head + middle + ("\n" + message) == head + (middle + ("\n" + message));
    PrefixOfConcat(head, middle + ("\n" + message));
    SuffixOfConcat(head + middle, "\n" + message);
  }

  /** The default: `npm trust list pkg-a` is run with piped output. */
  lemma PipeIsTheDefault()
    ensures InvocationOf(RunNpmOptions(["trust", "list", "pkg-a"], None, false, None))
         == Invocation("npm", ["trust", "list", "pkg-a", LogLevelFlag], None, Pipe)
  {
    var inv := InvocationOf(RunNpmOptions(["trust", "list", "pkg-a"], None, false, None));
    assert [inv.file] + inv.arguments == ["npm", "trust", "list", "pkg-a", LogLevelFlag];
    assert inv.arguments == ([inv.file] + inv.arguments)[1..];
  }

  /** `npm publish` can pass the terminal through. */
  lemma InheritIsPassedOn()
    ensures InvocationOf(RunNpmOptions(["publish"], None, false, Some(Inherit)))
         == Invocation("npm", ["publish", LogLevelFlag], None, Inherit)
  {
    var inv := InvocationOf(RunNpmOptions(["publish"], None, false, Some(Inherit)));
    assert [inv.file] + inv.arguments == ["npm", "publish", LogLevelFlag];
    assert inv.arguments == ([inv.file] + inv.arguments)[1..];
  }

  // ---------------------------------------------------------------------------
  // parseVersion

  /** A leading run of digits, its value and what follows it. */
  function LeadingNumber(s: string): (r: Option<(nat, string)>)
    ensures r.Some? <==> s != [] && IsDigit(s[0])
    ensures r.Some? ==> var n := DigitRun(s);
      AllDigits(s[..n]) && r.value == (DigitsValue(s[..n]), s[n..])
  {
    var n := DigitRun(s);
    if n == 0 then None else Some((DigitsValue(s[..n]), s[n..]))
  }

  /** A number followed by a dot. */
  function NumberThenDot(s: string): Option<(nat, string)> {
    match LeadingNumber(s)
    case Some((v, rest)) => if rest != [] && rest[0] == '.' then Some((v, rest[1..])) else None
    case None => None
  }

  /** A number in front of the numbers parsed after it, when those were parsed. */
  function Prepend(n: nat, rest: Option<seq<nat>>): (r: Option<seq<nat>>)
    ensures r.Some? <==> rest.Some?
    ensures r.Some? ==> |r.value| == |rest.value| + 1 && r.value[0] == n && r.value[1..] == rest.value
  {
    if rest.None? then None else Some([n] + rest.value)
  }

  /** The third group: a run of digits, whatever follows it. */
  function ParseLast(s: string): (r: Option<seq<nat>>)
    ensures r.Some? ==> |r.value| == 1
  {
    var p := LeadingNumber(s);
    if p.None? then None else Some([p.value.0])
  }

  /** The second and third groups. */
  function ParsePair(s: string): (r: Option<seq<nat>>)
    ensures r.Some? ==> |r.value| == 2
  {
    var p := NumberThenDot(s);
    if p.None? then None else Prepend(p.value.0, ParseLast(p.value.1))
  }

  /** The three groups of `^(\d+)\.(\d+)\.(\d+)` on a trimmed text. */
  function ParseTriple(t: string): (r: Option<seq<nat>>)
    ensures r.Some? ==> |r.value| == 3
  {
    var p := NumberThenDot(t);
    if p.None? then None else Prepend(p.value.0, ParsePair(p.value.1))
  }

  /** `parseVersion`: the three dot-separated numbers the trimmed text starts with. */
  function ParseVersion(version: string): (r: Option<seq<nat>>)
    ensures r.Some? ==> |r.value| == 3
  {
    ParseTriple(Trim(version))
  }

  /** The regular expression `^(\d+)\.(\d+)\.(\d+)` matching `t` with these three groups. */
  predicate VersionMatch(t: string, d1: string, d2: string, d3: string) {
    && d1 != [] && d2 != [] && d3 != []
    && AllDigits(d1) && AllDigits(d2) && AllDigits(d3)
    && StartsWith(t, d1 + "." + d2 + "." + d3)
  }

  predicate IsNumeral(d: string) {
    d != [] && AllDigits(d)
  }

  lemma LeadingNumberOf(d: string, rest: string)
    requires IsNumeral(d)
    requires rest == [] || !IsDigit(rest[0])
    ensures LeadingNumber(d + rest) == Some((DigitsValue(d), rest))
  {
    DigitRunOfConcat(d, rest);
    assert (d + rest)[..|d|] == d && (d + rest)[|d|..] == rest;
  }

  lemma NumberThenDotOf(d: string, rest: string)
    requires IsNumeral(d)
    ensures NumberThenDot(d + "." + rest) == Some((DigitsValue(d), rest))
  {
    LeadingNumberOf(d, "." + rest);
    assert d + "." + rest == d + ("." + rest);
    assert ("." + rest)[1..] == rest;
  }

  lemma StartsWithUnder(d: string, x: string, y: string)
    requires StartsWith(x, y)
    ensures StartsWith(d + "." + x, d + "." + y)
  {
    assert (d + "." + x)[..|d + "." + y|] == d + "." + x[..|y|];
  }

  /** What a number followed by a dot consists of. */
  lemma NumberThenDotParts(s: string) returns (d: string)
    requires NumberThenDot(s).Some?
    ensures IsNumeral(d) && s == d + "." + NumberThenDot(s).value.1
    ensures NumberThenDot(s).value.0 == DigitsValue(d)
  {
    var n := DigitRun(s);
    d := s[..n];
    assert s == d + [s[n]] + s[n + 1..];
  }

  lemma LastMatched(s: string) returns (d: string)
    requires ParseLast(s).Some?
    ensures IsNumeral(d) && StartsWith(s, d) && ParseLast(s) == Some([DigitsValue(d)])
  {
    d := s[..DigitRun(s)];
  }

  lemma PairMatched(s: string) returns (d2: string, d3: string)
    requires ParsePair(s).Some?
    ensures IsNumeral(d2) && IsNumeral(d3) && StartsWith(s, d2 + "." + d3)
    ensures ParsePair(s) == Some([DigitsValue(d2), DigitsValue(d3)])
  {
    var r := NumberThenDot(s).value.1;
    d2 := NumberThenDotParts(s);
    d3 := LastMatched(r);
    assert ParsePair(s) == Prepend(DigitsValue(d2), ParseLast(r));
    assert [DigitsValue(d2)] + [DigitsValue(d3)] == [DigitsValue(d2), DigitsValue(d3)];
    StartsWithUnder(d2, r, d3);
  }

  lemma TripleMatched(t: string) returns (d1: string, d2: string, d3: string)
    requires ParseTriple(t).Some?
    ensures IsNumeral(d1) && IsNumeral(d2) && IsNumeral(d3) && StartsWith(t, d1 + "." + (d2 + "." + d3))
    ensures ParseTriple(t) == Some([DigitsValue(d1), DigitsValue(d2), DigitsValue(d3)])
  {
    var r := NumberThenDot(t).value.1;
    d1 := NumberThenDotParts(t);
    d2, d3 := PairMatched(r);
    assert ParseTriple(t) == Prepend(DigitsValue(d1), ParsePair(r));
    assert [DigitsValue(d1)] + [DigitsValue(d2), DigitsValue(d3)] == [DigitsValue(d1), DigitsValue(d2), DigitsValue(d3)];
    StartsWithUnder(d1, r, d2 + "." + d3);
  }

  /** A parsed version comes from a match of the pattern, whose groups hold its numbers. */
  lemma ParsedVersionMatches(version: string) returns (d1: string, d2: string, d3: string)
    requires ParseVersion(version).Some?
    ensures VersionMatch(Trim(version), d1, d2, d3)
    ensures ParseVersion(version).value == [DigitsValue(d1), DigitsValue(d2), DigitsValue(d3)]
  {
    d1, d2, d3 := TripleMatched(Trim(version));
    assert d1 + "." + (d2 + "." + d3) == d1 + "." + d2 + "." + d3;
  }

  lemma LastOf(d: string, rest: string)
    requires IsNumeral(d)
    ensures ParseLast(d + rest).Some?
    ensures (rest == [] || !IsDigit(rest[0])) ==> ParseLast(d + rest) == Some([DigitsValue(d)])
  {
    assert (d + rest)[0] == d[0];
    if rest == [] || !IsDigit(rest[0]) {
      LeadingNumberOf(d, rest);
    }
  }

  lemma PairOf(d: string, tail: string)
    requires IsNumeral(d)
    ensures ParsePair(d + "." + tail) == Prepend(DigitsValue(d), ParseLast(tail))
  {
    NumberThenDotOf(d, tail);
  }

  lemma TripleOf(d: string, tail: string)
    requires IsNumeral(d)
    ensures ParseTriple(d + "." + tail) == Prepend(DigitsValue(d), ParsePair(tail))
  {
    NumberThenDotOf(d, tail);
  }

  lemma TripleOfParts(t: string, d1: string, d2: string, d3: string, rest: string)
    requires IsNumeral(d1) && IsNumeral(d2)
    requires t == d1 + "." + d2 + "." + d3 + rest
    ensures ParseTriple(t) == Prepend(DigitsValue(d1), Prepend(DigitsValue(d2), ParseLast(d3 + rest)))
  {
    var pair := d2 + "." + (d3 + rest);
    assert t == d1 + "." + pair;
    TripleOf(d1, pair);
    PairOf(d2, d3 + rest);
  }

  lemma TripleValues(d1: string, d2: string, d3: string, rest: string)
    requires IsNumeral(d1) && IsNumeral(d2) && IsNumeral(d3)
    ensures var r := Prepend(DigitsValue(d1), Prepend(DigitsValue(d2), ParseLast(d3 + rest)));
      && r.Some? && r.value[0] == DigitsValue(d1) && r.value[1] == DigitsValue(d2)
      && ((rest == [] || !IsDigit(rest[0])) ==> r == Some([DigitsValue(d1), DigitsValue(d2), DigitsValue(d3)]))
  {
    LastOf(d3, rest);
    if rest == [] || !IsDigit(rest[0]) {
      assert [DigitsValue(d1)] + ([DigitsValue(d2)] + [DigitsValue(d3)]) == [DigitsValue(d1), DigitsValue(d2), DigitsValue(d3)];
    }
  }

  /** Any match of the pattern is parsed: the first two groups are forced, and the third
      is the longest run of digits there. */
  lemma MatchedVersionParses(version: string, d1: string, d2: string, d3: string, rest: string)
    requires VersionMatch(Trim(version), d1, d2, d3)
    requires Trim(version) == d1 + "." + d2 + "." + d3 + rest
    ensures ParseVersion(version).Some?
    ensures ParseVersion(version).value[0] == DigitsValue(d1) && ParseVersion(version).value[1] == DigitsValue(d2)
    ensures (rest == [] || !IsDigit(rest[0])) ==>
      ParseVersion(version) == Some([DigitsValue(d1), DigitsValue(d2), DigitsValue(d3)])
  {
    TripleOfParts(Trim(version), d1, d2, d3, rest);
    TripleValues(d1, d2, d3, rest);
  }

  /** A version without three leading numbers is not parsed. */
  lemma UnmatchedVersionFails(version: string)
    requires forall d1, d2, d3 :: !VersionMatch(Trim(version), d1, d2, d3)
    ensures ParseVersion(version).None?
  {
    if ParseVersion(version).Some? {
      var d1, d2, d3 := ParsedVersionMatches(version);
      assert false;
    }
  }

  /** Rendering three numbers and reading them back, whatever non-digit text follows. */
  lemma {:induction false} ParseVersionRoundTrip(major: nat, minor: nat, patch: nat, suffix: string)
    requires suffix == [] || !IsDigit(suffix[0])
    ensures ParseVersion(NatToString(major) + "." + NatToString(minor) + "." + NatToString(patch) + suffix)
         == Some([major, minor, patch])
  {
    var d1, d2, d3 := NatToString(major), NatToString(minor), NatToString(patch);
    var core := d1 + "." + d2 + "." + d3;
    assert core[0] == d1[0] && core[|core| - 1] == d3[|d3| - 1];
    var rest := TrimOfPadded(core, suffix);
    MatchedVersionParses(core + suffix, d1, d2, d3, rest);
    DigitsValueOfNatToString(major);
    DigitsValueOfNatToString(minor);
    DigitsValueOfNatToString(patch);
  }

  /** Trimming text that starts and ends with non-blank `core` keeps all of `core`. */
  lemma TrimOfPadded(core: string, suffix: string) returns (rest: string)
    requires core != [] && !IsWhitespace(core[0]) && !IsWhitespace(core[|core| - 1])
    ensures Trim(core + suffix) == core + rest
    ensures rest == [] || (suffix != [] && rest[0] == suffix[0])
  {
    var v := core + suffix;
    assert v[0] == core[0] && v[|core| - 1] == core[|core| - 1];
    TrimKeepsFrom(v, |core| - 1);
    var t := Trim(v);
    rest := t[|core|..];
    assert t == v[..|t|];
    assert t[..|core|] == core;
    assert t == core + rest;
  }

  // ---------------------------------------------------------------------------
  // compareVersion

  /** The sign of the comparison of two equally long number sequences, first place first. */
  function CompareTriples(x: seq<nat>, y: seq<nat>): (r: int)
    requires |x| == |y|
    ensures -1 <= r <= 1
  {
    if x == [] then 0
    else if x[0] > y[0] then 1
    else if x[0] < y[0] then -1
    else CompareTriples(x[1..], y[1..])
  }

  /** `x` precedes `y`: they agree up to a place where `x` is smaller. */
  predicate LexLess(x: seq<nat>, y: seq<nat>) {
    |x| == |y| && exists k :: 0 <= k < |x| && x[..k] == y[..k] && x[k] < y[k]
  }

  lemma {:induction false} CompareTriplesMeaning(x: seq<nat>, y: seq<nat>)
    requires |x| == |y|
    ensures CompareTriples(x, y) == -1 <==> LexLess(x, y)
    ensures CompareTriples(x, y) == 1 <==> LexLess(y, x)
    ensures CompareTriples(x, y) == 0 <==> x == y
  {
    if x == [] {
    } else if x[0] != y[0] {
      if x[0] < y[0] {
        assert x[..0] == y[..0];
        assert !LexLess(y, x);
      } else {
        assert x[..0] == y[..0];
        assert !LexLess(x, y);
      }
    } else {
      CompareTriplesMeaning(x[1..], y[1..]);
      LexLessOfCons(x, y);
      LexLessOfCons(y, x);
      if x[1..] == y[1..] {
        assert x == [x[0]] + x[1..] && y == [y[0]] + y[1..];
      }
    }
  }

  /** With equal first places, the order is the order of the rest. */
  lemma LexLessOfCons(x: seq<nat>, y: seq<nat>)
    requires |x| == |y| && x != [] && x[0] == y[0]
    ensures LexLess(x, y) <==> LexLess(x[1..], y[1..])
  {
    if LexLess(x, y) {
      var k :| 0 <= k < |x| && x[..k] == y[..k] && x[k] < y[k];
      assert k > 0;
      assert x[1..][..k - 1] == x[..k][1..] && y[1..][..k - 1] == y[..k][1..];
    }
    if LexLess(x[1..], y[1..]) {
      var k :| 0 <= k < |x| - 1 && x[1..][..k] == y[1..][..k] && x[1..][k] < y[1..][k];
      assert x[..k + 1] == [x[0]] + x[1..][..k] && y[..k + 1] == [y[0]] + y[1..][..k];
    }
  }

  /** Swapping the sides flips the sign. */
  lemma CompareTriplesAntisymmetric(x: seq<nat>, y: seq<nat>)
    requires |x| == |y|
    ensures CompareTriples(y, x) == -CompareTriples(x, y)
  {
    CompareTriplesMeaning(x, y);
    CompareTriplesMeaning(y, x);
  }

  /** Not above and not above is not above; below and not above is below. */
  lemma {:induction false} CompareTriplesTransitive(x: seq<nat>, y: seq<nat>, z: seq<nat>)
    requires |x| == |y| == |z|
    requires CompareTriples(x, y) <= 0 && CompareTriples(y, z) <= 0
    ensures CompareTriples(x, z) <= 0
    ensures CompareTriples(x, y) < 0 || CompareTriples(y, z) < 0 ==> CompareTriples(x, z) < 0
  {
    if x != [] && x[0] == y[0] && y[0] == z[0] {
      CompareTriplesTransitive(x[1..], y[1..], z[1..]);
    }
  }

  function ComparisonError(a: string, b: string): string {
    "Invalid semantic version comparison: \"" + a + "\" vs \"" + b + "\""
  }

  /** `compareVersion`: the sign of the comparison of the parsed triples, or an error when
      either side is not a version. */
  method CompareVersion(a: string, b: string) returns (r: Result<int, string>)
    ensures ParseVersion(a).None? || ParseVersion(b).None? ==> r == Err(ComparisonError(a, b))
    ensures ParseVersion(a).Some? && ParseVersion(b).Some? ==>
      r == Ok(CompareTriples(ParseVersion(a).value, ParseVersion(b).value))
  {
    var pa := ParseVersion(a);
    var pb := ParseVersion(b);
    if pa.None? || pb.None? {
      return Err(ComparisonError(a, b));
    }
    var x, y := pa.value, pb.value;
    for index := 0 to 3
      invariant CompareTriples(x[index..], y[index..]) == CompareTriples(x, y)
    {
      if x[index] > y[index] {
        return Ok(1);
      }
      if x[index] < y[index] {
        return Ok(-1);
      }
      assert x[index..][1..] == x[index + 1..] && y[index..][1..] == y[index + 1..];
    }
    return Ok(0);
  }

  // ---------------------------------------------------------------------------
  // checkNpmVersion

  function TooOldError(version: string): string {
    "npm version " + MinNpmVersion + " or newer is required, but got " + version + ". Please upgrade npm first."
  }

  lemma MinNpmVersionParses()
    ensures ParseVersion(MinNpmVersion) == Some([11, 10, 0])
  {
    MinNpmVersionIsTrimmed();
    MinNpmVersionNumerals();
    TripleOfParts(MinNpmVersion, "11", "10", "0", "");
    TripleValues("11", "10", "0", "");
  }

  lemma MinNpmVersionIsTrimmed()
    ensures Trim(MinNpmVersion) == MinNpmVersion
    ensures MinNpmVersion == "11" + "." + "10" + "." + "0" + ""
  {
    assert IsTrimmed(MinNpmVersion);
    TrimOfTrimmed(MinNpmVersion);
  }

  lemma MinNpmVersionNumerals()
    ensures IsNumeral("11") && IsNumeral("10") && IsNumeral("0")
    ensures DigitsValue("11") == 11 && DigitsValue("10") == 10 && DigitsValue("0") == 0
  {
  }

  /** A version is too old when it compares below the minimum. */
  lemma BelowMinimum(version: string)
    requires ParseVersion(version).Some?
    ensures ParseVersion(MinNpmVersion).Some?
    ensures CompareTriples(ParseVersion(version).value, ParseVersion(MinNpmVersion).value) < 0
        <==> LexLess(ParseVersion(version).value, [11, 10, 0])
  {
    MinNpmVersionParses();
    CompareTriplesMeaning(ParseVersion(version).value, [11, 10, 0]);
  }

  /** `checkNpmVersion`, given what the process runner did with `npm --version`: the
      trimmed version when it is at least `MinNpmVersion`, and an error otherwise. */
  method CheckNpmVersion(cwd: Option<string>, mise: bool, outcome: ExecOutcome) returns (r: Result<string, string>)
    ensures outcome.Threw? ==> r == Err(RunNpm(RunNpmOptions(["--version"], cwd, mise, None), outcome).error)
    ensures outcome.Completed? ==>
      var v := Trim(outcome.stdout.GetOr(""));
      && (ParseVersion(v).None? ==> r == Err(ComparisonError(v, MinNpmVersion)))
      && (ParseVersion(v).Some? ==>
            && (r.Ok? <==> !LexLess(ParseVersion(v).value, [11, 10, 0]))
            && (r.Ok? ==> r.value == v)
            && (r.Err? ==> r.error == TooOldError(v)))
  {
    var result :- RunNpm(RunNpmOptions(["--version"], cwd, mise, None), outcome);
    var npmVersion := Trim(result.stdout);
    MinNpmVersionParses();
    var c :- CompareVersion(npmVersion, MinNpmVersion);
    BelowMinimum(npmVersion);
    if c < 0 {
      return Err(TooOldError(npmVersion));
    }
    return Ok(npmVersion);
  }
}
