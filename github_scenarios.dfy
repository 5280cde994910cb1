/** The workflow scenarios of the repository's provider tests, worked through the model.
    Commands are written as their words joined by single spaces. */
module GitHubScenarios {
  import opened Wrappers
  import opened Strings
  import opened GitHub

  /** `pnpm test:ci` */
  const CiCommand := Join(["pnpm", "test:ci"], " ")
  /** `pnpm -r publish --provenance --no-git-checks` */
  const ReleaseCommand := Join(["pnpm", "-r", "publish", "--provenance", "--no-git-checks"], " ")
  /** `npm publish` */
  const NpmPublish := Join(["npm", "publish"], " ")
  /** `pnpm -r publish` */
  const PnpmPublish := Join(["pnpm", "-r", "publish"], " ")

  /** A regular workflow file with a single job holding a single step that runs `run`. */
  function OneStepFile(name: string, job: string, run: string): DirEntry {
    DirEntry(name, true, Workflow(Some([(job, Job(Some([Step(Some(run))])))])))
  }

  /** The characters the scenario commands are made of: none is a separator or blank
      except the space between words. */
  predicate IsPlain(c: char) {
    ('a' <= c <= 'z') || ('0' <= c <= '9') || c == '-' || c == ':'
  }

  predicate IsPlainWord(w: string) {
    w != [] && forall j :: 0 <= j < |w| ==> IsPlain(w[j])
  }

  predicate IsPlainLine(s: string) {
    s != [] && IsPlain(s[0]) && IsPlain(s[|s| - 1]) && forall j :: 0 <= j < |s| ==> IsPlain(s[j]) || s[j] == ' '
  }

  lemma {:induction false} JoinOfPlainWords(words: seq<string>)
    requires |words| >= 1 && forall k :: 0 <= k < |words| ==> IsPlainWord(words[k])
    ensures IsPlainLine(Join(words, " ")) && IsWord(words[0])
  {
    if |words| > 1 {
      JoinOfPlainWords(words[1..]);
      var rest := Join(words[1..], " ");
      var s := words[0] + " " + rest;
      assert Join(words, " ") == s;
      assert forall j :: 0 <= j < |s| ==> s[j] == (if j < |words[0]| then words[0][j] else if j == |words[0]| then ' ' else rest[j - |words[0]| - 1]);
    }
  }

  /** A line of plain words is one command of its own. */
  lemma PlainLineIsOneCommand(s: string)
    requires IsPlainLine(s)
    ensures SplitRunCommand(s) == [s]
  {
    SplitSingleCommand(s);
  }

  /** The tokens of a line of plain words are those words. */
  lemma PlainWordsTokens(words: seq<string>)
    requires forall k :: 0 <= k < |words| ==> IsPlainWord(words[k])
    ensures Tokens(Join(words, " ")) == words
  {
    forall k | 0 <= k < |words| ensures IsWord(words[k]) {
      assert IsPlainWord(words[k]);
    }
    TokensOfJoin(words);
  }

  /** Plain words starting with a package manager, whose word `j` is the first one after
      it that is not a flag and is `publish`, make a direct publish call. */
  lemma PublishWords(words: seq<string>, j: nat)
    requires forall k :: 0 <= k < |words| ==> IsPlainWord(words[k])
    requires 1 <= j < |words| && words[0] in PackageManagers && words[j] == "publish"
    requires forall k :: 1 <= k < j ==> IsFlag(words[k])
    ensures IsDirectPublish(Join(words, " "))
  {
    PlainWordsTokens(words);
  }

  lemma CiCommandFacts()
    ensures SplitRunCommand(CiCommand) == [CiCommand] && !IsDirectPublish(CiCommand)
  {
    var words := ["pnpm", "test:ci"];
    JoinOfPlainWords(words);
    PlainLineIsOneCommand(CiCommand);
    PlainWordsTokens(words);
  }

  lemma ReleaseCommandIsOneCommand()
    ensures SplitRunCommand(ReleaseCommand) == [ReleaseCommand]
  {
    JoinOfPlainWords(["pnpm", "-r", "publish", "--provenance", "--no-git-checks"]);
    PlainLineIsOneCommand(ReleaseCommand);
  }

  lemma ReleaseCommandIsPublish()
    ensures IsDirectPublish(ReleaseCommand)
  {
    PublishWords(["pnpm", "-r", "publish", "--provenance", "--no-git-checks"], 2);
  }

  lemma NpmPublishFacts()
    ensures SplitRunCommand(NpmPublish) == [NpmPublish] && IsDirectPublish(NpmPublish)
  {
    var words := ["npm", "publish"];
    JoinOfPlainWords(words);
    PlainLineIsOneCommand(NpmPublish);
    PublishWords(words, 1);
  }

  lemma PnpmPublishIsOneCommand()
    ensures SplitRunCommand(PnpmPublish) == [PnpmPublish]
  {
    JoinOfPlainWords(["pnpm", "-r", "publish"]);
    PlainLineIsOneCommand(PnpmPublish);
  }

  lemma PnpmPublishIsPublish()
    ensures IsDirectPublish(PnpmPublish)
  {
    PublishWords(["pnpm", "-r", "publish"], 2);
  }

  // ---------------------------------------------------------------------------
  // Listings of one-step workflow files

  /** What a one-step file contributes when its `run` is a single command. */
  lemma OneStepFileContribution(name: string, job: string, run: string)
    requires SplitRunCommand(run) == [run]
    ensures FileContribution(OneStepFile(name, job, run))
         == if IsDirectPublish(run) then [PublishCommandMatch(name, job, 1, run)] else []
  {
    var step := Step(Some(run));
    var entry := (job, Job(Some([step])));
    var found := if IsDirectPublish(run) then [PublishCommandMatch(name, job, 1, run)] else [];
    assert [run][..0] == [] && [step][..0] == [] && [entry][..0] == [];
    assert SegmentMatches(name, job, 1, [run]) == found;
    assert StepContribution(name, job, 1, step) == found;
    assert StepMatches(name, job, [step]) == found;
    assert JobContribution(name, entry) == found;
    assert JobMatches(name, [entry]) == found;
  }

  /** The matches of a listing of two workflow files are those of the first, then those
      of the second. */
  lemma TwoFileMatches(a: DirEntry, b: DirEntry)
    requires a.isFile && EndsWith(a.name, ".yml") && b.isFile && EndsWith(b.name, ".yml")
    ensures PublishMatches([a, b]) == FileContribution(a) + FileContribution(b)
  {
    WorkflowFilesOfTwo(a, b);
    FileMatchesOfTwo(a, b);
  }

  lemma WorkflowFilesOfOne(a: DirEntry)
    requires a.isFile && EndsWith(a.name, ".yml")
    ensures WorkflowFiles([a]) == [a]
  {
    assert [a][1..] == [];
  }

  lemma WorkflowFilesOfTwo(a: DirEntry, b: DirEntry)
    requires a.isFile && EndsWith(a.name, ".yml") && b.isFile && EndsWith(b.name, ".yml")
    ensures WorkflowFiles([a, b]) == [a, b]
  {
    assert [a, b][1..] == [b];
    WorkflowFilesOfOne(b);
  }

  lemma FileMatchesOfTwo(a: DirEntry, b: DirEntry)
    ensures FileMatches([a, b]) == FileContribution(a) + FileContribution(b)
  {
    assert [a, b][..1] == [a] && [a][..0] == [];
    assert FileMatches([a]) == FileContribution(a);
  }

  lemma FileMatchesOfOne(a: DirEntry)
    ensures FileMatches([a]) == FileContribution(a)
  {
    assert [a][..0] == [];
  }

  /** The matches of a listing of two one-step workflow files whose `run`s are single
      commands. */
  lemma TwoOneStepFilesMatches(a: string, jobA: string, runA: string, b: string, jobB: string, runB: string)
    requires EndsWith(a, ".yml") && EndsWith(b, ".yml")
    requires SplitRunCommand(runA) == [runA] && SplitRunCommand(runB) == [runB]
    ensures PublishMatches([OneStepFile(a, jobA, runA), OneStepFile(b, jobB, runB)])
         == (if IsDirectPublish(runA) then [PublishCommandMatch(a, jobA, 1, runA)] else [])
            + (if IsDirectPublish(runB) then [PublishCommandMatch(b, jobB, 1, runB)] else [])
  {
    OneStepFileContribution(a, jobA, runA);
    OneStepFileContribution(b, jobB, runB);
    TwoFileMatches(OneStepFile(a, jobA, runA), OneStepFile(b, jobB, runB));
  }

  /** When only one of two workflow files runs a direct publish call, that file is chosen. */
  lemma OnlyPublishingFileIsChosen(root: string, ci: string, release: string, ciRun: string, releaseRun: string)
    requires EndsWith(ci, ".yml") && EndsWith(release, ".yml")
    requires SplitRunCommand(ciRun) == [ciRun] && !IsDirectPublish(ciRun)
    requires SplitRunCommand(releaseRun) == [releaseRun] && IsDirectPublish(releaseRun)
    ensures InferGithubWorkflowFile(root, Some([OneStepFile(ci, "ci", ciRun), OneStepFile(release, "release", releaseRun)]))
         == Ok(Some(release))
  {
    TwoOneStepFilesMatches(ci, "ci", ciRun, release, "release", releaseRun);
  }

  /** When both of two workflow files run a direct publish call, the inference fails and
      lists both candidates, in file order, one per line. */
  lemma TwoPublishingFilesAreRejected(root: string, a: string, b: string, runA: string, runB: string)
    requires EndsWith(a, ".yml") && EndsWith(b, ".yml")
    requires SplitRunCommand(runA) == [runA] && IsDirectPublish(runA)
    requires SplitRunCommand(runB) == [runB] && IsDirectPublish(runB)
    ensures InferGithubWorkflowFile(root, Some([OneStepFile(a, "release", runA), OneStepFile(b, "release", runB)]))
         == Err(MultipleHeader + "\n"
                + FormatPublishCandidates([PublishCommandMatch(a, "release", 1, runA), PublishCommandMatch(b, "release", 1, runB)]))
  {
    var m1, m2 := PublishCommandMatch(a, "release", 1, runA), PublishCommandMatch(b, "release", 1, runB);
    var listing := [OneStepFile(a, "release", runA), OneStepFile(b, "release", runB)];
    TwoOneStepFilesMatches(a, "release", runA, b, "release", runB);
    SeveralMatchesAreRejected(root, listing, [m1, m2]);
  }

  lemma SeveralMatchesAreRejected(root: string, listing: seq<DirEntry>, ms: seq<PublishCommandMatch>)
    requires PublishMatches(listing) == ms && |ms| > 1
    ensures InferGithubWorkflowFile(root, Some(listing)) == Err(MultipleHeader + "\n" + FormatPublishCandidates(ms))
  {
  }

  /** Two candidates are listed on two lines, in order. */
  lemma FormatTwo(m1: PublishCommandMatch, m2: PublishCommandMatch)
    ensures FormatPublishCandidates([m1, m2]) == CandidateLine(m1) + "\n" + CandidateLine(m2)
  {
    var ms := [m1, m2];
    var lines := seq(|ms|, k requires 0 <= k < |ms| => CandidateLine(ms[k]));
    assert lines == [CandidateLine(m1), CandidateLine(m2)];
    JoinTwo(CandidateLine(m1), CandidateLine(m2), "\n");
  }

  lemma JoinTwo(x: string, y: string, sep: string)
    ensures Join([x, y], sep) == x + sep + y
  {
    assert [x, y][1..] == [y];
  }

  /** Two direct publish calls in one step are ambiguous too, although they name the
      same file. */
  lemma TwoCallsInOneStepAreRejected(root: string, name: string, job: string, run: string, c1: string, c2: string)
    requires EndsWith(name, ".yml")
    requires SplitRunCommand(run) == [c1, c2] && IsDirectPublish(c1) && IsDirectPublish(c2)
    ensures InferGithubWorkflowFile(root, Some([OneStepFile(name, job, run)])).Err?
  {
    var e := OneStepFile(name, job, run);
    var step := Step(Some(run));
    var entry := (job, Job(Some([step])));
    var m1, m2 := PublishCommandMatch(name, job, 1, c1), PublishCommandMatch(name, job, 1, c2);
    TwoCallsSegmentMatches(name, job, c1, c2);
    assert [step][..0] == [] && [entry][..0] == [];
    assert StepContribution(name, job, 1, step) == [m1, m2];
    assert StepMatches(name, job, [step]) == [m1, m2];
    assert JobContribution(name, entry) == [m1, m2];
    assert JobMatches(name, [entry]) == [m1, m2];
    assert FileContribution(e) == [m1, m2];
    WorkflowFilesOfOne(e);
    FileMatchesOfOne(e);
  }

  lemma TwoCallsSegmentMatches(name: string, job: string, c1: string, c2: string)
    requires IsDirectPublish(c1) && IsDirectPublish(c2)
    ensures SegmentMatches(name, job, 1, [c1, c2])
         == [PublishCommandMatch(name, job, 1, c1), PublishCommandMatch(name, job, 1, c2)]
  {
    assert [c1, c2][..1] == [c1] && [c1][..0] == [];
    assert SegmentMatches(name, job, 1, [c1]) == [PublishCommandMatch(name, job, 1, c1)];
  }

  /** A file that does not end in `.yml`, or is not a regular file, is not scanned. */
  lemma OtherEntriesAreIgnored(root: string, name: string, job: string, run: string)
    requires !EndsWith(name, ".yml")
    ensures InferGithubWorkflowFile(root, Some([OneStepFile(name, job, run)])) == Ok(None)
    ensures InferGithubWorkflowFile(root, Some([OneStepFile(name + ".yml", job, run).(isFile := false)])) == Ok(None)
  {
    assert [OneStepFile(name, job, run)][1..] == [];
    assert [OneStepFile(name + ".yml", job, run).(isFile := false)][1..] == [];
  }

  // ---------------------------------------------------------------------------
  // The provider tests

  lemma ScenarioFilesAreWorkflows()
    ensures EndsWith("ci.yml", ".yml") && EndsWith("release.yml", ".yml")
    ensures EndsWith("release-a.yml", ".yml") && EndsWith("release-b.yml", ".yml")
  {
  }

  /** `ci.yml` runs `pnpm test:ci` and `release.yml` publishes: `release.yml` is chosen. */
  lemma SingleReleaseWorkflowIsChosen(root: string)
    ensures InferGithubWorkflowFile(root, Some([OneStepFile("ci.yml", "ci", CiCommand), OneStepFile("release.yml", "release", ReleaseCommand)]))
         == Ok(Some("release.yml"))
  {
    ScenarioFilesAreWorkflows();
    CiCommandFacts();
    ReleaseCommandIsOneCommand();
    ReleaseCommandIsPublish();
    OnlyPublishingFileIsChosen(root, "ci.yml", "release.yml", CiCommand, ReleaseCommand);
  }

  /** Only `ci.yml`, which does not publish: no workflow is inferred. */
  lemma NoReleaseWorkflowGivesNone(root: string)
    ensures InferGithubWorkflowFile(root, Some([OneStepFile("ci.yml", "ci", CiCommand)])) == Ok(None)
  {
    ScenarioFilesAreWorkflows();
    CiCommandFacts();
    OneStepFileContribution("ci.yml", "ci", CiCommand);
    var e := OneStepFile("ci.yml", "ci", CiCommand);
    WorkflowFilesOfOne(e);
    FileMatchesOfOne(e);
  }

  /** `release-a.yml` runs `npm publish` and `release-b.yml` runs `pnpm -r publish`: the
      inference fails, listing both. */
  lemma TwoReleaseWorkflowsAreRejected(root: string)
    ensures InferGithubWorkflowFile(root, Some([OneStepFile("release-a.yml", "release", NpmPublish), OneStepFile("release-b.yml", "release", PnpmPublish)]))
         == Err(MultipleHeader + "\n"
                + FormatPublishCandidates([PublishCommandMatch("release-a.yml", "release", 1, NpmPublish), PublishCommandMatch("release-b.yml", "release", 1, PnpmPublish)]))
  {
    ScenarioFilesAreWorkflows();
    NpmPublishFacts();
    PnpmPublishIsOneCommand();
    PnpmPublishIsPublish();
    TwoPublishingFilesAreRejected(root, "release-a.yml", "release-b.yml", NpmPublish, PnpmPublish);
  }

  /** Each candidate line shows the file, the job, the step number and the command. */
  lemma CandidateLineForStepOne(file: string, job: string, command: string)
    ensures CandidateLine(PublishCommandMatch(file, job, 1, command))
         == "- " + file + " (job=" + job + ", step=1): " + command
  {
    assert NatToString(1) == [DigitChar(1)];
  }
  /** The error of the two release workflows, written out as the text the user sees: the
      header, then one line per candidate. */
  lemma TwoReleaseWorkflowsMessage()
    ensures MultipleHeader + "\n"
            + FormatPublishCandidates([PublishCommandMatch("release-a.yml", "release", 1, NpmPublish), PublishCommandMatch("release-b.yml", "release", 1, PnpmPublish)])
         == "Found multiple publish workflow commands in GitHub actions. Please specify --file manually.\n"
            + "- release-a.yml (job=release, step=1): npm publish\n"
            + "- release-b.yml (job=release, step=1): pnpm -r publish"
  {
    var m1 := PublishCommandMatch("release-a.yml", "release", 1, NpmPublish);
    var m2 := PublishCommandMatch("release-b.yml", "release", 1, PnpmPublish);
    FormatTwo(m1, m2);
    ReleaseALine();
    ReleaseBLine();
  }

  lemma ReleaseALine()
    ensures CandidateLine(PublishCommandMatch("release-a.yml", "release", 1, NpmPublish))
         == "- release-a.yml (job=release, step=1): npm publish"
  {
    CandidateLineForStepOne("release-a.yml", "release", NpmPublish);
    NpmPublishText();
    var line := "- " + "release-a.yml" + " (job=" + "release" + ", step=1): " + "npm publish";
    assert CandidateLine(PublishCommandMatch("release-a.yml", "release", 1, NpmPublish)) == line;
    LineTextA();
  }

  lemma LineTextA()
    ensures "- " + "release-a.yml" + " (job=" + "release" + ", step=1): " + "npm publish"
         == "- release-a.yml (job=release, step=1): npm publish"
  {
    LineHeadA();
    assert "- release-a.yml (job=release" + ", step=1): " == "- release-a.yml (job=release, step=1): ";
    assert "- release-a.yml (job=release, step=1): " + "npm publish" == "- release-a.yml (job=release, step=1): npm publish";
  }

  lemma LineHeadA()
    ensures "- " + "release-a.yml" + " (job=" + "release" == "- release-a.yml (job=release"
  {
    assert "- " + "release-a.yml" == "- release-a.yml";
    assert "- release-a.yml" + " (job=" == "- release-a.yml (job=";
    assert "- release-a.yml (job=" + "release" == "- release-a.yml (job=release";
  }

  lemma ReleaseBLine()
    ensures CandidateLine(PublishCommandMatch("release-b.yml", "release", 1, PnpmPublish))
         == "- release-b.yml (job=release, step=1): pnpm -r publish"
  {
    CandidateLineForStepOne("release-b.yml", "release", PnpmPublish);
    PnpmPublishText();
    var line := "- " + "release-b.yml" + " (job=" + "release" + ", step=1): " + "pnpm -r publish";
    assert CandidateLine(PublishCommandMatch("release-b.yml", "release", 1, PnpmPublish)) == line;
    LineTextB();
  }

  lemma LineTextB()
    ensures "- " + "release-b.yml" + " (job=" + "release" + ", step=1): " + "pnpm -r publish"
         == "- release-b.yml (job=release, step=1): pnpm -r publish"
  {
    LineHeadB();
    assert "- release-b.yml (job=release" + ", step=1): " == "- release-b.yml (job=release, step=1): ";
    assert "- release-b.yml (job=release, step=1): " + "pnpm -r publish" == "- release-b.yml (job=release, step=1): pnpm -r publish";
  }

  lemma LineHeadB()
    ensures "- " + "release-b.yml" + " (job=" + "release" == "- release-b.yml (job=release"
  {
    assert "- " + "release-b.yml" == "- release-b.yml";
    assert "- release-b.yml" + " (job=" == "- release-b.yml (job=";
    assert "- release-b.yml (job=" + "release" == "- release-b.yml (job=release";
  }

  lemma NpmPublishText()
    ensures NpmPublish == "npm publish"
  {
    JoinTwo("npm", "publish", " ");
  }

  lemma PnpmPublishText()
    ensures PnpmPublish == "pnpm -r publish"
  {
    JoinTwo("-r", "publish", " ");
    assert Join(["pnpm", "-r", "publish"], " ") == "pnpm" + " " + Join(["-r", "publish"], " ");
  }
}
