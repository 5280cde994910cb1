# ntrust core in Dafny

ntrust sets up npm trusted publishing for a repository's packages. Before it touches npm it
needs three things:

- the **provider** (GitHub or GitLab);
- the **`owner/name` repository**;
- the **workflow file** that publishes the packages.

It takes each from the command-line options or infers it:

- from `git rev-parse --show-toplevel`;
- from `git remote get-url origin`;
- from the workflows under `.github/workflows`.

It then runs npm, directly or through mise, and refuses an npm older than 11.10.0.
Destructive steps ask for confirmation first.

This project models that decision logic and proves properties of it:

- `github.dfy` (module `GitHub`), from `packages/ntrust/src/github.ts`. It covers:
  - how a step's `run` text is cut into commands;
  - which commands are direct `npm`/`pnpm`/`yarn` `publish` calls;
  - the scan over workflow files, jobs, steps and commands;
  - the candidate list;
  - the choice of the one publishing workflow.
- `git.dfy` (module `Git`), from `packages/ntrust/src/git.ts`. It covers:
  - normalising a repository path;
  - the two remote patterns: SCP-like `user@host:path`, and `scheme://host/path`;
  - the provider test on the remote;
  - the fallback of the repository root;
  - the whole `inferRepoInfo` decision sequence.
- `npm.dfy` (module `Npm`), from `packages/ntrust/src/npm.ts`. It covers:
  - the npm command line;
  - the invocation and the result or failure message of `runNpm`;
  - version parsing;
  - version comparison;
  - the minimum-version gate.
- `tui.dfy` (module `Tui`), from `packages/ntrust/src/tui.ts`. It covers the three outcomes of
  `confirm`.
- `strings.dfy` (module `Strings`) holds the JavaScript string primitives these rely on:
  - `trim` and `\s`, with JavaScript's white-space set;
  - `.`, with its line terminators;
  - `split` on one character, and `join`;
  - `startsWith`, `endsWith` and `includes`;
  - digit runs and `Number()` on them.
- `wrappers.dfy` holds `Option`, which stands for `undefined`, and `Result`, which stands for
  a thrown `Error`.
- `github_scenarios.dfy` and `git_scenarios.dfy` work the repository's provider tests through
  the model. They use the same workflows, the same remotes and the same expected results or
  messages.

Everything the source gets from the outside world is a parameter of the model:

- the outcome of each process run;
- the directory listing with its parsed workflows;
- whether stdin is a terminal;
- the line the user types.

Loops in the source are methods with loop invariants, each proved equal to a specification
function. The four nested scan loops in `collectPublishCommandMatches` are split into one
method per level. Straight-line and expression code is written as functions.

## Model

| member | source | states |
|---|---|---|
| Strings.Trim | packages/ntrust/src/github.ts:22 | The result has no white space at either end. It is the slice of the input between a leading and a trailing run that are all white space. |
| Strings.TrimOfBlankPadding | packages/ntrust/src/tui.ts:21 | White space added on either side of a text does not change its trimmed form. |
| Strings.TrimUnique | packages/ntrust/src/git.ts:39 | A trimmed text with white space on both sides trims back to itself. |
| Strings.SplitOn | packages/ntrust/src/git.ts:78 | `split('/')` yields at least one piece, and no piece contains the separator. |
| Strings.JoinSplitOn | packages/ntrust/src/git.ts:78 | Joining the pieces of a split with the separator gives back the original text. |
| Strings.SplitOnJoin | packages/ntrust/src/github.ts:50-52 | Joining separator-free pieces and splitting again gives back the pieces. |
| Strings.NonEmpty | packages/ntrust/src/git.ts:78 | `filter(Boolean)` keeps exactly the non-empty strings, and never adds any. |
| Strings.NonEmptyOfOne | packages/ntrust/src/git.ts:78 | A one-element list keeps its element iff the element is non-empty. |
| Strings.NonEmptyAppend | packages/ntrust/src/git.ts:78 | `filter` keeps order and every copy: filtering a concatenation gives the filtered parts, concatenated. |
| Strings.NonEmptyPositions | packages/ntrust/src/github.ts:23 | The kept strings sit at strictly increasing positions of the input, and every non-empty string of the input is at one of them. So the result is the input with exactly its empty strings removed. |
| Strings.DigitRun | packages/ntrust/src/npm.ts:57 | `\d+` consumes the longest run of digits. The run is all digits, and the next character is not a digit. |
| Strings.DigitsValueOfNatToString | packages/ntrust/src/npm.ts:61 | `Number()` of a rendered natural number gives back the number. |
| GitHub.Scan | packages/ntrust/src/github.ts:21 | The pieces and separators that `split` produces interleave back to the scanned text. There is one more piece than there are separators. |
| GitHub.SplitReassembles | packages/ntrust/src/github.ts:20-21 | Putting the removed separators back between the raw segments gives the `run` text. Every removed separator is `\n`, `\r\n`, `&&`, `\|\|` or `;`. |
| GitHub.ScanPiecesHaveNoSeparator | packages/ntrust/src/github.ts:21 | No piece that the global split produces contains a separator. |
| GitHub.SplitRunCommandSegments | packages/ntrust/src/github.ts:19-24 | Every command is non-empty, trimmed and free of separators. Each one is the trimmed form of some raw segment. |
| GitHub.SplitRunCommandOrder | packages/ntrust/src/github.ts:19-24 | Command `k` is the trimmed raw segment at position `idx[k]`. The positions strictly increase, and every raw segment that is skipped trims to the empty string. |
| GitHub.SplitSingleCommand | packages/ntrust/src/github.ts:19-24 | A non-empty, trimmed, separator-free command splits into just itself. |
| GitHub.SplitRunCommandIdempotent | packages/ntrust/src/github.ts:19-24 | Every command a split yields splits again into exactly itself. |
| GitHub.Tokens | packages/ntrust/src/github.ts:27 | `split(/\s+/).filter(Boolean)` yields only non-empty runs of non-blank characters. |
| GitHub.TokensOfBlanks | packages/ntrust/src/github.ts:27 | Leading white space of any length and kind produces no token. |
| GitHub.TokensOfWord | packages/ntrust/src/github.ts:27 | A word followed by white space, or by the end, is the next token, and the tokens of the rest follow it. |
| GitHub.TokensOfJoin | packages/ntrust/src/github.ts:27 | Words joined by single spaces tokenize back into the same words. |
| GitHub.IsDirectPublishCommand | packages/ntrust/src/github.ts:26-47 | The loop returns true iff all of these hold: there are at least two tokens; token 0 is `npm`, `pnpm` or `yarn`; the first later token that does not start with `-` is `publish`. |
| GitHub.FormatHasOneLinePerMatch | packages/ntrust/src/github.ts:49-53 | Splitting the candidate list at newlines gives back exactly one `- file (job=…, step=…): command` line per match, in order. |
| GitHub.WorkflowFiles | packages/ntrust/src/github.ts:65-67 | An entry is kept iff it is a regular file whose name ends in `.yml`. |
| GitHub.WorkflowFilesOfEntry | packages/ntrust/src/github.ts:65-66 | A single entry is kept iff it is a regular file whose name ends in `.yml`. |
| GitHub.WorkflowFilesAppend | packages/ntrust/src/github.ts:65-66 | The filter keeps the listing's order and every selected entry: filtering a concatenation gives the filtered parts, concatenated. |
| GitHub.CollectPublishCommandMatches | packages/ntrust/src/github.ts:55-107 | An unreadable workflow directory gives the "Cannot find workflow directory" error. Otherwise the loop's result is the specification `PublishMatches` of the listing. |
| GitHub.CollectJobMatches | packages/ntrust/src/github.ts:81-103 | The loop over a file's jobs collects that file's specified matches, job by job. |
| GitHub.CollectStepMatches | packages/ntrust/src/github.ts:86-102 | The loop over a job's steps collects that job's specified matches. A step without a string `run` contributes nothing. Steps are numbered from 1. |
| GitHub.CollectCommandMatches | packages/ntrust/src/github.ts:91-101 | The loop over a step's commands keeps exactly its direct publish calls, in order. |
| GitHub.SegmentMatchesIff | packages/ntrust/src/github.ts:92-100 | A match comes from a step iff it names the file, the job and the step number, and its command is one of the step's commands and a direct publish call. |
| GitHub.StepMatchesIff | packages/ntrust/src/github.ts:86-101 | A match comes from a job's steps iff step number `step` has a string `run` that holds the command as a direct publish call. |
| GitHub.JobMatchesIff | packages/ntrust/src/github.ts:81-103 | A match comes from a file's jobs iff some job entry has that name and its steps hold the match. |
| GitHub.FileMatchesIff | packages/ntrust/src/github.ts:72-104 | A match comes from the workflow files iff some file with a `jobs` record holds it. |
| GitHub.PublishMatchesIff | packages/ntrust/src/github.ts:65-104 | A match is found iff some regular `.yml` file of the listing has that job, with that numbered step running that command as a direct publish call. Nothing else is scanned and nothing is missed. |
| GitHub.StepMatchesInStepOrder | packages/ntrust/src/github.ts:86-101 | Within a job, the matches come in non-decreasing step order. |
| GitHub.JobMatchesAppend | packages/ntrust/src/github.ts:81-103 | Jobs are scanned in entry order: the matches of a run of job entries are those of its first part followed by those of the rest. |
| GitHub.FileMatchesAppend | packages/ntrust/src/github.ts:72-104 | Files are scanned in listing order: the matches of a listing are those of its first part followed by those of the rest. |
| GitHub.PublishMatchesAppend | packages/ntrust/src/github.ts:65-104 | The matches of a whole listing come in listing order: those of its first part, then those of the rest. |
| GitHub.InferGithubWorkflowFile | packages/ntrust/src/github.ts:109-124 | A missing directory is an error. No match gives no file. Exactly one match gives that match's file. More than one match gives the "Found multiple publish workflow commands" header, followed by the candidate list. |
| GitHubScenarios.OnlyPublishingFileIsChosen | packages/ntrust/src/github.ts:109-124 | When only one of two one-step workflow files publishes, that file is chosen. |
| GitHubScenarios.TwoPublishingFilesAreRejected | packages/ntrust/src/github.ts:112-117 | When two files publish, the error lists both, in listing order. |
| GitHubScenarios.TwoCallsInOneStepAreRejected | packages/ntrust/src/github.ts:92-117 | Two publish calls in one step are ambiguous too, even though they name the same file. |
| GitHubScenarios.OtherEntriesAreIgnored | packages/ntrust/src/github.ts:65-66 | A file not ending in `.yml`, or a directory, is not scanned. |
| GitHubScenarios.SingleReleaseWorkflowIsChosen | packages/ntrust/test/provider.test.ts:42-80 | With `ci.yml` running `pnpm test:ci` and `release.yml` running `pnpm -r publish --provenance --no-git-checks`, the inferred file is `release.yml`. |
| GitHubScenarios.NoReleaseWorkflowGivesNone | packages/ntrust/test/provider.test.ts:108-131 | With only `ci.yml`, no workflow is inferred. |
| GitHubScenarios.TwoReleaseWorkflowsAreRejected | packages/ntrust/test/provider.test.ts:133-162 | `release-a.yml` (`npm publish`) and `release-b.yml` (`pnpm -r publish`) give the multiple-workflows error with both candidates. |
| GitHubScenarios.TwoReleaseWorkflowsMessage | packages/ntrust/test/provider.test.ts:157-161 | That error, written out, is the header line, then `- release-a.yml (job=release, step=1): npm publish`, then `- release-b.yml (job=release, step=1): pnpm -r publish`. |
| GitHubScenarios.CandidateLineForStepOne | packages/ntrust/src/github.ts:51 | A candidate line reads `- <file> (job=<job>, step=1): <command>`. |
| Git.StripLeadingSlashes | packages/ntrust/src/git.ts:17 | The result is a suffix of the input. Every removed character is `/`. The result does not start with `/`. |
| Git.StripGitSuffix | packages/ntrust/src/git.ts:18 | A trailing `.git` is removed, and only that. Any other text is unchanged. |
| Git.NormalizeRepoPath | packages/ntrust/src/git.ts:15-20 | The normalized path has no white space at either end. |
| Git.NormalizeCleanPath | packages/ntrust/src/git.ts:15-20 | A clean path is left as it is. A clean path is non-empty, on one line, trimmed, and has no leading `/` and no `.git` ending. |
| Git.NormalizeCleanPathWithSuffix | packages/ntrust/src/git.ts:15-20 | A clean path followed by `.git` loses exactly the `.git`. |
| Git.NormalizeIsNotIdempotent | packages/ntrust/src/git.ts:18 | `path.git.git` normalizes to `path.git`. Normalizing once more gives `path`. |
| Git.LazyPath | packages/ntrust/src/git.ts:22-31 | The capture of `(.+?)(?:\.git)?$` exists iff the rest is non-empty and has no line terminator. Its capture is the shortest that the optional `.git` and the end can follow. No shorter prefix is such a capture. |
| Git.ScpRestOfParts | packages/ntrust/src/git.ts:23 | In `user@host:rest`, where the user has no `@` and the host has no `:`, the SCP head leaves `rest`. |
| Git.ScpRestParts | packages/ntrust/src/git.ts:23 | Conversely, a remote that the SCP head accepts splits into such a user and host. |
| Git.UrlRestOfParts | packages/ntrust/src/git.ts:28 | In `scheme://host/rest`, where the scheme is ASCII letters and the host has no `/`, the URL head leaves `rest`. |
| Git.UrlRestParts | packages/ntrust/src/git.ts:28 | Conversely, a remote that the URL head accepts splits into such a scheme and host. |
| Git.CleanPathIsCaptured | packages/ntrust/src/git.ts:22-31 | A clean path is captured whole. |
| Git.SuffixIsLeftOut | packages/ntrust/src/git.ts:22-31 | A clean path followed by `.git` is captured without the `.git`. |
| Git.UpperSuffixIsLeftOut | packages/ntrust/src/git.ts:28 | With the `i` flag, an upper-case `.GIT` is left out of the capture as well. |
| Git.ParseRepoFromRemote | packages/ntrust/src/git.ts:22-34 | It fails, with "Unable to parse repository from git remote: <remote>", iff neither form matches. An SCP-like match wins over a URL match. The capture is normalized. |
| Git.ScpRemoteRoundTrip | packages/ntrust/src/git.ts:22-26 | Both `user@host:path.git` and `user@host:path` give back `path`. |
| Git.NoAtNoScp | packages/ntrust/src/git.ts:23 | A remote without `@` is not SCP-like. |
| Git.UrlRemoteRoundTrip | packages/ntrust/src/git.ts:22-31 | Both `scheme://host/path.git` and `scheme://host/path` give back `path`, when there is no `@`. |
| Git.UpperCaseSuffixIsDropped | packages/ntrust/src/git.ts:28-30 | `scheme://host/path.GIT` gives `path`: the case-insensitive URL pattern leaves the suffix out. |
| Git.SshUrlWithPortKeepsPort | packages/ntrust/src/git.ts:23-25 | `ssh://user@host:port/path.git` is caught by the SCP-like form, which gives `port/path`. |
| Git.InferProviderFromRemote | packages/ntrust/src/git.ts:50-58 | GitHub iff the remote contains `github.com`. GitLab iff it does not, but contains `gitlab`. Otherwise the error "Unable to infer provider from remote URL: <remote>". |
| Git.GitHubHostIsGitHub | packages/ntrust/src/git.ts:51-53 | Any remote that contains `github.com` is a GitHub remote. |
| Git.GetRepoRoot | packages/ntrust/src/git.ts:36-43 | The trimmed output of `git rev-parse --show-toplevel`, or `cwd` when that command fails. |
| Git.FileOf | packages/ntrust/src/git.ts:83-87 | A given file is taken as it is, and an empty one is "Unable to find any workflow". Every chosen file is non-empty. |
| Git.InferRepoInfo | packages/ntrust/src/git.ts:66-94 | Success means all of these: the provider is GitHub; the repository is `owner/name`; the file is non-empty; a given repository or file is the one returned. An absent repository is the one parsed from the needed, trimmed origin remote. An absent file is the one `inferGithubWorkflowFile` chose in the repository root. |
| Git.GitLabIsRejected | packages/ntrust/src/git.ts:72-75 | A GitLab provider is "GitLab provider is not implemented yet.". |
| Git.GivenTargetIgnoresRemote | packages/ntrust/src/git.ts:70 | With the provider and a non-empty repository given, the origin remote does not affect the result. |
| Git.RemoteFailurePropagates | packages/ntrust/src/git.ts:45-70 | When the remote is needed, a failing `git remote get-url origin` is the result. |
| Git.ExplicitFileIgnoresListing | packages/ntrust/src/git.ts:83-84 | A given file makes the workflow directory irrelevant. |
| Git.GivenTargetIsTaken | packages/ntrust/src/git.ts:66-94 | A given GitHub provider, a well-formed repository and a non-empty file are returned unchanged. |
| Git.RepoShapeIsChecked | packages/ntrust/src/git.ts:77-81 | With everything else given, a given repository succeeds iff it is `owner/name`. Otherwise the result is the "Expected GitHub repository" error. |
| Git.EmptyRepoIsRejected | packages/ntrust/src/git.ts:70-81 | An empty repository option still makes the remote be read, but `??` keeps the empty string, which is then rejected. |
| Git.ProviderErrorPropagates | packages/ntrust/src/git.ts:72 | When the provider must be inferred and the remote contains neither `github.com` nor `gitlab`, the result is the provider error for that remote, whatever the repository option and the workflow directory. |
| Git.ParseErrorPropagates | packages/ntrust/src/git.ts:72-77 | With GitHub as the provider, given or inferred, and no repository given, a remote that neither pattern matches gives the parse error, whatever the workflow directory. |
| Git.ShapeErrorWins | packages/ntrust/src/git.ts:77-84 | A repository that is not `owner/name`, given or parsed, gives the shape error before any workflow file is looked for, whether or not a file is given. |
| Git.InferredWorkflowIsChosen | packages/ntrust/src/git.ts:66-94 | When nothing is given and the remote decides, the repository comes from the remote and the file from the one publishing workflow. |
| Git.NoWorkflowIsAnError | packages/ntrust/src/git.ts:83-87 | When no workflow publishes, the result is "Unable to find any workflow. Please specify --file manually.". |
| Git.WorkflowErrorPropagates | packages/ntrust/src/git.ts:83-84 | An error from the workflow inference is the result. |
| GitScenarios.ScpAcmeRemote | packages/ntrust/test/provider.test.ts:67-68 | `git@github.com:acme/ntrust.git` is a GitHub remote for `acme/ntrust`. |
| GitScenarios.HttpsAcmeRemote | packages/ntrust/test/provider.test.ts:122-123 | `https://github.com/acme/ntrust.git` is a GitHub remote for `acme/ntrust`. |
| GitScenarios.AutoDetectsTheReleaseWorkflow | packages/ntrust/test/provider.test.ts:42-80 | Only `dir` is given, with the SCP remote and the two workflows. The result is the GitHub provider, `acme/ntrust` and `release.yml`. |
| GitScenarios.PrefersTheGivenFile | packages/ntrust/test/provider.test.ts:82-106 | With everything given, the result is `acme/ntrust` and `manual.yml`, whatever the remote and the listing. |
| GitScenarios.NoPublishCommandIsAnError | packages/ntrust/test/provider.test.ts:108-131 | With the HTTPS remote and only `ci.yml`, the result is the "Unable to find any workflow" error. |
| GitScenarios.MultiplePublishCommandsAreAnError | packages/ntrust/test/provider.test.ts:133-162 | With the HTTPS remote and both release workflows, the result is the multiple-workflows error listing both. |
| GitScenarios.MultiplePublishCommandsMessage | packages/ntrust/test/provider.test.ts:157-161 | The same error as the snapshot text: the header line, followed by one candidate line per release workflow. |
| Npm.GetNpmCommand | packages/ntrust/src/npm.ts:19-22 | The arguments come last, right after `npm`. Through mise, the command starts with `mise exec npm@^11.10.0 -- npm`, and otherwise with `npm`. |
| Npm.MiseWrapsPlainCommand | packages/ntrust/src/npm.ts:20 | The mise command is `mise exec npm@^11.10.0 --` followed by the plain command. |
| Npm.InvocationOf | packages/ntrust/src/npm.ts:25-32 | Together, the file and the arguments are the command plus `--loglevel=error`. The working directory is passed on. The output is piped unless the caller asks for something else. |
| Npm.FirstNonBlank | packages/ntrust/src/npm.ts:48 | `a \|\| b \|\| c \|\| fallback`: the first candidate that is present and non-empty, or the fallback when none is. |
| Npm.RunNpm | packages/ntrust/src/npm.ts:24-54 | A completed run reports the command without the log-level flag, with absent fields defaulted. A failed run is `Failed to run command "<command>" (exit=<code or unknown>)` followed by the chosen message. |
| Npm.ReportedCommandIsInvoked | packages/ntrust/src/npm.ts:26-35 | The reported command is what was run, minus the trailing `--loglevel=error`. |
| Npm.FailureMessageOrder | packages/ntrust/src/npm.ts:48-52 | The message prefers stderr, then the runner's short message, then stdout, then "Unknown npm error". |
| Npm.FailureTextShape | packages/ntrust/src/npm.ts:50-52 | A failure message starts with the quoted command and ends with a newline followed by the message. |
| Npm.PipeIsTheDefault | packages/ntrust/test/npm.test.ts:25-51 | `npm trust list pkg-a` runs as `npm` with `trust list pkg-a --loglevel=error` and piped output. |
| Npm.InheritIsPassedOn | packages/ntrust/test/npm.test.ts:53-78 | `npm publish` with inherited stdio runs as `npm` with `publish --loglevel=error` and inherited output. |
| Npm.ParseVersion | packages/ntrust/src/npm.ts:56-62 | A parsed version has three numbers. |
| Npm.ParsedVersionMatches | packages/ntrust/src/npm.ts:56-62 | A parsed version comes from a match of `^(\d+)\.(\d+)\.(\d+)` on the trimmed text, and its numbers are the groups' values. |
| Npm.MatchedVersionParses | packages/ntrust/src/npm.ts:56-62 | Every match of the pattern parses. The first two numbers are those groups. When no digit follows the third group, all three are those groups. |
| Npm.UnmatchedVersionFails | packages/ntrust/src/npm.ts:57-60 | Text without three leading dot-separated numbers does not parse. |
| Npm.ParseVersionRoundTrip | packages/ntrust/src/npm.ts:56-62 | Rendering three numbers and adding any suffix that does not start with a digit parses back to those numbers. A pre-release tag such as `-beta.1` is one such suffix. |
| Npm.CompareTriples | packages/ntrust/src/npm.ts:71-80 | The comparison is always -1, 0 or 1. |
| Npm.CompareTriplesMeaning | packages/ntrust/src/npm.ts:71-80 | The result is -1 iff the first triple is lexicographically smaller, 1 iff it is larger, and 0 iff the triples are equal. |
| Npm.CompareTriplesAntisymmetric | packages/ntrust/src/npm.ts:71-80 | Swapping the two sides negates the result. |
| Npm.CompareTriplesTransitive | packages/ntrust/src/npm.ts:71-80 | The order is transitive, both non-strictly and strictly. |
| Npm.CompareVersion | packages/ntrust/src/npm.ts:64-81 | If either side does not parse, the result is `Invalid semantic version comparison: "<a>" vs "<b>"`. Otherwise the loop returns the comparison of the two triples. |
| Npm.MinNpmVersionParses | packages/ntrust/src/npm.ts:3 | `11.10.0` parses to the triple 11, 10, 0. |
| Npm.CheckNpmVersion | packages/ntrust/src/npm.ts:83-100 | A failing `npm --version` is the result. Otherwise, for the trimmed output, it returns that version iff it parses and is not lexicographically below 11.10.0. Below that is "npm version 11.10.0 or newer is required, but got <v>. Please upgrade npm first.". A version that does not parse is the comparison error. |
| Tui.PromptText | packages/ntrust/src/tui.ts:20 | The prompt starts with the given text and ends with ` [Y/n]: `, and it is exactly as long as the two together, so nothing comes between them. |
| Tui.AcceptanceIsListed | packages/ntrust/src/tui.ts:21 | `/^$\|^y(es)?$/i` accepts exactly these: the empty answer, and `y` and `yes` in every mix of upper and lower case. |
| Tui.Confirm | packages/ntrust/src/tui.ts:4-27 | `yes` or `dryRun` means success without a prompt. Otherwise a non-terminal stdin is the "requires confirmation" error. Otherwise the prompt is shown, and the command goes on iff the trimmed answer is an accepted one; any other answer is "Operation cancelled by user.". |
| Tui.PaddedAnswer | packages/ntrust/src/tui.ts:21 | Any white space before and after the answer leaves the decision and the prompt unchanged. |

## Left out

- Process execution, file-system access, YAML parsing and terminal I/O are not modelled (`execa`, `readdir`, `readFile`, `js-yaml`, `readline`). Their results are inputs: a `GitOutcome` or `ExecOutcome`, the listing as `Option<seq<DirEntry>>` with each file already parsed, `isTTY`, and the answer.
- The directory listing is taken as already in the order that `localeCompare` sorts it into. Locale-aware collation is not modelled.
- `path.join` is modelled as joining with `/`. Its normalisation of `..`, `.` and repeated slashes is not modelled.
- A `readFile` or YAML failure on one workflow file rejects the whole inference in the source. The model has no such error: each file in the listing is already parsed.
- A YAML document is reduced to what the scan reads: whether `jobs` is a record (with its entries in order), whether `steps` is an array, and whether `run` is a string. A repeated key, an anchor and any other YAML feature arrive already resolved.
- `Number()` is modelled as exact conversion to a natural number. Float rounding of very long digit runs is not modelled.
- The exit code is printed as an integer. Non-integer numbers are not modelled.
- The `cwd` and `stdio` of an invocation are carried along as data. Their effect on the child process is not modelled.
- `ExecOutcome`: the source's `stdout ?? ''` on a completed run is modelled with `Option` fields, although the runner normally fills them.
- `Git.TrustOptions` has a `dir` field. `git.ts` reads `options.dir`, but `types.ts` is not part of this model, so the field is taken as an optional string.
- `Tui.ConfirmOptions`: an absent `dryRun` or `yes` is taken as `false`, as JavaScript's `||` treats `undefined`.
- `Tui.Confirm`: closing the readline interface is left out, as it has no effect on the outcome.
- `Git.NormalizeRepoPath`: its own contract states only trimming. What it does to whole remotes is stated by NormalizeCleanPath, NormalizeCleanPathWithSuffix and NormalizeIsNotIdempotent, which cover clean paths.
- `GitHub.CollectPublishCommandMatches` and the methods under it split the source's four nested `for` loops into one method per level, each proved against its specification function.
- `Npm.CompareVersion`: the source returns a plain number or throws. The model wraps this in a `Result`.
- The CLI, the monorepo package discovery and the trust-operation drivers that call these functions are not part of this model.
