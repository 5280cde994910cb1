/** Repository-target inference: which provider, which `owner/name` repository and which
    workflow file a trust operation is about, from the options, the git remote and the
    workflow directory. The outputs of `git rev-parse --show-toplevel` and of
    `git remote get-url origin` are inputs. */
module Git {
  import opened Wrappers
  import opened Strings
  import GitHub

  datatype Provider = GitHub | GitLab

  datatype RepoInfo = RepoInfo(provider: Provider, repo: string, file: string)

  /** The options `inferRepoInfo` reads; `dir` is the working directory to start from. */
  datatype TrustOptions = TrustOptions(
    dir: Option<string>,
    provider: Option<Provider>,
    repo: Option<string>,
    file: Option<string>)

  /** The outcome of running a git command: its standard output, or the message of the
      error it failed with. */
  datatype GitOutcome = Ran(stdout: string) | Failed(message: string)

  // ---------------------------------------------------------------------------
  // normalizeRepoPath

  /** `replace(/^\/+/, '')`: drops every leading slash. */
  function StripLeadingSlashes(s: string): (r: string)
    ensures |r| <= |s| && r == s[|s| - |r|..]
    ensures forall i :: 0 <= i < |s| - |r| ==> s[i] == '/'
    ensures r == [] || r[0] != '/'
  {
    if s != [] && s[0] == '/' then StripLeadingSlashes(s[1..]) else s
  }

  /** `replace(/\.git$/, '')`: drops one `.git` at the very end. */
  function StripGitSuffix(s: string): (r: string)
    ensures EndsWith(s, ".git") ==> r + ".git" == s
    ensures !EndsWith(s, ".git") ==> r == s
  {
    if EndsWith(s, ".git") then s[..|s| - 4] else s
  }

  /** Leading slashes, then one trailing `.git`, then surrounding white space are removed. */
  function NormalizeRepoPath(value: string): (r: string)
    ensures IsTrimmed(r)
  {
    Trim(StripGitSuffix(StripLeadingSlashes(value)))
  }

  /** The case-insensitive comparison of the `i` flag. */
  predicate SameIgnoringCase(a: string, b: string) {
    |a| == |b| && forall i :: 0 <= i < |a| ==> AsciiLower(a[i]) == AsciiLower(b[i])
  }

  /** `s` ends in `.git`, in any case. */
  predicate HasGitSuffix(s: string) {
    |s| >= 4 && SameIgnoringCase(s[|s| - 4..], ".git")
  }

  /** A path as it is written in a remote: not empty, on one line, no leading slash, no
      surrounding white space and no `.git` of its own, in any case. */
  predicate IsCleanPath(path: string) {
    && path != []
    && NoLineTerminator(path)
    && path[0] != '/'
    && IsTrimmed(path)
    && !HasGitSuffix(path)
  }

  lemma CleanPathHasNoSuffix(path: string)
    requires IsCleanPath(path)
    ensures !EndsWith(path, ".git")
  {
    if |path| >= 4 {
      var t := path[|path| - 4..];
      assert SameIgnoringCase(t, t);
    }
  }

  /** A clean path is left as it is. */
  lemma NormalizeCleanPath(path: string)
    requires IsCleanPath(path)
    ensures NormalizeRepoPath(path) == path
  {
    CleanPathHasNoSuffix(path);
    TrimOfTrimmed(path);
  }

  /** A clean path followed by `.git` loses exactly the `.git`. */
  lemma NormalizeCleanPathWithSuffix(path: string)
    requires IsCleanPath(path)
    ensures NormalizeRepoPath(path + ".git") == path
  {
    var s := path + ".git";
    assert StripLeadingSlashes(s) == s;
    assert s[..|s| - 4] == path;
    NormalizeCleanPath(path);
  }

  /** Normalising twice is not the same as normalising once: a doubled `.git` loses one
      `.git` per pass. */
  lemma NormalizeIsNotIdempotent(path: string)
    requires IsCleanPath(path)
    ensures NormalizeRepoPath(path + ".git.git") == path + ".git"
    ensures NormalizeRepoPath(NormalizeRepoPath(path + ".git.git")) == path
  {
    var once := path + ".git";
    var s := path + ".git.git";
    assert s == once + ".git";
    assert s[0] == path[0];
    assert StripLeadingSlashes(s) == s;
    assert s[|s| - 4..] == ".git" && s[..|s| - 4] == once;
    assert IsTrimmed(once) by {
      assert once[0] == path[0] && once[|once| - 1] == 't';
    }
    TrimOfTrimmed(once);
    NormalizeCleanPathWithSuffix(path);
  }

  // ---------------------------------------------------------------------------
  // The two remote patterns

  /** What the optional group `(?:\.git)?` followed by `$` accepts after the capture. */
  predicate IsPathEnd(t: string, ignoreCase: bool) {
    t == [] || t == ".git" || (ignoreCase && SameIgnoringCase(t, ".git"))
  }

  /** `(.+?)(?:\.git)?$` accepts `rest` with capture `cap`: `cap` is a non-empty prefix on
      one line, and what follows it is nothing or the suffix. */
  predicate IsCapture(rest: string, cap: string, ignoreCase: bool) {
    && cap != []
    && NoLineTerminator(cap)
    && StartsWith(rest, cap)
    && IsPathEnd(rest[|cap|..], ignoreCase)
  }

  /** The capture of `(.+?)(?:\.git)?$` on `rest`: the lazy quantifier takes the shortest
      prefix that lets the rest of the pattern match, so a trailing `.git` is left out
      whenever something is in front of it. */
  function LazyPath(rest: string, ignoreCase: bool): (r: Option<string>)
    ensures r.Some? <==> rest != [] && NoLineTerminator(rest)
    ensures r.Some? ==> IsCapture(rest, r.value, ignoreCase)
    ensures r.Some? ==> forall k :: 0 < k < |r.value| ==> !IsCapture(rest, rest[..k], ignoreCase)
    ensures r.None? ==> forall k :: 0 < k <= |rest| ==> !IsCapture(rest, rest[..k], ignoreCase)
  {
    if rest == [] || !NoLineTerminator(rest) then
      NoCaptureOnBadLine(rest, ignoreCase);
      None
    else if |rest| > 4 && IsPathEnd(rest[|rest| - 4..], ignoreCase) then
      var cap := rest[..|rest| - 4];
      ShorterPrefixesFail(rest, |rest| - 4, ignoreCase);
      Some(cap)
    else
      ShorterPrefixesFail(rest, |rest|, ignoreCase);
      Some(rest)
  }

  /** A capture that leaves more than four characters, or between one and three, is not
      followed by something `(?:\.git)?$` accepts. */
  lemma ShorterPrefixesFail(rest: string, n: nat, ignoreCase: bool)
    requires n <= |rest|
    requires n == |rest| || n == |rest| - 4
    requires n == |rest| ==> !(|rest| > 4 && IsPathEnd(rest[|rest| - 4..], ignoreCase))
    ensures forall k :: 0 < k < n ==> !IsCapture(rest, rest[..k], ignoreCase)
  {
    forall k | 0 < k < n
      ensures !IsCapture(rest, rest[..k], ignoreCase)
    {
      var t := rest[k..];
      assert rest[..k][..] == rest[..k];
      if |t| == 4 {
        assert t == rest[|rest| - 4..];
      } else {
        assert t != [] && |t| != 4;
      }
    }
  }

  /** A remainder that is empty or spans lines has no capture. */
  lemma NoCaptureOnBadLine(rest: string, ignoreCase: bool)
    requires rest == [] || !NoLineTerminator(rest)
    ensures forall k :: 0 < k <= |rest| ==> !IsCapture(rest, rest[..k], ignoreCase)
  {
    forall k | 0 < k <= |rest|
      ensures !IsCapture(rest, rest[..k], ignoreCase)
    {
      var j :| 0 <= j < |rest| && IsLineTerminator(rest[j]);
      if j < k {
        assert rest[..k][j] == rest[j];
      } else {
        var t := rest[k..];
        assert t[j - k] == rest[j];
        assert t != [] && t != ".git";
        assert !IsLineTerminator('.') && !IsLineTerminator('g') && !IsLineTerminator('i') && !IsLineTerminator('t');
      }
    }
  }

  /** `[^c]+c`: a non-empty run of characters other than `c`, then `c`. The run cannot
      stop before the first `c` nor go past it, so the split is unique. The result is
      what follows. */
  function AfterRunTo(s: string, c: char): Option<string> {
    var j := FirstIndexOf(s, c);
    if j == 0 || j == |s| then None else Some(s[j + 1..])
  }

  lemma AfterRunToOfParts(x: string, c: char, rest: string)
    requires x != [] && c !in x
    ensures AfterRunTo(x + [c] + rest, c) == Some(rest)
  {
    FirstIndexOfAfter(x, c, rest);
    assert (x + [c] + rest)[|x| + 1..] == rest;
  }

  lemma AfterRunToParts(s: string, c: char) returns (x: string)
    requires AfterRunTo(s, c).Some?
    ensures x != [] && c !in x && s == x + [c] + AfterRunTo(s, c).value
  {
    var j := FirstIndexOf(s, c);
    x := s[..j];
    assert s == x + [s[j]] + s[j + 1..];
  }

  /** `^[^@]+@[^:]+:`, the head of the SCP-like form `user@host:path`: the user runs up to
      the first `@`, the host up to the first `:` after it. The result is what follows. */
  function ScpRest(remote: string): Option<string> {
    match AfterRunTo(remote, '@')
    case None => None
    case Some(hostAndPath) => AfterRunTo(hostAndPath, ':')
  }

  /** `^[^@]+@[^:]+:(.+?)(?:\.git)?$`: the capture of the SCP-like form. */
  function ScpPath(remote: string): Option<string> {
    match ScpRest(remote)
    case None => None
    case Some(rest) => LazyPath(rest, false)
  }

  /** An SCP-like remote built from its parts has the path part as its rest. */
  lemma ScpRestOfParts(user: string, host: string, rest: string)
    requires user != [] && '@' !in user
    requires host != [] && ':' !in host
    ensures ScpRest(user + "@" + host + ":" + rest) == Some(rest)
  {
    assert user + "@" + host + ":" + rest == user + ['@'] + (host + [':'] + rest);
    AfterRunToOfParts(user, '@', host + [':'] + rest);
    AfterRunToOfParts(host, ':', rest);
  }

  /** Conversely, a remote the head of the SCP-like pattern accepts consists of such parts. */
  lemma ScpRestParts(remote: string) returns (user: string, host: string)
    requires ScpRest(remote).Some?
    ensures user != [] && '@' !in user && host != [] && ':' !in host
    ensures remote == user + "@" + host + ":" + ScpRest(remote).value
  {
    var hostAndPath := AfterRunTo(remote, '@').value;
    user := AfterRunToParts(remote, '@');
    host := AfterRunToParts(hostAndPath, ':');
    assert remote == user + ['@'] + (host + [':'] + ScpRest(remote).value);
  }

  /** The number of ASCII letters at the start of `s`: what `[a-z]+` with the `i` flag
      consumes. */
  function LetterRun(s: string): (n: nat)
    ensures n <= |s|
    ensures forall i :: 0 <= i < n ==> IsAsciiLetter(s[i])
    ensures n < |s| ==> !IsAsciiLetter(s[n])
  {
    if s != [] && IsAsciiLetter(s[0]) then LetterRun(s[1..]) + 1 else 0
  }

  lemma {:induction false} LetterRunOfConcat(letters: string, t: string)
    requires forall i :: 0 <= i < |letters| ==> IsAsciiLetter(letters[i])
    requires t == [] || !IsAsciiLetter(t[0])
    ensures LetterRun(letters + t) == |letters|
  {
    if letters != [] {
      assert (letters + t)[1..] == letters[1..] + t;
      LetterRunOfConcat(letters[1..], t);
    }
  }

  /** `^[a-z]+:\/\/` with the `i` flag: the scheme is the run of letters in front of
      `://`. The result is what follows. */
  function SchemeRest(remote: string): Option<string> {
    var p := LetterRun(remote);
    if p == 0 || !StartsWith(remote[p..], "://") then None else Some(remote[p + 3..])
  }

  /** `^[a-z]+:\/\/[^/]+\/`, the head of the form `scheme://host/path`: the host runs up
      to the next `/`. The result is what follows. */
  function UrlRest(remote: string): Option<string> {
    match SchemeRest(remote)
    case None => None
    case Some(hostAndPath) => AfterRunTo(hostAndPath, '/')
  }

  /** `^[a-z]+:\/\/[^/]+\/(.+?)(?:\.git)?$` with the `i` flag: the capture of the URL
      form, where the `.git` suffix is recognised in any case. */
  function UrlPath(remote: string): Option<string> {
    match UrlRest(remote)
    case None => None
    case Some(rest) => LazyPath(rest, true)
  }

  lemma SchemeRestOfParts(scheme: string, tail: string)
    requires scheme != [] && forall i :: 0 <= i < |scheme| ==> IsAsciiLetter(scheme[i])
    ensures SchemeRest(scheme + "://" + tail) == Some(tail)
  {
    var sep := "://" + tail;
    assert scheme + "://" + tail == scheme + sep;
    assert sep[0] == ':';
    LetterRunOfConcat(scheme, sep);
    assert (scheme + sep)[|scheme|..] == sep;
    assert sep[..3] == "://";
    assert sep[3..] == tail;
  }

  lemma SchemeRestParts(remote: string) returns (scheme: string)
    requires SchemeRest(remote).Some?
    ensures scheme != [] && forall i :: 0 <= i < |scheme| ==> IsAsciiLetter(scheme[i])
    ensures remote == scheme + "://" + SchemeRest(remote).value
  {
    var p := LetterRun(remote);
    scheme := remote[..p];
    assert remote[p..p + 3] == remote[p..][..3] == "://";
    assert remote == scheme + remote[p..p + 3] + remote[p + 3..];
  }

  lemma UrlRestOfParts(scheme: string, host: string, rest: string)
    requires scheme != [] && forall i :: 0 <= i < |scheme| ==> IsAsciiLetter(scheme[i])
    requires host != [] && '/' !in host
    ensures UrlRest(scheme + "://" + host + "/" + rest) == Some(rest)
  {
    assert scheme + "://" + host + "/" + rest == scheme + "://" + (host + ['/'] + rest);
    SchemeRestOfParts(scheme, host + ['/'] + rest);
    AfterRunToOfParts(host, '/', rest);
  }

  lemma UrlRestParts(remote: string) returns (scheme: string, host: string)
    requires UrlRest(remote).Some?
    ensures scheme != [] && (forall i :: 0 <= i < |scheme| ==> IsAsciiLetter(scheme[i]))
    ensures host != [] && '/' !in host
    ensures remote == scheme + "://" + host + "/" + UrlRest(remote).value
  {
    var hostAndPath := SchemeRest(remote).value;
    scheme := SchemeRestParts(remote);
    host := AfterRunToParts(hostAndPath, '/');
    assert remote == scheme + "://" + (host + ['/'] + UrlRest(remote).value);
  }

  /** A clean path is captured whole. */
  lemma CleanPathIsCaptured(path: string, ignoreCase: bool)
    requires IsCleanPath(path)
    ensures LazyPath(path, ignoreCase) == Some(path)
  {
    if |path| > 4 {
      var t := path[|path| - 4..];
      assert t == ".git" ==> SameIgnoringCase(t, ".git");
    }
  }

  /** A clean path followed by `.git` is captured without it. */
  lemma SuffixIsLeftOut(path: string, ignoreCase: bool)
    requires IsCleanPath(path)
    ensures LazyPath(path + ".git", ignoreCase) == Some(path)
  {
    var w := path + ".git";
    assert w[|w| - 4..] == ".git" && w[..|w| - 4] == path;
    assert NoLineTerminator(w) by {
      forall i | 0 <= i < |w| ensures !IsLineTerminator(w[i]) {
        if i >= |path| { assert w[i] == ".git"[i - |path|]; }
      }
    }
  }

  /** With the `i` flag an upper-case `.GIT` is left out too. */
  lemma UpperSuffixIsLeftOut(path: string)
    requires IsCleanPath(path)
    ensures LazyPath(path + ".GIT", true) == Some(path)
  {
    var w := path + ".GIT";
    assert w[|w| - 4..] == ".GIT" && w[..|w| - 4] == path;
    assert SameIgnoringCase(".GIT", ".git");
    assert NoLineTerminator(w) by {
      forall i | 0 <= i < |w| ensures !IsLineTerminator(w[i]) {
        if i >= |path| { assert w[i] == ".GIT"[i - |path|]; }
      }
    }
  }

  function ParseError(remote: string): string {
    "Unable to parse repository from git remote: " + remote
  }

  /** The SCP-like form is tried first, then the URL form; the capture is normalised. */
  function ParseRepoFromRemote(remote: string): (r: Result<string, string>)
    ensures r.Err? <==> ScpPath(remote).None? && UrlPath(remote).None?
    ensures r.Err? ==> r.error == ParseError(remote)
    ensures ScpPath(remote).Some? ==> r == Ok(NormalizeRepoPath(ScpPath(remote).value))
    ensures ScpPath(remote).None? && UrlPath(remote).Some? ==> r == Ok(NormalizeRepoPath(UrlPath(remote).value))
  {
    match ScpPath(remote)
    case Some(path) => Ok(NormalizeRepoPath(path))
    case None =>
      match UrlPath(remote)
      case Some(path) => Ok(NormalizeRepoPath(path))
      case None => Err(ParseError(remote))
  }

  /** `user@host:path.git` and `user@host:path` both give back the path. */
  lemma ScpRemoteRoundTrip(user: string, host: string, path: string)
    requires user != [] && '@' !in user && host != [] && ':' !in host
    requires IsCleanPath(path)
    ensures ParseRepoFromRemote(user + "@" + host + ":" + path + ".git") == Ok(path)
    ensures ParseRepoFromRemote(user + "@" + host + ":" + path) == Ok(path)
  {
    var w := path + ".git";
    assert user + "@" + host + ":" + path + ".git" == user + "@" + host + ":" + w;
    ScpRestOfParts(user, host, w);
    SuffixIsLeftOut(path, false);
    ScpRestOfParts(user, host, path);
    CleanPathIsCaptured(path, false);
    NormalizeCleanPath(path);
  }

  /** A remote without `@` is not SCP-like. */
  lemma NoAtNoScp(remote: string)
    requires '@' !in remote
    ensures ScpPath(remote).None?
  {
  }

  lemma UrlHasNoAt(scheme: string, host: string, rest: string)
    requires forall i :: 0 <= i < |scheme| ==> IsAsciiLetter(scheme[i])
    requires '@' !in host && '@' !in rest
    ensures '@' !in scheme + "://" + host + "/" + rest
  {
    assert '@' !in scheme;
  }

  /** `scheme://host/path.git` and `scheme://host/path` give back the path, provided no `@`
      makes the SCP-like form apply first. */
  lemma UrlRemoteRoundTrip(scheme: string, host: string, path: string)
    requires scheme != [] && forall i :: 0 <= i < |scheme| ==> IsAsciiLetter(scheme[i])
    requires host != [] && '/' !in host && '@' !in host && '@' !in path
    requires IsCleanPath(path)
    ensures ParseRepoFromRemote(scheme + "://" + host + "/" + path + ".git") == Ok(path)
    ensures ParseRepoFromRemote(scheme + "://" + host + "/" + path) == Ok(path)
  {
    var w := path + ".git";
    assert scheme + "://" + host + "/" + path + ".git" == scheme + "://" + host + "/" + w;
    assert '@' !in w;
    UrlHasNoAt(scheme, host, w);
    UrlHasNoAt(scheme, host, path);
    NoAtNoScp(scheme + "://" + host + "/" + w);
    NoAtNoScp(scheme + "://" + host + "/" + path);
    UrlRestOfParts(scheme, host, w);
    SuffixIsLeftOut(path, true);
    UrlRestOfParts(scheme, host, path);
    CleanPathIsCaptured(path, true);
    NormalizeCleanPath(path);
  }

  /** The URL form's `.git` is matched in any case but normalisation only removes a
      lower-case one, so an upper-case suffix is dropped by the pattern alone. */
  lemma UpperCaseSuffixIsDropped(scheme: string, host: string, path: string)
    requires scheme != [] && forall i :: 0 <= i < |scheme| ==> IsAsciiLetter(scheme[i])
    requires host != [] && '/' !in host && '@' !in host && '@' !in path
    requires IsCleanPath(path)
    ensures ParseRepoFromRemote(scheme + "://" + host + "/" + path + ".GIT") == Ok(path)
  {
    var w := path + ".GIT";
    assert scheme + "://" + host + "/" + path + ".GIT" == scheme + "://" + host + "/" + w;
    assert '@' !in w;
    UrlHasNoAt(scheme, host, w);
    NoAtNoScp(scheme + "://" + host + "/" + w);
    UrlRestOfParts(scheme, host, w);
    UpperSuffixIsLeftOut(path);
    NormalizeCleanPath(path);
  }

  /** `ssh://user@host:port/path` is caught by the SCP-like form, which reads `host` as
      the host and `port/path` as the path, so the port stays in front of the path. */
  lemma SshUrlWithPortKeepsPort(user: string, host: string, port: string, path: string)
    requires user != [] && '@' !in user && host != [] && ':' !in host
    requires port != [] && AllDigits(port)
    requires IsCleanPath(path)
    ensures ParseRepoFromRemote("ssh://" + user + "@" + host + ":" + port + "/" + path + ".git")
         == Ok(port + "/" + path)
  {
    var p := port + "/" + path;
    var u := "ssh://" + user;
    assert "ssh://" + user + "@" + host + ":" + port + "/" + path + ".git" == u + "@" + host + ":" + p + ".git";
    assert '@' !in u by {
      assert '@' !in "ssh://";
    }
    PortPathIsClean(port, path);
    ScpRemoteRoundTrip(u, host, p);
  }

  lemma PortPathIsClean(port: string, path: string)
    requires port != [] && AllDigits(port) && IsCleanPath(path)
    ensures IsCleanPath(port + "/" + path)
  {
    var p := port + "/" + path;
    assert p[0] == port[0] && IsDigit(port[0]);
    assert p[|p| - 1] == path[|path| - 1];
    assert NoLineTerminator(p) by {
      forall i | 0 <= i < |p| ensures !IsLineTerminator(p[i]) {
        if i < |port| { assert IsDigit(port[i]); }
        else if i > |port| { assert p[i] == path[i - |port| - 1]; }
      }
    }
    if |path| >= 4 {
      assert p[|p| - 4..] == path[|path| - 4..];
    } else if |p| >= 4 {
      var k := |port|;
      var tail := p[|p| - 4..];
      assert tail[k - (|p| - 4)] == '/';
      assert AsciiLower('/') == '/';
      assert forall i :: 0 <= i < 4 ==> AsciiLower(".git"[i]) != '/';
    }
  }

  // ---------------------------------------------------------------------------
  // inferProviderFromRemote

  function ProviderError(remote: string): string {
    "Unable to infer provider from remote URL: " + remote
  }

  /** `github.com` anywhere in the remote means GitHub, even when `gitlab` appears too;
      otherwise `gitlab` anywhere means GitLab; otherwise the provider is unknown. */
  function InferProviderFromRemote(remote: string): (r: Result<Provider, string>)
    ensures r == Ok(GitHub) <==> Contains(remote, "github.com")
    ensures r == Ok(GitLab) <==> !Contains(remote, "github.com") && Contains(remote, "gitlab")
    ensures r.Err? <==> !Contains(remote, "github.com") && !Contains(remote, "gitlab")
    ensures r.Err? ==> r.error == ProviderError(remote)
  {
    if Contains(remote, "github.com") then Ok(GitHub)
    else if Contains(remote, "gitlab") then Ok(GitLab)
    else Err(ProviderError(remote))
  }

  lemma ContainsMiddle(a: string, needle: string, b: string)
    ensures Contains(a + needle + b, needle)
  {
    var s := a + needle + b;
    assert s[|a|..][..|needle|] == needle;
  }

  /** A remote on host `github.com`, in either form, is a GitHub remote. */
  lemma GitHubHostIsGitHub(prefix: string, suffix: string)
    ensures InferProviderFromRemote(prefix + "github.com" + suffix) == Ok(GitHub)
  {
    ContainsMiddle(prefix, "github.com", suffix);
  }

  // ---------------------------------------------------------------------------
  // getRepoRoot and inferRepoInfo

  /** The trimmed output of `git rev-parse --show-toplevel`, or `cwd` when it fails. */
  function GetRepoRoot(cwd: string, revParse: GitOutcome): (r: string)
    ensures revParse.Failed? ==> r == cwd
    ensures revParse.Ran? ==> IsTrimmed(r) && r == Trim(revParse.stdout)
  {
    match revParse
    case Ran(stdout) => Trim(stdout)
    case Failed(_) => cwd
  }

  const GitLabMessage := "GitLab provider is not implemented yet."
  const NoWorkflowMessage := "Unable to find any workflow. Please specify --file manually."

  function RepoShapeError(repo: string): string {
    "Expected GitHub repository to be \"owner/name\", but got \"" + repo + "\"."
  }

  /** `owner/name`: two non-empty segments once empty ones are dropped. */
  predicate IsOwnerName(repo: string) {
    |NonEmpty(SplitOn(repo, '/'))| == 2
  }

  /** `!options.provider || !options.repo`: the remote is needed unless both are given,
      and an empty repository counts as not given. */
  predicate NeedsRemote(options: TrustOptions) {
    options.provider.None? || options.repo.None? || options.repo.value == ""
  }

  /** The trimmed origin remote when it is needed (its failure is the command's failure),
      and `""` standing for the `undefined` remote otherwise. */
  function RemoteOf(options: TrustOptions, origin: GitOutcome): Result<string, string> {
    if !NeedsRemote(options) then Ok("")
    else
      match origin
      case Ran(stdout) => Ok(Trim(stdout))
      case Failed(message) => Err(message)
  }

  /** `options.provider ?? inferProviderFromRemote(remote ?? '')`. */
  function ProviderOf(options: TrustOptions, remote: string): Result<Provider, string> {
    match options.provider
    case Some(p) => Ok(p)
    case None => InferProviderFromRemote(remote)
  }

  /** `options.repo ?? parseRepoFromRemote(remote ?? '')`. */
  function RepoOf(options: TrustOptions, remote: string): Result<string, string> {
    match options.repo
    case Some(given) => Ok(given)
    case None => ParseRepoFromRemote(remote)
  }

  /** `options.file ?? inferGithubWorkflowFile(repoRoot)`, of which a missing or empty
      result is an error. */
  function FileOf(options: TrustOptions, repoRoot: string, listing: Option<seq<GitHub.DirEntry>>): (r: Result<string, string>)
    ensures r.Ok? ==> r.value != ""
    ensures options.file.Some? ==> r == (if options.file.value == "" then Err(NoWorkflowMessage) else Ok(options.file.value))
  {
    var file :- match options.file
      case Some(given) => Ok(Some(given))
      case None => GitHub.InferGithubWorkflowFile(repoRoot, listing);
    if file.None? || file.value == "" then Err(NoWorkflowMessage) else Ok(file.value)
  }

  /** The decision sequence of `inferRepoInfo`. `processCwd` is the process's working
      directory, `revParse` and `origin` the outcomes of the two git commands, and
      `listing` what the workflow directory under the repository root holds. */
  function InferRepoInfo(options: TrustOptions, processCwd: string, revParse: GitOutcome,
                         origin: GitOutcome, listing: Option<seq<GitHub.DirEntry>>): (r: Result<RepoInfo, string>)
    ensures r.Ok? ==> r.value.provider == GitHub && IsOwnerName(r.value.repo) && r.value.file != ""
    ensures r.Ok? && options.repo.Some? ==> r.value.repo == options.repo.value
    ensures r.Ok? && options.file.Some? ==> r.value.file == options.file.value
    ensures r.Ok? && options.repo.None?
        ==> RemoteOf(options, origin).Ok? && ParseRepoFromRemote(RemoteOf(options, origin).value) == Ok(r.value.repo)
    ensures r.Ok? && options.file.None?
        ==> GitHub.InferGithubWorkflowFile(RepoRootOf(options, processCwd, revParse), listing) == Ok(Some(r.value.file))
  {
    var repoRoot := GetRepoRoot(options.dir.GetOr(processCwd), revParse);
    var remote :- RemoteOf(options, origin);
    var provider :- ProviderOf(options, remote);
    if provider == GitLab then Err(GitLabMessage)
    else
      var repo :- RepoOf(options, remote);
      if !IsOwnerName(repo) then Err(RepoShapeError(repo))
      else
        var file :- FileOf(options, repoRoot, listing);
        Ok(RepoInfo(GitHub, repo, file))
  }

  /** GitLab is rejected whenever it is the provider, given or inferred, before the
      repository is looked at: an unparsable remote or a malformed repository does not
      change the message. */
  lemma GitLabIsRejected(options: TrustOptions, processCwd: string, revParse: GitOutcome,
                         origin: GitOutcome, listing: Option<seq<GitHub.DirEntry>>)
    requires RemoteOf(options, origin).Ok?
    requires options.provider == Some(GitLab)
          || (options.provider.None? && InferProviderFromRemote(RemoteOf(options, origin).value) == Ok(GitLab))
    ensures InferRepoInfo(options, processCwd, revParse, origin, listing) == Err(GitLabMessage)
  {
  }

  /** With both the provider and a repository given, the origin remote is not consulted. */
  lemma GivenTargetIgnoresRemote(options: TrustOptions, processCwd: string, revParse: GitOutcome,
                                 origin1: GitOutcome, origin2: GitOutcome, listing: Option<seq<GitHub.DirEntry>>)
    requires options.provider.Some? && options.repo.Some? && options.repo.value != ""
    ensures InferRepoInfo(options, processCwd, revParse, origin1, listing)
         == InferRepoInfo(options, processCwd, revParse, origin2, listing)
  {
  }

  /** A failing `git remote get-url origin` fails the inference exactly when the remote
      is needed. */
  lemma RemoteFailurePropagates(options: TrustOptions, processCwd: string, revParse: GitOutcome,
                                message: string, listing: Option<seq<GitHub.DirEntry>>)
    requires NeedsRemote(options)
    ensures InferRepoInfo(options, processCwd, revParse, Failed(message), listing) == Err(message)
  {
  }

  /** An explicit workflow file is taken as it is, whatever the workflow directory holds. */
  lemma ExplicitFileIgnoresListing(options: TrustOptions, processCwd: string, revParse: GitOutcome,
                                   origin: GitOutcome, listing1: Option<seq<GitHub.DirEntry>>, listing2: Option<seq<GitHub.DirEntry>>)
    requires options.file.Some?
    ensures InferRepoInfo(options, processCwd, revParse, origin, listing1)
         == InferRepoInfo(options, processCwd, revParse, origin, listing2)
  {
    var root := RepoRootOf(options, processCwd, revParse);
    assert FileOf(options, root, listing1) == FileOf(options, root, listing2);
  }

  /** With the provider, a well-formed repository and the file all given, they are the
      result, whatever git and the workflow directory say. */
  lemma GivenTargetIsTaken(options: TrustOptions, processCwd: string, revParse: GitOutcome,
                           origin: GitOutcome, listing: Option<seq<GitHub.DirEntry>>)
    requires options.provider == Some(GitHub) && options.repo.Some? && IsOwnerName(options.repo.value)
    requires options.file.Some? && options.file.value != ""
    ensures InferRepoInfo(options, processCwd, revParse, origin, listing)
         == Ok(RepoInfo(GitHub, options.repo.value, options.file.value))
  {
    OwnerNameIsNotEmpty(options.repo.value);
    assert RemoteOf(options, origin) == Ok("");
    assert FileOf(options, RepoRootOf(options, processCwd, revParse), listing) == Ok(options.file.value);
  }

  lemma OwnerNameIsNotEmpty(repo: string)
    requires IsOwnerName(repo)
    ensures repo != ""
  {
  }

  /** With the provider given as GitHub and the file given, a given repository is
      accepted exactly when it has the `owner/name` shape, and otherwise rejected with a
      message that quotes it. */
  lemma RepoShapeIsChecked(options: TrustOptions, processCwd: string, revParse: GitOutcome,
                           origin: GitOutcome, listing: Option<seq<GitHub.DirEntry>>)
    requires options.provider == Some(GitHub) && options.repo.Some? && options.repo.value != ""
    requires options.file.Some? && options.file.value != ""
    ensures InferRepoInfo(options, processCwd, revParse, origin, listing).Ok? <==> IsOwnerName(options.repo.value)
    ensures !IsOwnerName(options.repo.value)
        ==> InferRepoInfo(options, processCwd, revParse, origin, listing) == Err(RepoShapeError(options.repo.value))
  {
  }

  /** An empty repository option still makes the remote be read, but it is kept (`??`
      only replaces a missing value) and then rejected. */
  lemma EmptyRepoIsRejected(options: TrustOptions, processCwd: string, revParse: GitOutcome,
                            stdout: string, listing: Option<seq<GitHub.DirEntry>>)
    requires options.provider == Some(GitHub) && options.repo == Some("")
    ensures InferRepoInfo(options, processCwd, revParse, Ran(stdout), listing) == Err(RepoShapeError(""))
  {
    assert !IsOwnerName("") by {
      assert SplitOn("", '/') == [""];
      assert NonEmpty([""]) == [] by { assert [""][1..] == []; }
    }
  }

  /** With nothing given, the remote decides the provider and the repository and the
      workflow directory decides the file. */
  predicate RemoteDecides(options: TrustOptions, stdout: string) {
    && options.provider.None? && options.repo.None? && options.file.None?
    && InferProviderFromRemote(Trim(stdout)) == Ok(GitHub)
    && ParseRepoFromRemote(Trim(stdout)).Ok? && IsOwnerName(ParseRepoFromRemote(Trim(stdout)).value)
  }

  function RepoRootOf(options: TrustOptions, processCwd: string, revParse: GitOutcome): string {
    GetRepoRoot(options.dir.GetOr(processCwd), revParse)
  }

  /** The one publishing workflow is chosen, in the repository root found by git. */
  lemma InferredWorkflowIsChosen(options: TrustOptions, processCwd: string, revParse: GitOutcome,
                                 stdout: string, listing: Option<seq<GitHub.DirEntry>>, file: string)
    requires RemoteDecides(options, stdout)
    requires GitHub.InferGithubWorkflowFile(RepoRootOf(options, processCwd, revParse), listing) == Ok(Some(file))
    requires file != ""
    ensures InferRepoInfo(options, processCwd, revParse, Ran(stdout), listing)
         == Ok(RepoInfo(GitHub, ParseRepoFromRemote(Trim(stdout)).value, file))
  {
    assert FileOf(options, RepoRootOf(options, processCwd, revParse), listing) == Ok(file);
  }

  /** No publishing workflow is an error asking for `--file`. */
  lemma NoWorkflowIsAnError(options: TrustOptions, processCwd: string, revParse: GitOutcome,
                            stdout: string, listing: Option<seq<GitHub.DirEntry>>)
    requires RemoteDecides(options, stdout)
    requires GitHub.InferGithubWorkflowFile(RepoRootOf(options, processCwd, revParse), listing) == Ok(None)
    ensures InferRepoInfo(options, processCwd, revParse, Ran(stdout), listing) == Err(NoWorkflowMessage)
  {
    assert FileOf(options, RepoRootOf(options, processCwd, revParse), listing) == Err(NoWorkflowMessage);
  }

  /** A failing workflow inference (no directory, several candidates) is the result. */
  lemma WorkflowErrorPropagates(options: TrustOptions, processCwd: string, revParse: GitOutcome,
                                stdout: string, listing: Option<seq<GitHub.DirEntry>>, message: string)
    requires RemoteDecides(options, stdout)
    requires GitHub.InferGithubWorkflowFile(RepoRootOf(options, processCwd, revParse), listing) == Err(message)
    ensures InferRepoInfo(options, processCwd, revParse, Ran(stdout), listing) == Err(message)
  {
    assert FileOf(options, RepoRootOf(options, processCwd, revParse), listing) == Err(message);
  }
  /** An inferred provider comes before everything else: a remote naming neither
      `github.com` nor `gitlab` is the provider error, whatever the repository option and
      the workflow directory. */
  lemma ProviderErrorPropagates(options: TrustOptions, processCwd: string, revParse: GitOutcome,
                                stdout: string, listing: Option<seq<GitHub.DirEntry>>)
    requires options.provider.None?
    requires !Contains(Trim(stdout), "github.com") && !Contains(Trim(stdout), "gitlab")
    ensures InferRepoInfo(options, processCwd, revParse, Ran(stdout), listing) == Err(ProviderError(Trim(stdout)))
  {
  }

  /** With GitHub as the provider, given or inferred, and no repository given, a remote
      that neither pattern matches is the parse error, whatever the workflow directory. */
  lemma ParseErrorPropagates(options: TrustOptions, processCwd: string, revParse: GitOutcome,
                             stdout: string, listing: Option<seq<GitHub.DirEntry>>)
    requires options.provider == Some(GitHub)
          || (options.provider.None? && InferProviderFromRemote(Trim(stdout)) == Ok(GitHub))
    requires options.repo.None?
    requires ParseRepoFromRemote(Trim(stdout)).Err?
    ensures InferRepoInfo(options, processCwd, revParse, Ran(stdout), listing) == Err(ParseError(Trim(stdout)))
  {
  }

  /** The `owner/name` check comes before the workflow file is looked for: a repository of
      another shape, given or parsed from the remote, is the shape error whether or not a
      file is given and whatever the workflow directory holds. */
  lemma ShapeErrorWins(options: TrustOptions, processCwd: string, revParse: GitOutcome,
                       origin: GitOutcome, listing: Option<seq<GitHub.DirEntry>>)
    requires RemoteOf(options, origin).Ok?
    requires ProviderOf(options, RemoteOf(options, origin).value) == Ok(GitHub)
    requires RepoOf(options, RemoteOf(options, origin).value).Ok?
    requires !IsOwnerName(RepoOf(options, RemoteOf(options, origin).value).value)
    ensures InferRepoInfo(options, processCwd, revParse, origin, listing)
         == Err(RepoShapeError(RepoOf(options, RemoteOf(options, origin).value).value))
  {
  }
}
