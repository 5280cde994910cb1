/** The repository-target scenarios of the repository's provider tests, worked through
    the model. */
module GitScenarios {
  import opened Wrappers
  import opened Strings
  import opened Git
  import GitHub
  import GitHubScenarios

  /** A repository given as `owner/name`, both parts non-empty and free of `/`, has the
      required shape. */
  lemma OwnerNameOfParts(owner: string, name: string)
    requires owner != "" && name != "" && '/' !in owner && '/' !in name
    ensures IsOwnerName(owner + "/" + name)
  {
    var parts := [owner, name];
    assert Join(parts, "/") == owner + "/" + name by {
      assert parts[1..] == [name];
    }
    SplitOnJoin(parts, '/');
    assert NonEmpty(parts) == parts by {
      assert parts[1..] == [name] && parts[1..][1..] == [];
    }
  }

  lemma AcmeNtrustIsClean()
    ensures IsCleanPath("acme/ntrust")
  {
    OnOneLine();
    IsTrimmedAcme();
    NoSuffixAcme();
  }

  lemma OnOneLine()
    ensures NoLineTerminator("acme/ntrust")
  {
  }

  lemma IsTrimmedAcme()
    ensures IsTrimmed("acme/ntrust")
  {
  }

  lemma NoSuffixAcme()
    ensures !HasGitSuffix("acme/ntrust")
  {
    var t := "acme/ntrust"[7..];
    assert t == "rust";
    assert AsciiLower(t[0]) != AsciiLower(".git"[0]);
  }

  lemma AcmeNtrustIsOwnerName()
    ensures IsOwnerName("acme/ntrust")
  {
    assert "acme/ntrust" == "acme" + "/" + "ntrust";
    OwnerNameOfParts("acme", "ntrust");
  }

  lemma ScpAcmeParts()
    ensures "git" + "@" + "github.com" + ":" + "acme/ntrust" + ".git" == "git@github.com:acme/ntrust.git"
  {
  }

  lemma ScpAcmeHostIn()
    ensures "git@" + "github.com" + ":acme/ntrust.git" == "git@github.com:acme/ntrust.git"
  {
  }

  lemma HttpsAcmeParts()
    ensures "https" + "://" + "github.com" + "/" + "acme/ntrust" + ".git" == "https://github.com/acme/ntrust.git"
  {
  }

  lemma HttpsAcmeHostIn()
    ensures "https://" + "github.com" + "/acme/ntrust.git" == "https://github.com/acme/ntrust.git"
  {
  }

  lemma HttpsIsAScheme()
    ensures forall i :: 0 <= i < |"https"| ==> IsAsciiLetter("https"[i])
  {
  }

  lemma ScpAcmeHostParts()
    ensures "git" != [] && '@' !in "git" && "github.com" != [] && ':' !in "github.com"
  {
  }

  lemma HttpsAcmeHostParts()
    ensures "https" != [] && "github.com" != [] && '/' !in "github.com" && '@' !in "github.com"
    ensures '@' !in "acme/ntrust"
  {
  }

  /** `git@github.com:acme/ntrust.git` names GitHub and `acme/ntrust`. */
  lemma ScpAcmeRemote()
    ensures InferProviderFromRemote("git@github.com:acme/ntrust.git") == Ok(GitHub)
    ensures ParseRepoFromRemote("git@github.com:acme/ntrust.git") == Ok("acme/ntrust")
  {
    AcmeNtrustIsClean();
    ScpAcmeHostParts();
    ScpAcmeParts();
    ScpAcmeHostIn();
    ScpRemoteRoundTrip("git", "github.com", "acme/ntrust");
    GitHubHostIsGitHub("git@", ":acme/ntrust.git");
  }

  /** `https://github.com/acme/ntrust.git` names GitHub and `acme/ntrust`. */
  lemma HttpsAcmeRemote()
    ensures InferProviderFromRemote("https://github.com/acme/ntrust.git") == Ok(GitHub)
    ensures ParseRepoFromRemote("https://github.com/acme/ntrust.git") == Ok("acme/ntrust")
  {
    AcmeNtrustIsClean();
    HttpsAcmeHostParts();
    HttpsAcmeParts();
    HttpsAcmeHostIn();
    HttpsIsAScheme();
    UrlRemoteRoundTrip("https", "github.com", "acme/ntrust");
    GitHubHostIsGitHub("https://", "/acme/ntrust.git");
  }

  // ---------------------------------------------------------------------------
  // inferRepoInfo, with `root` the temporary repository that git reports as the top level

  const ScpAcme := "git@github.com:acme/ntrust.git"
  const HttpsAcme := "https://github.com/acme/ntrust.git"

  function DirOnly(root: string): TrustOptions {
    TrustOptions(Some(root), None, None, None)
  }

  lemma RemotesDecide(root: string)
    ensures RemoteDecides(DirOnly(root), ScpAcme) && Trim(ScpAcme) == ScpAcme
    ensures RemoteDecides(DirOnly(root), HttpsAcme) && Trim(HttpsAcme) == HttpsAcme
  {
    ScpAcmeRemote();
    HttpsAcmeRemote();
    RemotesAreTrimmed();
    AcmeNtrustIsOwnerName();
  }

  lemma RemotesAreTrimmed()
    ensures Trim(ScpAcme) == ScpAcme && Trim(HttpsAcme) == HttpsAcme
  {
    assert IsTrimmed(ScpAcme) && IsTrimmed(HttpsAcme);
    TrimOfTrimmed(ScpAcme);
    TrimOfTrimmed(HttpsAcme);
  }

  lemma RootIsReported(root: string, processCwd: string)
    requires IsTrimmed(root)
    ensures RepoRootOf(DirOnly(root), processCwd, Ran(root)) == root
  {
    TrimOfTrimmed(root);
  }

  /** With the SCP-like remote, the repository is `acme/ntrust` and the file the inferred one. */
  lemma ScpRemoteWithWorkflow(root: string, processCwd: string, listing: Option<seq<GitHub.DirEntry>>, file: string)
    requires IsTrimmed(root)
    requires GitHub.InferGithubWorkflowFile(root, listing) == Ok(Some(file)) && file != ""
    ensures InferRepoInfo(DirOnly(root), processCwd, Ran(root), Ran(ScpAcme), listing)
         == Ok(RepoInfo(GitHub, "acme/ntrust", file))
  {
    RemotesDecide(root);
    ScpAcmeRemote();
    RootIsReported(root, processCwd);
    InferredWorkflowIsChosen(DirOnly(root), processCwd, Ran(root), ScpAcme, listing, file);
  }

  /** The SCP-like remote and a single publishing workflow: everything is inferred. */
  lemma AutoDetectsTheReleaseWorkflow(root: string, processCwd: string)
    requires IsTrimmed(root)
    ensures InferRepoInfo(DirOnly(root), processCwd, Ran(root), Ran(ScpAcme),
                          Some([GitHubScenarios.OneStepFile("ci.yml", "ci", GitHubScenarios.CiCommand),
                                GitHubScenarios.OneStepFile("release.yml", "release", GitHubScenarios.ReleaseCommand)]))
         == Ok(RepoInfo(GitHub, "acme/ntrust", "release.yml"))
  {
    GitHubScenarios.SingleReleaseWorkflowIsChosen(root);
    ScpRemoteWithWorkflow(root, processCwd,
                          Some([GitHubScenarios.OneStepFile("ci.yml", "ci", GitHubScenarios.CiCommand),
                                GitHubScenarios.OneStepFile("release.yml", "release", GitHubScenarios.ReleaseCommand)]),
                          "release.yml");
  }

  /** Provider, repository and file all given: git is asked for the top level only. */
  lemma PrefersTheGivenFile(root: string, processCwd: string, origin: GitOutcome, listing: Option<seq<GitHub.DirEntry>>)
    ensures InferRepoInfo(TrustOptions(Some(root), Some(GitHub), Some("acme/ntrust"), Some("manual.yml")),
                          processCwd, Ran(root), origin, listing)
         == Ok(RepoInfo(GitHub, "acme/ntrust", "manual.yml"))
  {
    AcmeNtrustIsOwnerName();
    GivenTargetIsTaken(TrustOptions(Some(root), Some(GitHub), Some("acme/ntrust"), Some("manual.yml")),
                       processCwd, Ran(root), origin, listing);
  }

  /** The HTTPS remote and only a workflow that does not publish: no file can be chosen. */
  lemma NoPublishCommandIsAnError(root: string, processCwd: string)
    requires IsTrimmed(root)
    ensures InferRepoInfo(DirOnly(root), processCwd, Ran(root), Ran(HttpsAcme),
                          Some([GitHubScenarios.OneStepFile("ci.yml", "ci", GitHubScenarios.CiCommand)]))
         == Err(NoWorkflowMessage)
  {
    RemotesDecide(root);
    RootIsReported(root, processCwd);
    GitHubScenarios.NoReleaseWorkflowGivesNone(root);
    NoWorkflowIsAnError(DirOnly(root), processCwd, Ran(root), HttpsAcme,
                        Some([GitHubScenarios.OneStepFile("ci.yml", "ci", GitHubScenarios.CiCommand)]));
  }

  /** The HTTPS remote and two publishing workflows: the candidates are listed. */
  lemma MultiplePublishCommandsAreAnError(root: string, processCwd: string)
    requires IsTrimmed(root)
    ensures InferRepoInfo(DirOnly(root), processCwd, Ran(root), Ran(HttpsAcme),
                          Some([GitHubScenarios.OneStepFile("release-a.yml", "release", GitHubScenarios.NpmPublish),
                                GitHubScenarios.OneStepFile("release-b.yml", "release", GitHubScenarios.PnpmPublish)]))
         == Err(GitHub.MultipleHeader + "\n"
                + GitHub.FormatPublishCandidates([GitHub.PublishCommandMatch("release-a.yml", "release", 1, GitHubScenarios.NpmPublish),
                                                  GitHub.PublishCommandMatch("release-b.yml", "release", 1, GitHubScenarios.PnpmPublish)]))
  {
    RemotesDecide(root);
    RootIsReported(root, processCwd);
    GitHubScenarios.TwoReleaseWorkflowsAreRejected(root);
    WorkflowErrorPropagates(DirOnly(root), processCwd, Ran(root), HttpsAcme,
                            Some([GitHubScenarios.OneStepFile("release-a.yml", "release", GitHubScenarios.NpmPublish),
                                  GitHubScenarios.OneStepFile("release-b.yml", "release", GitHubScenarios.PnpmPublish)]),
                            GitHub.MultipleHeader + "\n"
                            + GitHub.FormatPublishCandidates([GitHub.PublishCommandMatch("release-a.yml", "release", 1, GitHubScenarios.NpmPublish),
                                                              GitHub.PublishCommandMatch("release-b.yml", "release", 1, GitHubScenarios.PnpmPublish)]));
  }
  /** The same error as the text the user sees: the header line, then one candidate line
      per release workflow. */
  lemma MultiplePublishCommandsMessage(root: string, processCwd: string)
    requires IsTrimmed(root)
    ensures InferRepoInfo(DirOnly(root), processCwd, Ran(root), Ran(HttpsAcme),
                          Some([GitHubScenarios.OneStepFile("release-a.yml", "release", GitHubScenarios.NpmPublish),
                                GitHubScenarios.OneStepFile("release-b.yml", "release", GitHubScenarios.PnpmPublish)]))
         == Err("Found multiple publish workflow commands in GitHub actions. Please specify --file manually.\n"
                + "- release-a.yml (job=release, step=1): npm publish\n"
                + "- release-b.yml (job=release, step=1): pnpm -r publish")
  {
    MultiplePublishCommandsAreAnError(root, processCwd);
    GitHubScenarios.TwoReleaseWorkflowsMessage();
  }
}
