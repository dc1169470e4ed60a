// The testing workflow checks (github_linter/tests/testing.py): a
// repository with languages needs `.github/workflows/testing.yml`, and a
// shell repository's workflow must run shellcheck.
module Testing {
  import opened Wrappers
  import opened Text
  import opened Config
  import opened Github
  import opened LintModules
  import opened ResultObjects
  import GithubLinters
  import GithubActions
  import Session

  const Category := "testing"
  const TestingWorkflow := ".github/workflows/testing.yml"
  const NoLanguages := "No languages identified, didn't check for automated testing config"
  const TestingMissing := "File .github/workflows/testing.yml missing"

  /**
   * What `check_shellcheck` records, given the current repository and the
   * read of the testing workflow: nothing without "Shell" among the
   * languages or without a non-empty workflow; otherwise one error exactly
   * when the action string is not in its text.
   */
  function ShellcheckRun(config: map<string, Value>, repo: Option<Github.Repository>, read: Remote<Option<File>>): (r: CommandRun)
    ensures r.warnings == [] && r.fixes == [] && |r.errors| <= 1
    ensures r.signal == Raised <==>
      repo.None? || ("Shell" in repo.value.languages &&
                     (read.Failed? || (read.value.Some? && read.value.value.content != "" &&
                                       GithubActions.ShellcheckAction(config).None?)))
    ensures r.errors != [] <==>
      repo.Some? && "Shell" in repo.value.languages && read.Ok? && read.value.Some? && read.value.value.content != "" &&
      GithubActions.ShellcheckAction(config).Some? &&
      !Contains(read.value.value.content, GithubActions.ShellcheckAction(config).value)
    ensures r.errors != [] ==>
      r.errors == [Message(Category, GithubActions.ShellcheckMissing(GithubActions.ShellcheckAction(config).value))]
  {
    if repo.None? then CommandRun([], [], [], Raised)
    else if "Shell" !in repo.value.languages then Quiet
    else if read.Failed? then CommandRun([], [], [], Raised)
    else
      var action := GithubActions.ShellcheckAction(config);
      GithubActions.ShellcheckErrors(repo.value.languages, read.value, action, Category);
      GithubActions.ShellcheckRun(repo.value.languages, read.value, action, Category)
  }

  /** `check_shellcheck`: with "Shell" among the languages, one read of the testing workflow through the cache. */
  method CheckShellcheck(github: GithubLinters.GithubLinter, errors: ResultObject, warnings: ResultObject)
    returns (signal: Signal, read: Remote<Option<File>>)
    modifies github`filecache, errors, warnings
    ensures github.currentRepo.None? || "Shell" !in github.currentRepo.value.languages ==>
      read == Ok(None) && github.filecache == old(github.filecache)
    ensures github.currentRepo.Some? && "Shell" in github.currentRepo.value.languages ==>
      var key := github.currentRepo.value.fullName;
      GithubLinters.OlderPossible(GithubLinters.RepoCache(old(github.filecache), key), github.currentRepo.value.contents, TestingWorkflow, read) &&
      Session.CacheFrom(GithubLinters.RepoCache(old(github.filecache), key), GithubLinters.RepoCache(github.filecache, key),
                        github.currentRepo.value.contents, {})
    ensures var run := ShellcheckRun(github.config, github.currentRepo, read);
      signal == run.signal && Delivered(run, old(errors.sink), old(warnings.sink), errors, warnings)
  {
    read := Ok(None);
    if github.currentRepo.Some? && "Shell" in github.currentRepo.value.languages {
      read := github.CachedGetFile(TestingWorkflow);
    }
    var run := ShellcheckRun(github.config, github.currentRepo, read);
    Deliver(run, errors, warnings);
    signal := run.signal;
  }

  /**
   * What `check_testing_yml_exists` records: a warning, and no read, for a
   * repository without languages; otherwise an error when the workflow is
   * missing.
   */
  function TestingYmlRun(repo: Option<Github.Repository>, read: Remote<Option<File>>): (r: CommandRun)
    ensures r.fixes == [] && |r.errors| + |r.warnings| <= 1
    ensures r.signal == Raised <==> repo.None? || (repo.value.languages != [] && read.Failed?)
    ensures r.warnings != [] <==> repo.Some? && repo.value.languages == []
    ensures r.warnings != [] ==> r.warnings == [Message(Category, NoLanguages)]
    ensures r.errors != [] <==> repo.Some? && repo.value.languages != [] && read == Ok(None)
    ensures r.errors != [] ==> r.errors == [Message(Category, TestingMissing)]
  {
    if repo.None? then CommandRun([], [], [], Raised)
    else if repo.value.languages == [] then CommandRun([], Filed(Category, [NoLanguages]), [], Completed)
    else if read.Failed? then CommandRun([], [], [], Raised)
    else if read.value.None? then CommandRun(Filed(Category, [TestingMissing]), [], [], Completed)
    else Quiet
  }

  /**
   * The two checks split the work: where the workflow is missing or empty,
   * `check_shellcheck` stays quiet, and a missing one is reported by
   * `check_testing_yml_exists` for a repository with "Shell" among its
   * languages.
   */
  lemma MissingWorkflowReportedOnce(config: map<string, Value>, repo: Github.Repository, read: Remote<Option<File>>)
    requires read == Ok(None) || (read.Ok? && read.value.Some? && read.value.value.content == "")
    ensures ShellcheckRun(config, Some(repo), read) == Quiet
    ensures "Shell" in repo.languages && read == Ok(None) ==>
      TestingYmlRun(Some(repo), read).errors == [Message(Category, TestingMissing)]
  {
  }

  /** `check_testing_yml_exists` */
  method CheckTestingYmlExists(github: GithubLinters.GithubLinter, errors: ResultObject, warnings: ResultObject)
    returns (signal: Signal, read: Remote<Option<File>>)
    modifies github`filecache, errors, warnings
    ensures github.currentRepo.None? || github.currentRepo.value.languages == [] ==>
      read == Ok(None) && github.filecache == old(github.filecache)
    ensures github.currentRepo.Some? && github.currentRepo.value.languages != [] ==>
      var key := github.currentRepo.value.fullName;
      GithubLinters.OlderPossible(GithubLinters.RepoCache(old(github.filecache), key), github.currentRepo.value.contents, TestingWorkflow, read) &&
      Session.CacheFrom(GithubLinters.RepoCache(old(github.filecache), key), GithubLinters.RepoCache(github.filecache, key),
                        github.currentRepo.value.contents, {})
    ensures var run := TestingYmlRun(github.currentRepo, read);
      signal == run.signal && Delivered(run, old(errors.sink), old(warnings.sink), errors, warnings)
  {
    read := Ok(None);
    if github.currentRepo.Some? && github.currentRepo.value.languages != [] {
      read := github.CachedGetFile(TestingWorkflow);
    }
    var run := TestingYmlRun(github.currentRepo, read);
    Deliver(run, errors, warnings);
    signal := run.signal;
  }
}
