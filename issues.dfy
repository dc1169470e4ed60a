// The open issue and pull request warnings (github_linter/tests/issues.py).
module Issues {
  import opened Wrappers
  import opened Text
  import opened Github
  import opened LintModules
  import opened ResultObjects
  import GithubLinters

  const Category := "issues"

  /** At most this many pull requests are listed. */
  const ListedPulls := 10

  function OpenIssues(count: int, fullName: string): (r: string)
    ensures Contains(r, fullName)
  {
    var prefix := "There are " + IntToString(count) + " open issues for ";
    assert (prefix + fullName)[|prefix|..|prefix| + |fullName|] == fullName;
    ContainsPrefixOfSuffix(prefix + fullName, fullName, |prefix|);
    prefix + fullName
  }

  /** What `check_open_issues` records: one warning for a non-zero count. */
  function OpenIssuesRun(repo: Option<Github.Repository>): (r: CommandRun)
    ensures r.errors == [] && r.fixes == [] && |r.warnings| <= 1
    ensures r.signal == (if repo.None? then Raised else Completed)
    ensures r.warnings != [] <==> repo.Some? && repo.value.openIssues != 0
    ensures r.warnings != [] ==> r.warnings == [Message(Category, OpenIssues(repo.value.openIssues, repo.value.fullName))]
  {
    if repo.None? then CommandRun([], [], [], Raised)
    else if repo.value.openIssues != 0 then CommandRun([], Filed(Category, [OpenIssues(repo.value.openIssues, repo.value.fullName)]), [], Completed)
    else Quiet
  }

  /** `check_open_issues` */
  method CheckOpenIssues(github: GithubLinters.GithubLinter, errors: ResultObject, warnings: ResultObject) returns (signal: Signal)
    modifies errors, warnings
    ensures var run := OpenIssuesRun(github.currentRepo);
      signal == run.signal && Delivered(run, old(errors.sink), old(warnings.sink), errors, warnings)
  {
    var run := OpenIssuesRun(github.currentRepo);
    Deliver(run, errors, warnings);
    signal := run.signal;
  }

  /** `str(pull.mergeable)` */
  function MergeableText(m: Option<bool>): string
  {
    if m.None? then "None" else BoolToString(m.value)
  }

  function OpenPull(fullName: string, pull: PullRequest): (r: string)
    ensures StartsWith(r, fullName) && EndsWith(r, ")")
  {
    fullName + " has an open PR: #" + IntToString(pull.number) + " - " + pull.title + " in " + fullName +
    " (mergeable=" + MergeableText(pull.mergeable) + ")"
  }

  /** `pulls.reversed[:10]`: the listing from its end, at most ten of them. */
  function LastReversed(pulls: seq<PullRequest>): (r: seq<PullRequest>)
    ensures |r| == if |pulls| < ListedPulls then |pulls| else ListedPulls
    ensures forall i :: 0 <= i < |r| ==> r[i] == pulls[|pulls| - 1 - i]
  {
    var n := if |pulls| < ListedPulls then |pulls| else ListedPulls;
    seq(n, i requires 0 <= i < n => pulls[|pulls| - 1 - i])
  }

  function PullTexts(fullName: string, pulls: seq<PullRequest>): (r: seq<string>)
    ensures |r| == |pulls| && forall i :: 0 <= i < |pulls| ==> r[i] == OpenPull(fullName, pulls[i])
  {
    seq(|pulls|, i requires 0 <= i < |pulls| => OpenPull(fullName, pulls[i]))
  }

  /** What `check_open_prs` records: one warning for each listed pull request. */
  function OpenPrsRun(repo: Option<Github.Repository>): (r: CommandRun)
    ensures r.errors == [] && r.fixes == [] && r.signal == (if repo.None? then Raised else Completed)
    ensures repo.Some? ==> r.warnings == Filed(Category, PullTexts(repo.value.fullName, LastReversed(repo.value.pulls)))
  {
    if repo.None? then CommandRun([], [], [], Raised)
    else CommandRun([], Filed(Category, PullTexts(repo.value.fullName, LastReversed(repo.value.pulls))), [], Completed)
  }

  /**
   * No more than ten warnings; none exactly when there is no open pull
   * request; and the last pull request of the listing comes first.
   */
  lemma OpenPrsBounded(repo: Github.Repository)
    ensures var run := OpenPrsRun(Some(repo));
      |run.warnings| <= ListedPulls &&
      (run.warnings == [] <==> repo.pulls == []) &&
      (repo.pulls != [] ==> run.warnings[0] == Message(Category, OpenPull(repo.fullName, repo.pulls[|repo.pulls| - 1])))
    ensures var run := OpenPrsRun(Some(repo));
      forall i :: 0 <= i < |run.warnings| ==>
        (exists k :: 0 <= k < |repo.pulls| && run.warnings[i] == Message(Category, OpenPull(repo.fullName, repo.pulls[k])))
  {
    var run := OpenPrsRun(Some(repo));
    forall i | 0 <= i < |run.warnings|
      ensures exists k :: 0 <= k < |repo.pulls| && run.warnings[i] == Message(Category, OpenPull(repo.fullName, repo.pulls[k]))
    {
      var k := |repo.pulls| - 1 - i;
      assert run.warnings[i] == Message(Category, OpenPull(repo.fullName, repo.pulls[k]));
    }
  }

  /** `check_open_prs` */
  method CheckOpenPrs(github: GithubLinters.GithubLinter, errors: ResultObject, warnings: ResultObject) returns (signal: Signal)
    modifies errors, warnings
    ensures var run := OpenPrsRun(github.currentRepo);
      signal == run.signal && Delivered(run, old(errors.sink), old(warnings.sink), errors, warnings)
  {
    var run := OpenPrsRun(github.currentRepo);
    Deliver(run, errors, warnings);
    signal := run.signal;
  }
}
