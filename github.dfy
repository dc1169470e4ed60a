// The remote side: the state of one GitHub repository as the linter sees it
// through the API, and the API calls it makes. Every call that can fail on
// the network may fail on any call; the choice is nondeterministic, so
// every caller is proved for both outcomes.
module Github {
  import opened Wrappers

  /** A `ContentFile`: its name, path, decoded bytes and blob sha. */
  datatype File = File(name: string, path: string, content: string, sha: string)

  /** One commit made through `update_file`. */
  datatype Commit = Commit(path: string, message: string, content: string, sha: string)

  /** What `update_file` hands back: a commit with an html url, or a dict without "commit". */
  datatype CommitResult = CommitUrl(url: string) | NoCommitKey

  /** The answer to `get_contents(path)`. */
  datatype Lookup = Listing(items: seq<File>) | NotFound | ApiError

  /** A remote read that either answers or raises a non-404 `GithubException`. */
  datatype Remote<T> = Ok(value: T) | Failed

  // Repository rulesets, as the rulesets REST endpoints describe them.

  datatype Actor = Actor(actorId: int, actorType: string, bypassMode: string)

  datatype Rule =
    | PullRequestRule(approvals: Option<int>, dismissStaleOnPush: bool, requireCodeOwner: bool,
                      requireLastPushApproval: bool, requireThreadResolution: bool)
    | StatusChecksRule(contexts: seq<string>, strict: bool)
    | OtherRule(ruleType: string)
  {
    function RuleType(): string
    {
      match this
      case PullRequestRule(_, _, _, _, _) => "pull_request"
      case StatusChecksRule(_, _) => "required_status_checks"
      case OtherRule(t) => t
    }
  }

  datatype Conditions = Conditions(includes: seq<string>, excludes: seq<string>)

  /** A ruleset; `id` 0 stands for a summary without an id. */
  datatype Ruleset = Ruleset(id: int, name: string, target: string, enforcement: string,
                             conditions: Option<Conditions>, rules: seq<Rule>, bypassActors: seq<Actor>)

  // Legacy branch protection of the default branch.

  datatype Reviews = Reviews(approvals: int, dismissStale: bool, requireCodeOwner: bool)

  /** `checks` is the newer API format, `contexts` the older one. */
  datatype StatusChecks = StatusChecks(checks: seq<string>, contexts: seq<string>, strict: bool)

  datatype Protection = Protection(enforceAdmins: bool, reviews: Option<Reviews>, statusChecks: Option<StatusChecks>)

  datatype PullRequest = PullRequest(number: int, title: string, mergeable: Option<bool>)

  /** The first file of what `get_contents` holds for `path`, if any. */
  function FileAt(contents: map<string, seq<File>>, path: string): Option<File>
  {
    if path in contents && |contents[path]| > 0 then Some(contents[path][0]) else None
  }

  /** The bytes the last of `commits` that touches `path` stored, if any. */
  function LastWrite(commits: seq<Commit>, path: string): Option<string>
    decreases |commits|
  {
    if commits == [] then None
    else if commits[|commits| - 1].path == path then Some(commits[|commits| - 1].content)
    else LastWrite(commits[..|commits| - 1], path)
  }

  /**
   * `after` is `before` with `commits` applied in order: a path no commit
   * touches keeps its listing, and a path some commit wrote holds one file
   * with the bytes of its last write.
   */
  ghost predicate Committed(before: map<string, seq<File>>, after: map<string, seq<File>>, commits: seq<Commit>)
  {
    forall p :: var w := LastWrite(commits, p);
      (w.None? ==> (p in after <==> p in before) && (p in before ==> after[p] == before[p])) &&
      (w.Some? ==> p in after && |after[p]| == 1 && after[p][0].path == p && after[p][0].content == w.value)
  }

  /** One more `update_file` extends what a sequence of commits did. */
  lemma CommittedSnoc(before: map<string, seq<File>>, mid: map<string, seq<File>>, after: map<string, seq<File>>,
                      commits: seq<Commit>, c: Commit, sha: string)
    requires Committed(before, mid, commits)
    requires after == mid[c.path := [File(c.path, c.path, c.content, sha)]]
    ensures Committed(before, after, commits + [c])
  {
    assert (commits + [c])[..|commits|] == commits;
  }

  class Repository {
    const fullName: string
    const name: string
    const defaultBranch: string
    const archived: bool
    /** The keys of `get_languages()`, largest first. */
    const languages: seq<string>
    const openIssues: int
    /** `get_pulls("open")` in the order the API lists them. */
    const pulls: seq<PullRequest>
    /** What `get_contents(path)` returns; a single file is a one-element listing. */
    var contents: map<string, seq<File>>
    var commits: seq<Commit>
    var protection: Option<Protection>
    var rulesets: seq<Ruleset>
    var vulnerabilityAlerts: bool
    var automatedSecurityFixes: bool

    constructor (fullName: string, name: string, defaultBranch: string, archived: bool,
                 languages: seq<string>, openIssues: int, pulls: seq<PullRequest>,
                 contents: map<string, seq<File>>, protection: Option<Protection>,
                 rulesets: seq<Ruleset>, vulnerabilityAlerts: bool)
      ensures this.fullName == fullName && this.name == name && this.defaultBranch == defaultBranch
      ensures this.archived == archived && this.languages == languages
      ensures this.openIssues == openIssues && this.pulls == pulls
      ensures this.contents == contents && this.commits == []
      ensures this.protection == protection && this.rulesets == rulesets
      ensures this.vulnerabilityAlerts == vulnerabilityAlerts && !this.automatedSecurityFixes
    {
      this.fullName := fullName;
      this.name := name;
      this.defaultBranch := defaultBranch;
      this.archived := archived;
      this.languages := languages;
      this.openIssues := openIssues;
      this.pulls := pulls;
      this.contents := contents;
      this.commits := [];
      this.protection := protection;
      this.rulesets := rulesets;
      this.vulnerabilityAlerts := vulnerabilityAlerts;
      this.automatedSecurityFixes := false;
    }

    /** `get_contents(path)`: the stored listing, a 404, or an API failure. */
    method GetContents(path: string) returns (r: Lookup)
      ensures r == ApiError || r == (if path in contents then Listing(contents[path]) else NotFound)
    {
      var fails: bool :| true;
      if fails {
        r := ApiError;
      } else if path in contents {
        r := Listing(contents[path]);
      } else {
        r := NotFound;
      }
    }

    /** `update_file`: stores the new bytes at `path` and records one commit. */
    method UpdateFile(path: string, message: string, content: string, sha: string) returns (r: CommitResult)
      modifies this`contents, this`commits
      ensures commits == old(commits) + [Commit(path, message, content, sha)]
      ensures exists newSha :: contents == old(contents)[path := [File(path, path, content, newSha)]]
    {
      var newSha: string :| true;
      contents := contents[path := [File(path, path, content, newSha)]];
      commits := commits + [Commit(path, message, content, sha)];
      var withCommit: bool :| true;
      if withCommit {
        var url: string :| true;
        r := CommitUrl(url);
      } else {
        r := NoCommitKey;
      }
    }

    /** `branch.get_protection()`: a 404 reads as no protection. */
    method GetProtection() returns (r: Remote<Option<Protection>>)
      ensures r == Failed || r == Ok(protection)
    {
      var fails: bool :| true;
      r := if fails then Failed else Ok(protection);
    }

    /** `branch.remove_protection()`; false for a non-404 failure, and a 404 when there is none. */
    method RemoveProtection() returns (ok: bool)
      modifies this`protection
      ensures old(protection).None? ==> ok
      ensures ok ==> protection == None
      ensures !ok ==> protection == old(protection)
    {
      ok :| true;
      if protection.None? {
        ok := true;
      }
      if ok {
        protection := None;
      }
    }

    /** `branch.edit_protection(...)`: None on success, or the message of the exception it raised. */
    method EditProtection(p: Protection) returns (failure: Option<string>)
      modifies this`protection
      ensures protection == if failure.None? then Some(p) else old(protection)
    {
      failure :| true;
      if failure.None? {
        protection := Some(p);
      }
    }

    /** GET `/rulesets`: the summaries, or None when the call fails. */
    method ListRulesets() returns (r: Option<seq<Ruleset>>)
      ensures r == None || r == Some(rulesets)
    {
      var fails: bool :| true;
      r := if fails then None else Some(rulesets);
    }

    /** GET `/rulesets/{id}` for a summary taken from the list. */
    method GetRulesetDetail(summary: Ruleset) returns (r: Option<Ruleset>)
      ensures r == None || r == Some(summary)
    {
      var fails: bool :| true;
      r := if fails then None else Some(summary);
    }

    /** POST `/rulesets`: the created ruleset (with a new id), or None. */
    method CreateRuleset(payload: Ruleset) returns (r: Option<Ruleset>)
      modifies this`rulesets
      ensures r.None? ==> rulesets == old(rulesets)
      ensures r.Some? ==> r.value == payload.(id := r.value.id) && r.value.id > 0 &&
                          rulesets == old(rulesets) + [r.value]
    {
      var fails: bool :| true;
      if fails {
        r := None;
      } else {
        var id: int :| id > 0;
        r := Some(payload.(id := id));
        rulesets := rulesets + [r.value];
      }
    }

    /** `get_vulnerability_alert()`: whether vulnerability alerts are on. */
    method GetVulnerabilityAlert() returns (enabled: bool)
      ensures enabled == vulnerabilityAlerts
    {
      enabled := vulnerabilityAlerts;
    }

    /** `enable_vulnerability_alert()`: true on success. */
    method EnableVulnerabilityAlert() returns (ok: bool)
      modifies this`vulnerabilityAlerts
      ensures vulnerabilityAlerts == (old(vulnerabilityAlerts) || ok)
    {
      ok :| true;
      if ok {
        vulnerabilityAlerts := true;
      }
    }

    /** `enable_automated_security_fixes()`: true on success. */
    method EnableAutomatedSecurityFixes() returns (ok: bool)
      modifies this`automatedSecurityFixes
      ensures automatedSecurityFixes == (old(automatedSecurityFixes) || ok)
    {
      ok :| true;
      if ok {
        automatedSecurityFixes := true;
      }
    }
  }
}
