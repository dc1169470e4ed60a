// The branch-protection reconciler (github_linter/tests/branch_protection.py):
// the desired state derived from the repository's languages and the module
// config, the two comparisons of actual against desired, the ruleset payload,
// and the two check and two fix commands over rulesets and legacy protection.
module BranchProtection {
  import opened Wrappers
  import opened Text
  import opened Config
  import opened Github
  import opened Filter
  import opened LintModules
  import Session

  const Category := "branch_protection"
  const WorkflowDir := ".github/workflows"

  // The settings in effect.

  /**
   * What the check and fix bodies read from `config["branch_protection"]`.
   * The module's pydantic `DEFAULT_CONFIG` never reaches the config (the
   * merge raises on it), so the `.get` fallbacks are the defaults in effect.
   */
  datatype Settings = Settings(enableProtection: bool, allowAdminBypass: bool, requirePr: bool, approvals: int,
                               dismissStale: bool, requireCodeOwner: bool, useRulesets: bool, migrate: bool,
                               warnOnMismatch: bool, languageChecks: map<string, seq<string>>)

  /** `config.get(key, default)` for an integer setting. */
  function IntSetting(section: Value, key: string, default: int): int
  {
    if section.Dict? && key in section.entries && section.entries[key].Int? then section.entries[key].i else default
  }

  /** A list of strings as a list; anything else as no checks. */
  function Strings(v: Value): seq<string>
  {
    if v.List? && forall i :: 0 <= i < |v.items| ==> v.items[i].Str? then
      seq(|v.items|, i requires 0 <= i < |v.items| && v.items[i].Str? => v.items[i].s)
    else []
  }

  /** `config.get("language_checks", {})`: language to check names. */
  function LanguageChecks(section: Value): map<string, seq<string>>
  {
    var checks := GetOr(section, "language_checks", Dict(map[]));
    if checks.Dict? then map k | k in checks.entries :: Strings(checks.entries[k]) else map[]
  }

  function SettingsOf(config: map<string, Value>): (r: Settings)
    ensures "branch_protection" !in config ==>
      r == Settings(true, true, true, 1, true, false, true, false, true, map[])
  {
    var section := if "branch_protection" in config then config["branch_protection"] else Dict(map[]);
    Settings(Flag(section, "enable_protection", true), Flag(section, "allow_admin_bypass", true),
             Flag(section, "require_pull_request", true), IntSetting(section, "required_approving_review_count", 1),
             Flag(section, "dismiss_stale_reviews", true), Flag(section, "require_code_owner_review", false),
             Flag(section, "use_rulesets", true), Flag(section, "migrate_to_rulesets", false),
             Flag(section, "warn_on_mismatch", true), LanguageChecks(section))
  }

  // Required and available status checks.

  function ChecksOf(languageChecks: map<string, seq<string>>, language: string): seq<string>
  {
    if language in languageChecks then languageChecks[language] else []
  }

  /** `_get_required_checks_for_repo`: each language's checks, first occurrence kept. */
  function RequiredChecks(languages: seq<string>, languageChecks: map<string, seq<string>>): seq<string>
    decreases |languages|
  {
    if languages == [] then []
    else AppendAllNew(RequiredChecks(languages[..|languages| - 1], languageChecks),
                      ChecksOf(languageChecks, languages[|languages| - 1]))
  }

  /** The required checks are exactly the checks configured for a repository language. */
  lemma {:induction false} RequiredChecksMembers(languages: seq<string>, languageChecks: map<string, seq<string>>, c: string)
    ensures c in RequiredChecks(languages, languageChecks) <==>
      exists i :: 0 <= i < |languages| && c in ChecksOf(languageChecks, languages[i])
    decreases |languages|
  {
    if languages != [] {
      var init := languages[..|languages| - 1];
      var checks := ChecksOf(languageChecks, languages[|languages| - 1]);
      RequiredChecksMembers(init, languageChecks, c);
      AppendAllNewMembers(RequiredChecks(init, languageChecks), checks, c);
      assert forall i :: 0 <= i < |init| ==> init[i] == languages[i];
      if c in checks {
        assert c in ChecksOf(languageChecks, languages[|languages| - 1]);
      }
    }
  }

  /** Each required check is listed once. */
  lemma {:induction false} RequiredChecksDistinct(languages: seq<string>, languageChecks: map<string, seq<string>>)
    ensures Distinct(RequiredChecks(languages, languageChecks))
    decreases |languages|
  {
    if languages != [] {
      var init := languages[..|languages| - 1];
      RequiredChecksDistinct(init, languageChecks);
      AppendAllNewKeepsDistinct(RequiredChecks(init, languageChecks), ChecksOf(languageChecks, languages[|languages| - 1]));
    }
  }

  /** The loop of `_get_required_checks_for_repo`. */
  method GetRequiredChecks(languages: seq<string>, languageChecks: map<string, seq<string>>) returns (required: seq<string>)
    ensures required == RequiredChecks(languages, languageChecks)
  {
    required := [];
    var i := 0;
    while i < |languages|
      invariant 0 <= i <= |languages|
      invariant required == RequiredChecks(languages[..i], languageChecks)
    {
      assert languages[..i + 1][..i] == languages[..i];
      var prior := required;
      if languages[i] in languageChecks {
        var checks := languageChecks[languages[i]];
        var j := 0;
        while j < |checks|
          invariant 0 <= j <= |checks|
          invariant required == AppendAllNew(prior, checks[..j])
        {
          AppendAllNewSnoc(prior, checks[..j], checks[j]);
          assert checks[..j + 1] == checks[..j] + [checks[j]];
          if checks[j] !in required {
            required := required + [checks[j]];
          }
          j := j + 1;
        }
        assert checks[..j] == checks;
      }
      i := i + 1;
    }
    assert languages[..i] == languages;
  }

  /**
   * A workflow file as the YAML parser reads it: not parsable, not a
   * mapping, or a mapping whose `jobs` mapping has these names (none when
   * `jobs` is missing or not a mapping).
   */
  datatype WorkflowDoc = Unparsable | NotMapping | Workflow(jobNames: seq<string>)

  /** The parser, from a file's text to its document; text it lacks does not parse. */
  type Parser = map<string, WorkflowDoc>

  function Parse(parser: Parser, text: string): WorkflowDoc
  {
    if text in parser then parser[text] else Unparsable
  }

  /** The job names one listed file contributes: only `.yml`/`.yaml` files that parse to a mapping. */
  function Jobs(f: File, parser: Parser): seq<string>
  {
    if (EndsWith(f.name, ".yml") || EndsWith(f.name, ".yaml")) && Parse(parser, f.content).Workflow? then
      Parse(parser, f.content).jobNames
    else []
  }

  /** `_get_available_checks_for_repo` over a listing, as a list of distinct names. */
  function AvailableChecks(files: seq<File>, parser: Parser): seq<string>
    decreases |files|
  {
    if files == [] then []
    else AppendAllNew(AvailableChecks(files[..|files| - 1], parser), Jobs(files[|files| - 1], parser))
  }

  /** The available checks are the job names of the workflow files. */
  lemma {:induction false} AvailableChecksMembers(files: seq<File>, parser: Parser, c: string)
    ensures c in AvailableChecks(files, parser) <==> exists i :: 0 <= i < |files| && c in Jobs(files[i], parser)
    decreases |files|
  {
    if files != [] {
      var init := files[..|files| - 1];
      var jobs := Jobs(files[|files| - 1], parser);
      AvailableChecksMembers(init, parser, c);
      AppendAllNewMembers(AvailableChecks(init, parser), jobs, c);
      assert forall i :: 0 <= i < |init| ==> init[i] == files[i];
      if c in jobs {
        assert c in Jobs(files[|files| - 1], parser);
      }
    }
  }

  /** Each available check is listed once. */
  lemma {:induction false} AvailableChecksDistinct(files: seq<File>, parser: Parser)
    ensures Distinct(AvailableChecks(files, parser))
    decreases |files|
  {
    if files != [] {
      var init := files[..|files| - 1];
      AvailableChecksDistinct(init, parser);
      AppendAllNewKeepsDistinct(AvailableChecks(init, parser), Jobs(files[|files| - 1], parser));
    }
  }

  /**
   * `_get_available_checks_for_repo`: the job names of the workflow files
   * under `.github/workflows`; nothing when the directory is missing or the
   * API fails.
   */
  method GetAvailableChecks(repo: Repository, parser: Parser) returns (available: seq<string>)
    ensures WorkflowDir !in repo.contents ==> available == []
    ensures available == [] || (WorkflowDir in repo.contents && available == AvailableChecks(repo.contents[WorkflowDir], parser))
  {
    var answer := repo.GetContents(WorkflowDir);
    if !answer.Listing? {
      return [];
    }
    var files := answer.items;
    available := [];
    var i := 0;
    assert files[..0] == [];
    while i < |files|
      invariant 0 <= i <= |files|
      invariant available == AvailableChecks(files[..i], parser)
    {
      assert files[..i + 1][..i] == files[..i];
      available := AppendNewJobs(available, Jobs(files[i], parser));
      i := i + 1;
    }
    assert files[..i] == files;
  }

  /** The loop that adds one workflow's jobs: each job not yet listed, in order. */
  method AppendNewJobs(prior: seq<string>, jobs: seq<string>) returns (available: seq<string>)
    ensures available == AppendAllNew(prior, jobs)
  {
    available := prior;
    var j := 0;
    assert jobs[..0] == [];
    while j < |jobs|
      invariant 0 <= j <= |jobs|
      invariant available == AppendAllNew(prior, jobs[..j])
    {
      AppendAllNewSnoc(prior, jobs[..j], jobs[j]);
      assert jobs[..j + 1] == jobs[..j] + [jobs[j]];
      if jobs[j] !in available {
        available := available + [jobs[j]];
      }
      j := j + 1;
    }
    assert jobs[..j] == jobs;
  }

  const ValidationAdvice := "These checks will be required for branch protection but may never pass if workflows don't exist. " +
                            "Update the 'language_checks' configuration or create matching workflow jobs."

  /** The one warning `_validate_required_checks` gives, if any. */
  function ValidationWarning(required: seq<string>, available: seq<string>): Option<string>
  {
    if required == [] then None
    else
      var missing := Without(required, available);
      if missing == [] then None
      else Some("Required status checks not found in workflow files: " + Join(Sort(missing), ", ") + " | " +
                (if available != [] then "Available checks in workflows: " + Join(Sort(available), ", ")
                 else "No workflow files found in .github/workflows/") + " | " + ValidationAdvice)
  }

  /** The warning is given exactly when some required check is not available. */
  lemma ValidationWarningWhen(required: seq<string>, available: seq<string>)
    ensures ValidationWarning(required, available).None? <==> forall c :: c in required ==> c in available
  {
    forall c ensures c in Without(required, available) <==> c in required && c !in available {
      WithoutMembers(required, available, c);
    }
    if ValidationWarning(required, available).Some? {
      var m := Without(required, available)[0];
      assert m in Without(required, available);
    }
  }

  function Warnings(required: seq<string>, available: seq<string>): seq<string>
  {
    var w := ValidationWarning(required, available);
    if w.Some? then [w.value] else []
  }

  // Rulesets for the default branch.

  /**
   * The filter of the check and fix bodies: a branch ruleset without
   * conditions, or with an include entry containing `refs/heads/<branch>`
   * or `<branch>`.
   */
  predicate TargetsBranch(rs: Ruleset, branch: string)
  {
    rs.target == "branch" &&
    (rs.conditions.None? ||
     exists i :: 0 <= i < |rs.conditions.value.includes| &&
       (Contains(rs.conditions.value.includes[i], "refs/heads/" + branch) || Contains(rs.conditions.value.includes[i], branch)))
  }

  /** Only the second substring test decides: the first implies it. */
  lemma TargetsBranchBySubstring(rs: Ruleset, branch: string)
    ensures TargetsBranch(rs, branch) <==>
      rs.target == "branch" &&
      (rs.conditions.None? || exists i :: 0 <= i < |rs.conditions.value.includes| && Contains(rs.conditions.value.includes[i], branch))
  {
    if rs.target == "branch" && rs.conditions.Some? {
      forall i | 0 <= i < |rs.conditions.value.includes| && Contains(rs.conditions.value.includes[i], "refs/heads/" + branch)
        ensures Contains(rs.conditions.value.includes[i], branch)
      {
        ContainsOfLonger(rs.conditions.value.includes[i], "refs/heads/", branch);
      }
    }
  }

  /** The filter is loose: a ruleset for `refs/heads/mainline` counts as one for `main`. */
  lemma TargetsBranchLoosely()
    ensures TargetsBranch(Ruleset(1, "mainline", "branch", "active", Some(Conditions(["refs/heads/mainline"], [])), [], []), "main")
  {
    var incl := "refs/heads/mainline";
    assert incl[11..15] == "main";
    ContainsPrefixOfSuffix(incl, "main", 11);
    var rs := Ruleset(1, "mainline", "branch", "active", Some(Conditions([incl], [])), [], []);
    assert rs.conditions.value.includes[0] == incl;
  }

  /** `default_branch_rulesets`, in listing order. */
  function DefaultBranchRulesets(rulesets: seq<Ruleset>, branch: string): seq<Ruleset>
    decreases |rulesets|
  {
    if rulesets == [] then []
    else DefaultBranchRulesets(rulesets[..|rulesets| - 1], branch) +
         (if TargetsBranch(rulesets[|rulesets| - 1], branch) then [rulesets[|rulesets| - 1]] else [])
  }

  lemma {:induction false} DefaultBranchRulesetsMembers(rulesets: seq<Ruleset>, branch: string, rs: Ruleset)
    ensures rs in DefaultBranchRulesets(rulesets, branch) <==> rs in rulesets && TargetsBranch(rs, branch)
    decreases |rulesets|
  {
    if rulesets != [] {
      DefaultBranchRulesetsMembers(rulesets[..|rulesets| - 1], branch, rs);
      assert rulesets == rulesets[..|rulesets| - 1] + [rulesets[|rulesets| - 1]];
    }
  }

  // The ruleset payload.

  const AdminBypassActors := [Actor(5, "RepositoryRole", "always")]

  /** The rules `_create_ruleset` sends: a pull request rule, then a status checks rule, each when asked for. */
  function PayloadRules(requirePr: bool, approvals: int, dismissStale: bool, requireCodeOwner: bool,
                        required: seq<string>): seq<Rule>
  {
    (if requirePr then [PullRequestRule(Some(approvals), dismissStale, requireCodeOwner, false, false)] else []) +
    (if required != [] then [StatusChecksRule(required, false)] else [])
  }

  /** The payload `_create_ruleset` posts for the default branch. */
  function RulesetPayload(branch: string, s: Settings, required: seq<string>): Ruleset
  {
    Ruleset(0, "Protect " + branch, "branch", "active", Some(Conditions(["refs/heads/" + branch], [])),
            PayloadRules(s.requirePr, s.approvals, s.dismissStale, s.requireCodeOwner, required),
            if s.allowAdminBypass then AdminBypassActors else [])
  }

  lemma PayloadShape(branch: string, s: Settings, required: seq<string>)
    ensures var p := RulesetPayload(branch, s, required);
      p.enforcement == "active" && p.conditions == Some(Conditions(["refs/heads/" + branch], [])) &&
      (exists i :: 0 <= i < |p.rules| && p.rules[i].PullRequestRule?) == s.requirePr &&
      (exists i :: 0 <= i < |p.rules| && p.rules[i].StatusChecksRule?) == (required != []) &&
      (s.requirePr ==> p.rules[0].PullRequestRule?) &&
      |p.rules| == (if s.requirePr then 1 else 0) + (if required != [] then 1 else 0) &&
      (p.bypassActors != [] <==> s.allowAdminBypass) &&
      TargetsBranch(p, branch)
  {
    var p := RulesetPayload(branch, s, required);
    ContainsItself("refs/heads/" + branch);
    assert p.conditions.value.includes[0] == "refs/heads/" + branch;
    if s.requirePr {
      assert p.rules[0].PullRequestRule?;
      if required != [] {
        assert p.rules[1].StatusChecksRule?;
      } else {
        assert p.rules == [p.rules[0]];
      }
    } else if required != [] {
      assert p.rules == [StatusChecksRule(required, false)];
      assert p.rules[0].StatusChecksRule?;
    } else {
      assert p.rules == [];
    }
  }

  // The two comparisons.

  /** The set comparison of both diff functions: nothing when the members agree. */
  function CheckSetDifferences(current: seq<string>, required: seq<string>): seq<string>
  {
    if SameMembers(current, required) then []
    else
      var missing := Without(required, current);
      var extra := Without(current, required);
      (if missing != [] then ["missing required checks: " + Join(missing, ", ")] else []) +
      (if extra != [] then ["extra checks not in config: " + Join(extra, ", ")] else [])
  }

  lemma CheckSetDifferencesEmpty(current: seq<string>, required: seq<string>)
    ensures CheckSetDifferences(current, required) == [] <==> SameMembers(current, required)
  {
    if !SameMembers(current, required) {
      if exists c :: c in required && c !in current {
        var c :| c in required && c !in current;
        WithoutMembers(required, current, c);
      } else {
        var c :| c in current && c !in required;
        WithoutMembers(current, required, c);
      }
    }
  }

  /**
   * The two lists the messages join: `set(required) - set(current)` and
   * `set(current) - set(required)`, each name once.
   */
  lemma CheckSetListsEachOnce(current: seq<string>, required: seq<string>)
    ensures Distinct(Without(required, current)) && Distinct(Without(current, required))
    ensures forall c :: c in Without(required, current) <==> c in required && c !in current
    ensures forall c :: c in Without(current, required) <==> c in current && c !in required
  {
    WithoutDistinct(required, current);
    WithoutDistinct(current, required);
    forall c ensures c in Without(required, current) <==> c in required && c !in current {
      WithoutMembers(required, current, c);
    }
    forall c ensures c in Without(current, required) <==> c in current && c !in required {
      WithoutMembers(current, required, c);
    }
  }

  /** The checks legacy protection requires: the newer `checks` format, else `contexts`. */
  function CurrentChecks(sc: StatusChecks): seq<string>
  {
    if sc.checks != [] then sc.checks else sc.contexts
  }

  /** `_check_protection_matches_config`'s differences. */
  function ProtectionDifferences(p: Protection, enforceAdmins: bool, requirePr: bool, approvals: int,
                                 required: seq<string>): seq<string>
  {
    (if p.enforceAdmins != enforceAdmins then
       ["enforce_admins: current=" + BoolToString(p.enforceAdmins) + ", expected=" + BoolToString(enforceAdmins)]
     else []) +
    (if !requirePr then []
     else if p.reviews.None? then ["pull request reviews not required"]
     else if p.reviews.value.approvals != approvals then
       ["required approvals: current=" + IntToString(p.reviews.value.approvals) + ", expected=" + IntToString(approvals)]
     else []) +
    (if p.statusChecks.Some? then CheckSetDifferences(CurrentChecks(p.statusChecks.value), required)
     else if required != [] then ["no status checks configured, expected: " + Join(required, ", ")]
     else [])
  }

  /** Legacy protection matches when admins are enforced as asked, the reviews and the check set agree. */
  lemma ProtectionMatches(p: Protection, enforceAdmins: bool, requirePr: bool, approvals: int, required: seq<string>)
    ensures ProtectionDifferences(p, enforceAdmins, requirePr, approvals, required) == [] <==>
      p.enforceAdmins == enforceAdmins &&
      (requirePr ==> p.reviews.Some? && p.reviews.value.approvals == approvals) &&
      (if p.statusChecks.Some? then SameMembers(CurrentChecks(p.statusChecks.value), required) else required == [])
  {
    if p.statusChecks.Some? {
      CheckSetDifferencesEmpty(CurrentChecks(p.statusChecks.value), required);
    }
  }

  /** `next(r for r in rules if r["type"] == t)`. */
  function FirstRule(rules: seq<Rule>, t: string): (r: Option<Rule>)
    ensures r.Some? ==> r.value in rules && r.value.RuleType() == t
    ensures r.None? ==> forall i :: 0 <= i < |rules| ==> rules[i].RuleType() != t
  {
    if rules == [] then None
    else if rules[0].RuleType() == t then Some(rules[0])
    else FirstRule(rules[1..], t)
  }

  /** `parameters.get("required_approving_review_count", 0)`. */
  function RuleApprovals(r: Rule): int
  {
    if r.PullRequestRule? then r.approvals.GetOr(0) else 0
  }

  /** The `context` of each `required_status_checks` entry. */
  function RuleContexts(r: Rule): seq<string>
  {
    if r.StatusChecksRule? then r.contexts else []
  }

  predicate HasAdminBypass(actors: seq<Actor>)
  {
    exists i :: 0 <= i < |actors| && actors[i].actorType == "RepositoryRole" && actors[i].actorId == 5
  }

  /** `_check_ruleset_matches_config`'s differences. */
  function RulesetDifferences(rs: Ruleset, requirePr: bool, approvals: int, required: seq<string>,
                              allowAdminBypass: bool): seq<string>
  {
    var pr := FirstRule(rs.rules, "pull_request");
    var status := FirstRule(rs.rules, "required_status_checks");
    var hasBypass := HasAdminBypass(rs.bypassActors);
    (if !requirePr then []
     else if pr.None? then ["pull request rule not found"]
     else if RuleApprovals(pr.value) != approvals then
       ["required approvals: current=" + IntToString(RuleApprovals(pr.value)) + ", expected=" + IntToString(approvals)]
     else []) +
    (if required == [] then []
     else if status.None? then ["required status checks rule not found"]
     else CheckSetDifferences(RuleContexts(status.value), required)) +
    (if allowAdminBypass && !hasBypass then ["admin bypass not configured (repository admin role not in bypass_actors)"]
     else if !allowAdminBypass && hasBypass then ["admin bypass enabled but config has allow_admin_bypass=False"]
     else [])
  }

  /** A ruleset matches when its first rules of each kind agree and admin bypass is as allowed, in both directions. */
  lemma RulesetMatches(rs: Ruleset, requirePr: bool, approvals: int, required: seq<string>, allowAdminBypass: bool)
    ensures RulesetDifferences(rs, requirePr, approvals, required, allowAdminBypass) == [] <==>
      (requirePr ==> FirstRule(rs.rules, "pull_request").Some? &&
                     RuleApprovals(FirstRule(rs.rules, "pull_request").value) == approvals) &&
      (required != [] ==> FirstRule(rs.rules, "required_status_checks").Some? &&
                          SameMembers(RuleContexts(FirstRule(rs.rules, "required_status_checks").value), required)) &&
      HasAdminBypass(rs.bypassActors) == allowAdminBypass
  {
    var status := FirstRule(rs.rules, "required_status_checks");
    if required != [] && status.Some? {
      CheckSetDifferencesEmpty(RuleContexts(status.value), required);
    }
  }

  /** The ruleset the fix creates satisfies the ruleset comparison of the check. */
  lemma CreatedRulesetMatches(branch: string, s: Settings, required: seq<string>, id: int)
    ensures RulesetDifferences(RulesetPayload(branch, s, required).(id := id), s.requirePr, s.approvals, required,
                               s.allowAdminBypass) == []
  {
    var p := RulesetPayload(branch, s, required).(id := id);
    if s.requirePr && required != [] {
      assert p.rules[1].RuleType() == "required_status_checks";
    }
    if s.allowAdminBypass {
      assert p.bypassActors[0] == Actor(5, "RepositoryRole", "always");
    }
    RulesetMatches(p, s.requirePr, s.approvals, required, s.allowAdminBypass);
  }

  /** The legacy protection the fix asks for. */
  function LegacyProtection(s: Settings, required: seq<string>): Protection
  {
    Protection(!s.allowAdminBypass,
               if s.requirePr then Some(Reviews(s.approvals, s.dismissStale, s.requireCodeOwner)) else None,
               if required != [] then Some(StatusChecks(required, [], false)) else None)
  }

  /** The legacy protection the fix asks for satisfies the legacy comparison of the check. */
  lemma CreatedProtectionMatches(s: Settings, required: seq<string>)
    ensures ProtectionDifferences(LegacyProtection(s, required), !s.allowAdminBypass, s.requirePr, s.approvals, required) == []
  {
    ProtectionMatches(LegacyProtection(s, required), !s.allowAdminBypass, s.requirePr, s.approvals, required);
  }

  // Remote reads.

  /**
   * `_get_rulesets`: the detail of each listed ruleset that has an id, in
   * listing order; a failed detail is skipped and a failed listing gives none.
   */
  method GetRulesets(repo: Repository) returns (r: seq<Ruleset>)
    ensures IsSubsequence(r, repo.rulesets)
    ensures forall k :: 0 <= k < |r| ==> r[k].id != 0
  {
    var listing := repo.ListRulesets();
    if listing.None? {
      return [];
    }
    var summaries := listing.value;
    r := [];
    var i := 0;
    while i < |summaries|
      invariant 0 <= i <= |summaries|
      invariant IsSubsequence(r, summaries[..i])
      invariant forall k :: 0 <= k < |r| ==> r[k].id != 0
    {
      assert summaries[..i + 1][..i] == summaries[..i];
      if summaries[i].id != 0 {
        var detail := repo.GetRulesetDetail(summaries[i]);
        if detail.Some? {
          assert (r + [detail.value])[..|r|] == r;
          r := r + [detail.value];
        }
      }
      i := i + 1;
    }
    assert summaries[..i] == summaries;
  }

  /** What a subsequence holds, the whole holds. */
  lemma {:induction false} SubsequenceMembers(a: seq<Ruleset>, b: seq<Ruleset>, x: Ruleset)
    requires IsSubsequence(a, b) && x in a
    ensures x in b
    decreases |b|
  {
    if a[|a| - 1] == b[|b| - 1] && IsSubsequence(a[..|a| - 1], b[..|b| - 1]) {
      if x != a[|a| - 1] {
        assert a == a[..|a| - 1] + [a[|a| - 1]];
        SubsequenceMembers(a[..|a| - 1], b[..|b| - 1], x);
      }
    } else {
      SubsequenceMembers(a, b[..|b| - 1], x);
    }
  }

  /** What the check and fix bodies gather before they decide. */
  datatype Observation = Observation(required: seq<string>, available: seq<string>, seen: seq<Ruleset>,
                                     protection: Remote<Option<Protection>>)

  const Unobserved := Observation([], [], [], Ok(None))

  /** `obs` is a possible answer of the remote reads for this repository and these settings. */
  predicate Observed(obs: Observation, repo: Repository, s: Settings, parser: Parser)
    reads repo
  {
    obs.required == RequiredChecks(repo.languages, s.languageChecks) &&
    (WorkflowDir !in repo.contents ==> obs.available == []) &&
    (obs.available == [] || (WorkflowDir in repo.contents && obs.available == AvailableChecks(repo.contents[WorkflowDir], parser))) &&
    IsSubsequence(obs.seen, repo.rulesets) && (!s.useRulesets ==> obs.seen == []) &&
    (obs.protection == Failed || obs.protection == Ok(repo.protection))
  }

  /** The reads shared by `check_default_branch_protection` and `fix_default_branch_protection`. */
  method Observe(repo: Repository, s: Settings, parser: Parser) returns (obs: Observation)
    ensures Observed(obs, repo, s, parser)
  {
    var required := GetRequiredChecks(repo.languages, s.languageChecks);
    var available := GetAvailableChecks(repo, parser);
    var seen := [];
    if s.useRulesets {
      seen := GetRulesets(repo);
    }
    var protection := repo.GetProtection();
    obs := Observation(required, available, seen, protection);
  }

  // What the commands record.


  /** The mismatch message for one ruleset, if it differs from the config. */
  function RulesetMismatch(rs: Ruleset, s: Settings, branch: string, required: seq<string>): (r: seq<string>)
    ensures |r| <= 1
    ensures r == [] <==> RulesetDifferences(rs, s.requirePr, s.approvals, required, s.allowAdminBypass) == []
  {
    var differences := RulesetDifferences(rs, s.requirePr, s.approvals, required, s.allowAdminBypass);
    if differences != [] then [MismatchMessage("Ruleset '" + rs.name + "'", branch, differences)] else []
  }

  /** "<what> on '<branch>' doesn't match config: <differences>". */
  function MismatchMessage(what: string, branch: string, differences: seq<string>): string
  {
    what + " on '" + branch + "' doesn't match config: " + Join(differences, "; ")
  }

  /** The mismatch messages for the default-branch rulesets, in order. */
  function RulesetMismatches(rulesets: seq<Ruleset>, s: Settings, branch: string, required: seq<string>): seq<string>
    decreases |rulesets|
  {
    if rulesets == [] then []
    else RulesetMismatches(rulesets[..|rulesets| - 1], s, branch, required) +
         RulesetMismatch(rulesets[|rulesets| - 1], s, branch, required)
  }

  /** At most one message per ruleset. */
  lemma {:induction false} RulesetMismatchesCount(rulesets: seq<Ruleset>, s: Settings, branch: string, required: seq<string>)
    ensures |RulesetMismatches(rulesets, s, branch, required)| <= |rulesets|
    decreases |rulesets|
  {
    if rulesets != [] {
      RulesetMismatchesCount(rulesets[..|rulesets| - 1], s, branch, required);
    }
  }

  /** No message exactly when every ruleset matches the config. */
  lemma {:induction false} RulesetMismatchesNone(rulesets: seq<Ruleset>, s: Settings, branch: string, required: seq<string>)
    ensures RulesetMismatches(rulesets, s, branch, required) == [] <==>
      forall i :: 0 <= i < |rulesets| ==> RulesetMismatch(rulesets[i], s, branch, required) == []
    decreases |rulesets|
  {
    if rulesets != [] {
      var init := rulesets[..|rulesets| - 1];
      RulesetMismatchesNone(init, s, branch, required);
      var prior := RulesetMismatches(init, s, branch, required);
      var last := RulesetMismatch(rulesets[|rulesets| - 1], s, branch, required);
      assert RulesetMismatches(rulesets, s, branch, required) == prior + last;
      if forall i :: 0 <= i < |rulesets| ==> RulesetMismatch(rulesets[i], s, branch, required) == [] {
        forall i | 0 <= i < |init| ensures RulesetMismatch(init[i], s, branch, required) == [] {
          assert init[i] == rulesets[i];
        }
        assert prior == [] && last == [];
      } else {
        var k :| 0 <= k < |rulesets| && RulesetMismatch(rulesets[k], s, branch, required) != [];
        if k < |init| {
          assert init[k] == rulesets[k];
          assert prior != [];
        } else {
          assert k == |rulesets| - 1;
        }
      }
    }
  }

  /** What `check_default_branch_protection` records once both reads have answered. */
  function CheckDefaultRun(s: Settings, branch: string, obs: Observation, protection: Option<Protection>): CommandRun
  {
    var validation := Warnings(obs.required, obs.available);
    if obs.seen == [] && protection.None? then
      CommandRun(Filed(Category, ["No protection configured on default branch '" + branch +
                             "' (neither rulesets nor legacy branch protection)"]),
                 Filed(Category, validation), [], Completed)
    else
      var rulesetMismatches := RulesetMismatches(DefaultBranchRulesets(obs.seen, branch), s, branch, obs.required);
      var legacyNote :=
        if protection.Some? && s.useRulesets && obs.seen == [] then
          if s.migrate then
            ["Repository uses legacy branch protection on '" + branch + "' - migration enabled, run with --fix to migrate to rulesets"]
          else
            ["Repository uses legacy branch protection on '" + branch + "' - consider enabling migration with 'migrate_to_rulesets: true' in config"]
        else [];
      var legacyDifferences :=
        if protection.Some? then ProtectionDifferences(protection.value, !s.allowAdminBypass, s.requirePr, s.approvals, obs.required)
        else [];
      var legacyMismatch :=
        if legacyDifferences != [] then
          [MismatchMessage("Legacy branch protection", branch, legacyDifferences)]
        else [];
      if s.warnOnMismatch then
        CommandRun([], Filed(Category, validation + rulesetMismatches + legacyNote + legacyMismatch), [], Completed)
      else
        CommandRun(Filed(Category, rulesetMismatches + legacyMismatch), Filed(Category, validation + legacyNote), [], Completed)
  }

  /** What `check_default_branch_protection` records, from the archived flag on. */
  function CheckDefaultProtectionRun(archived: bool, s: Settings, branch: string, obs: Observation): CommandRun
  {
    if archived then CommandRun([], [], [], SkipOnArchived)
    else if !s.enableProtection then Quiet
    else if obs.protection.Failed? then CommandRun([], Filed(Category, Warnings(obs.required, obs.available)), [], Raised)
    else CheckDefaultRun(s, branch, obs, obs.protection.value)
  }

  /** With neither mechanism in place the check records exactly one error. */
  lemma UnprotectedIsOneError(s: Settings, branch: string, obs: Observation)
    requires s.enableProtection && obs.seen == [] && obs.protection == Ok(None)
    ensures |CheckDefaultProtectionRun(false, s, branch, obs).errors| == 1
  {
  }

  /** The check never records a fix, and with `warn_on_mismatch` a present mechanism never yields an error. */
  lemma CheckDefaultRecordsNoFix(archived: bool, s: Settings, branch: string, obs: Observation)
    ensures CheckDefaultProtectionRun(archived, s, branch, obs).fixes == []
    ensures s.warnOnMismatch && (obs.seen != [] || obs.protection != Ok(None)) ==>
      CheckDefaultProtectionRun(archived, s, branch, obs).errors == []
  {
  }

  /**
   * With matching protection, every default-branch ruleset matching, all
   * required checks available, and rulesets either in use or not wanted,
   * the check records nothing.
   */
  lemma CheckDefaultQuiet(s: Settings, branch: string, obs: Observation, p: Protection)
    requires s.enableProtection && obs.protection == Ok(Some(p))
    requires forall c :: c in obs.required ==> c in obs.available
    requires ProtectionDifferences(p, !s.allowAdminBypass, s.requirePr, s.approvals, obs.required) == []
    requires forall i :: 0 <= i < |DefaultBranchRulesets(obs.seen, branch)| ==>
      RulesetDifferences(DefaultBranchRulesets(obs.seen, branch)[i], s.requirePr, s.approvals, obs.required, s.allowAdminBypass) == []
    requires obs.seen != [] || !s.useRulesets
    ensures CheckDefaultProtectionRun(false, s, branch, obs) == CommandRun([], [], [], Completed)
  {
    ValidationWarningWhen(obs.required, obs.available);
    var covering := DefaultBranchRulesets(obs.seen, branch);
    RulesetMismatchesNone(covering, s, branch, obs.required);
    assert forall i :: 0 <= i < |covering| ==> RulesetMismatch(covering[i], s, branch, obs.required) == [];
  }

  /**
   * `check_default_branch_protection`. It reads and never writes. The
   * reads happen before anything is recorded; only the sinks can observe
   * the order, and they are written after.
   */
  method CheckDefaultBranchProtection(linter: Session.RepoLinter, parser: Parser)
    returns (signal: Signal, obs: Observation)
    modifies linter`errors, linter`warnings, linter`fixes
    ensures var s := SettingsOf(linter.config);
      var run := CheckDefaultProtectionRun(linter.repository.archived, s, linter.repository.defaultBranch, obs);
      signal == run.signal &&
      Results(linter.errors, linter.warnings, linter.fixes) == Apply(old(Results(linter.errors, linter.warnings, linter.fixes)), run) &&
      (!linter.repository.archived && s.enableProtection ==> Observed(obs, linter.repository, s, parser))
  {
    obs := Unobserved;
    var skip := linter.SkipOnArchived();
    var s := SettingsOf(linter.config);
    if !skip && s.enableProtection {
      obs := Observe(linter.repository, s, parser);
    }
    var run := CheckDefaultProtectionRun(skip, s, linter.repository.defaultBranch, obs);
    linter.Perform(run);
    signal := run.signal;
  }

  /** What `check_legacy_protection_cleanup` records. */
  function CheckCleanupRun(archived: bool, s: Settings, branch: string, seen: seq<Ruleset>,
                           protection: Remote<Option<Protection>>): CommandRun
  {
    if archived then CommandRun([], [], [], SkipOnArchived)
    else if !s.enableProtection || !s.migrate || !s.useRulesets then Quiet
    else if protection.Failed? then CommandRun([], [], [], Raised)
    else if seen != [] && protection.value.Some? && DefaultBranchRulesets(seen, branch) != [] then
      CommandRun([], Filed(Category, ["Legacy branch protection still exists on '" + branch +
                                 "' alongside rulesets - run with --fix to remove legacy protection"]), [], Completed)
    else Quiet
  }

  /** `check_legacy_protection_cleanup`: reads only when migration and rulesets are both on. */
  method CheckLegacyProtectionCleanup(linter: Session.RepoLinter)
    returns (signal: Signal, seen: seq<Ruleset>, protection: Remote<Option<Protection>>)
    modifies linter`errors, linter`warnings, linter`fixes
    ensures var s := SettingsOf(linter.config);
      var run := CheckCleanupRun(linter.repository.archived, s, linter.repository.defaultBranch, seen, protection);
      signal == run.signal &&
      Results(linter.errors, linter.warnings, linter.fixes) == Apply(old(Results(linter.errors, linter.warnings, linter.fixes)), run) &&
      IsSubsequence(seen, linter.repository.rulesets) &&
      (!linter.repository.archived && s.enableProtection && s.migrate && s.useRulesets ==>
         protection == Failed || protection == Ok(linter.repository.protection))
  {
    seen, protection := [], Ok(None);
    var skip := linter.SkipOnArchived();
    var s := SettingsOf(linter.config);
    if !skip && s.enableProtection && s.migrate && s.useRulesets {
      seen := GetRulesets(linter.repository);
      protection := linter.repository.GetProtection();
    }
    var run := CheckCleanupRun(skip, s, linter.repository.defaultBranch, seen, protection);
    linter.Perform(run);
    signal := run.signal;
  }

  // The fixes.

  /** The four states of the default branch feed one decision. */
  datatype FixAction = NoFix | Migrate | NewRuleset | NewLegacy

  /** What `fix_default_branch_protection` does, given what it saw. */
  function ChooseFix(s: Settings, seen: seq<Ruleset>, protection: Option<Protection>): FixAction
  {
    if s.migrate && protection.Some? && seen == [] && s.useRulesets then Migrate
    else if seen != [] || protection.Some? then NoFix
    else if s.useRulesets then NewRuleset
    else NewLegacy
  }

  /**
   * The fix writes nothing exactly when some ruleset was seen, or legacy
   * protection exists and migration is not asked for; so a run right after
   * one that created protection writes nothing.
   */
  lemma ChooseFixIdle(s: Settings, seen: seq<Ruleset>, protection: Option<Protection>)
    ensures ChooseFix(s, seen, protection) == NoFix <==>
      seen != [] || (protection.Some? && !(s.migrate && s.useRulesets))
    ensures ChooseFix(s, seen, protection) == Migrate ==> protection.Some? && seen == []
    ensures ChooseFix(s, seen, protection) in {NewRuleset, NewLegacy} ==> protection.None? && seen == []
  {
  }

  /** What the remote writes of the fix returned. */
  datatype FixOutcome = FixOutcome(created: Option<Ruleset>, removed: bool, editFailure: Option<string>)

  const NoWrites := FixOutcome(None, false, None)

  /** The action the fix takes, from the archived flag on; a failed protection read raises before any. */
  function FixActionOf(archived: bool, s: Settings, obs: Observation): FixAction
  {
    if archived || !s.enableProtection || obs.protection.Failed? then NoFix
    else ChooseFix(s, obs.seen, obs.protection.value)
  }

  /** `"; ".join(rules_desc) if rules_desc else "basic protection"`. */
  function Described(parts: seq<string>): string
  {
    if parts != [] then Join(parts, "; ") else "basic protection"
  }

  function RulesDescription(s: Settings, required: seq<string>): seq<string>
  {
    (if s.requirePr then ["require " + IntToString(s.approvals) + " approval(s)"] else []) +
    (if required != [] then ["required checks: " + Join(required, ", ")] else [])
  }

  /** What `fix_default_branch_protection` records. */
  function FixDefaultProtectionRun(archived: bool, s: Settings, branch: string, obs: Observation, outcome: FixOutcome): CommandRun
  {
    if archived then CommandRun([], [], [], SkipOnArchived)
    else if !s.enableProtection then Quiet
    else
      var validation := Filed(Category, Warnings(obs.required, obs.available));
      if obs.protection.Failed? then CommandRun([], validation, [], Raised)
      else match ChooseFix(s, obs.seen, obs.protection.value)
        case NoFix => CommandRun([], validation, [], Completed)
        case Migrate =>
          if outcome.created.None? then
            CommandRun(Filed(Category, ["Failed to migrate '" + branch + "' to rulesets"]), validation, [], Completed)
          else if outcome.removed then
            CommandRun([], validation, Filed(Category, ["Migrated '" + branch + "' from legacy branch protection to ruleset '" +
                                                   outcome.created.value.name + "' and removed legacy protection"]), Completed)
          else
            CommandRun([], validation, Filed(Category, ["Created ruleset '" + outcome.created.value.name + "' for '" + branch +
                                                   "' but failed to remove legacy protection (manual cleanup required)"]), Completed)
        case NewRuleset =>
          if outcome.created.None? then
            CommandRun(Filed(Category, ["Failed to create ruleset for '" + branch + "'"]), validation, [], Completed)
          else
            CommandRun([], validation, Filed(Category, ["Created ruleset '" + outcome.created.value.name + "' for '" + branch +
                                                   "' with " + Described(RulesDescription(s, obs.required))]), Completed)
        case NewLegacy =>
          if outcome.editFailure.Some? then
            CommandRun(Filed(Category, ["Failed to enable branch protection: " + outcome.editFailure.value]), validation, [], Completed)
          else
            CommandRun([], validation,
                       Filed(Category, ["Enabled legacy branch protection on '" + branch + "' with " +
                                   Described((if !s.allowAdminBypass then ["admin bypass"] else []) + RulesDescription(s, obs.required))]),
                       Completed)
  }

  /** The remote state after the fix, against the state before it. */
  predicate FixEffect(action: FixAction, payload: Ruleset, legacy: Protection, outcome: FixOutcome,
                      oldRulesets: seq<Ruleset>, oldProtection: Option<Protection>,
                      rulesets: seq<Ruleset>, protection: Option<Protection>)
  {
    (outcome.created.Some? ==> action in {Migrate, NewRuleset} && outcome.created.value == payload.(id := outcome.created.value.id)) &&
    (outcome.removed ==> action == Migrate && outcome.created.Some?) &&
    (outcome.editFailure.Some? ==> action == NewLegacy) &&
    rulesets == (if outcome.created.Some? then oldRulesets + [outcome.created.value] else oldRulesets) &&
    protection == (if outcome.removed then None
                   else if action == NewLegacy && outcome.editFailure.None? then Some(legacy)
                   else oldProtection)
  }

  /** Legacy protection is only ever removed right after a ruleset for the default branch was created. */
  lemma FixRemovesOnlyAfterCreating(action: FixAction, branch: string, s: Settings, required: seq<string>, outcome: FixOutcome,
                                    oldRulesets: seq<Ruleset>, oldProtection: Option<Protection>,
                                    rulesets: seq<Ruleset>, protection: Option<Protection>)
    requires FixEffect(action, RulesetPayload(branch, s, required), LegacyProtection(s, required), outcome,
                       oldRulesets, oldProtection, rulesets, protection)
    requires oldProtection.Some? && protection.None?
    ensures |rulesets| == |oldRulesets| + 1 && TargetsBranch(rulesets[|rulesets| - 1], branch)
  {
    PayloadShape(branch, s, required);
    var created := outcome.created.value;
    assert created.target == "branch" && created.conditions == RulesetPayload(branch, s, required).conditions;
  }

  /** `_create_ruleset` for the default branch. */
  method CreateProtectionRuleset(repo: Repository, s: Settings, required: seq<string>) returns (created: Option<Ruleset>)
    modifies repo`rulesets
    ensures created.Some? ==> created.value == RulesetPayload(repo.defaultBranch, s, required).(id := created.value.id)
    ensures repo.rulesets == if created.Some? then old(repo.rulesets) + [created.value] else old(repo.rulesets)
  {
    created := repo.CreateRuleset(RulesetPayload(repo.defaultBranch, s, required));
  }

  /**
   * `fix_default_branch_protection`: migrate legacy protection (create the
   * ruleset, then delete legacy protection only if creation returned one),
   * or create protection where there is none, or leave existing protection
   * alone.
   */
  method FixDefaultBranchProtection(linter: Session.RepoLinter, parser: Parser)
    returns (signal: Signal, obs: Observation, outcome: FixOutcome)
    modifies linter`errors, linter`warnings, linter`fixes, linter.repository`rulesets, linter.repository`protection
    ensures var s := SettingsOf(linter.config);
      var branch := linter.repository.defaultBranch;
      var run := FixDefaultProtectionRun(linter.repository.archived, s, branch, obs, outcome);
      signal == run.signal &&
      Results(linter.errors, linter.warnings, linter.fixes) == Apply(old(Results(linter.errors, linter.warnings, linter.fixes)), run) &&
      (!linter.repository.archived && s.enableProtection ==> old(Observed(obs, linter.repository, s, parser))) &&
      FixEffect(FixActionOf(linter.repository.archived, s, obs), RulesetPayload(branch, s, obs.required),
                LegacyProtection(s, obs.required), outcome,
                old(linter.repository.rulesets), old(linter.repository.protection),
                linter.repository.rulesets, linter.repository.protection)
  {
    var repo := linter.repository;
    obs, outcome := Unobserved, NoWrites;
    var skip := linter.SkipOnArchived();
    var s := SettingsOf(linter.config);
    if !skip && s.enableProtection {
      obs := Observe(repo, s, parser);
      if obs.protection.Ok? {
        outcome := Reconcile(repo, s, obs);
      }
    }
    var run := FixDefaultProtectionRun(skip, s, repo.defaultBranch, obs, outcome);
    linter.Perform(run);
    signal := run.signal;
  }

  /** The writes of `fix_default_branch_protection` once it has decided. */
  method Reconcile(repo: Repository, s: Settings, obs: Observation) returns (outcome: FixOutcome)
    requires obs.protection.Ok?
    modifies repo`rulesets, repo`protection
    ensures FixEffect(ChooseFix(s, obs.seen, obs.protection.value), RulesetPayload(repo.defaultBranch, s, obs.required),
                      LegacyProtection(s, obs.required), outcome,
                      old(repo.rulesets), old(repo.protection), repo.rulesets, repo.protection)
  {
    outcome := NoWrites;
    match ChooseFix(s, obs.seen, obs.protection.value)
    case NoFix =>
    case Migrate =>
      var created := CreateProtectionRuleset(repo, s, obs.required);
      if created.Some? {
        var removed := repo.RemoveProtection();
        outcome := FixOutcome(created, removed, None);
      } else {
        outcome := FixOutcome(None, false, None);
      }
    case NewRuleset =>
      var created := CreateProtectionRuleset(repo, s, obs.required);
      outcome := FixOutcome(created, false, None);
    case NewLegacy =>
      var failure := repo.EditProtection(LegacyProtection(s, obs.required));
      outcome := FixOutcome(None, false, failure);
  }

  /** What `fix_legacy_protection_cleanup` records; `removed` is what the delete returned. */
  function FixCleanupRun(archived: bool, s: Settings, branch: string, seen: seq<Ruleset>,
                         protection: Remote<Option<Protection>>, removed: bool): CommandRun
  {
    if archived then CommandRun([], [], [], SkipOnArchived)
    else if !s.enableProtection || !s.migrate || !s.useRulesets then Quiet
    else if protection.Failed? then CommandRun([], [], [], Raised)
    else if seen == [] || protection.value.None? || DefaultBranchRulesets(seen, branch) == [] then Quiet
    else if removed then
      CommandRun([], [], Filed(Category, ["Removed legacy branch protection from '" + branch + "' (rulesets already in place)"]), Completed)
    else
      CommandRun(Filed(Category, ["Failed to remove legacy branch protection from '" + branch + "'"]), [], [], Completed)
  }

  /** The cleanup deletes legacy protection only when a ruleset it saw covers the default branch. */
  predicate CleanupDeletes(archived: bool, s: Settings, branch: string, seen: seq<Ruleset>, protection: Remote<Option<Protection>>)
  {
    !archived && s.enableProtection && s.migrate && s.useRulesets && protection.Ok? && protection.value.Some? &&
    seen != [] && DefaultBranchRulesets(seen, branch) != []
  }

  /** `fix_legacy_protection_cleanup`. */
  method FixLegacyProtectionCleanup(linter: Session.RepoLinter)
    returns (signal: Signal, seen: seq<Ruleset>, protection: Remote<Option<Protection>>, removed: bool)
    modifies linter`errors, linter`warnings, linter`fixes, linter.repository`protection
    ensures var s := SettingsOf(linter.config);
      var branch := linter.repository.defaultBranch;
      var run := FixCleanupRun(linter.repository.archived, s, branch, seen, protection, removed);
      signal == run.signal &&
      Results(linter.errors, linter.warnings, linter.fixes) == Apply(old(Results(linter.errors, linter.warnings, linter.fixes)), run) &&
      IsSubsequence(seen, linter.repository.rulesets) &&
      (!linter.repository.archived && s.enableProtection && s.migrate && s.useRulesets ==>
         protection == Failed || protection == Ok(old(linter.repository.protection))) &&
      (removed ==> CleanupDeletes(linter.repository.archived, s, branch, seen, protection)) &&
      linter.repository.protection == (if removed then None else old(linter.repository.protection))
  {
    var repo := linter.repository;
    seen, protection, removed := [], Ok(None), false;
    var skip := linter.SkipOnArchived();
    var s := SettingsOf(linter.config);
    if !skip && s.enableProtection && s.migrate && s.useRulesets {
      seen := GetRulesets(repo);
      protection := repo.GetProtection();
      if CleanupDeletes(skip, s, repo.defaultBranch, seen, protection) {
        removed := repo.RemoveProtection();
      }
    }
    var run := FixCleanupRun(skip, s, repo.defaultBranch, seen, protection, removed);
    linter.Perform(run);
    signal := run.signal;
  }

  /** A cleanup that deletes leaves a ruleset for the default branch in the repository. */
  lemma CleanupLeavesRuleset(s: Settings, branch: string, seen: seq<Ruleset>, rulesets: seq<Ruleset>,
                             protection: Remote<Option<Protection>>)
    requires CleanupDeletes(false, s, branch, seen, protection) && IsSubsequence(seen, rulesets)
    ensures exists i :: 0 <= i < |rulesets| && TargetsBranch(rulesets[i], branch)
  {
    var covering := DefaultBranchRulesets(seen, branch);
    DefaultBranchRulesetsMembers(seen, branch, covering[0]);
    SubsequenceMembers(seen, rulesets, covering[0]);
    var i :| 0 <= i < |rulesets| && rulesets[i] == covering[0];
  }
}
