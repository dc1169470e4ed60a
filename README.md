# github_linter, modelled in Dafny

A model of the core of github_linter, a tool that walks GitHub repositories
and runs per-module `check_*` and `fix_*` commands against each one. Every
module files its findings as errors, warnings and fixes, each under a
category. The remote repository is an abstract state: a map from path to
directory listing, an ordered language list, an archived flag, the legacy
branch protection, the rulesets, the two vulnerability flags and a log of
the commits the fixes make. YAML, TOML and HCL parsers are abstract maps
from text to a parsed value, and rendered templates are inputs.

The model follows the program's structure:

- `wrappers.dfy`, `text.dfy`, `pydict.dfy`: Option/Result, the string helpers
  the program relies on (prefix tests, substring search, lower-casing, sorting),
  and insertion-ordered dictionaries.
- `sinks.dfy`: the result sinks (category to an ordered, duplicate-free list
  of messages) and `add_result`.
- `config.dfy`: configuration values and the recursive default merge
  `add_from_dict`.
- `filter.dfy`, `languages.dfy`, `lintmodule.dfy`: the command filters
  (`get_filtered_commands`, `get_filtered_checks`), the language gate, and what
  `run_module` does with a module: merge its defaults, gate it, run its
  commands in sorted order with every check before every fix, and swallow the
  archived skip.
- `github.dfy`: the remote repository as a class whose fields the API calls
  change.
- `session.dfy`: the per-repository session `RepoLinter` of
  `github_linter/repolinter.py`, a class with the file cache and the three
  sinks as fields. Every module command of the newer convention observes the
  repository through it, computes a `CommandRun` (the messages it records and
  how it ends) by a pure function, and hands it to `Perform`. `Possible` and
  `CacheFrom` say which answers a cached read may give.
- `legacy_session.dfy`, `github_linter.dfy`, `result_objects.dfy`: the older
  `RepoLinter` and `GithubLinter` of `github_linter/__init__.py` (rate limits,
  report, `handle_repo`), and the older convention in which a check is handed
  the `GithubLinter` and two result objects and files into them in place.
- `branch_protection.dfy`: the required and available status checks, the
  ruleset payload, the two diff functions, the default-branch ruleset filter,
  the check, and the fix state machine whose safety rule is that legacy
  protection is removed only after a ruleset was created.
- `dependabot_constants.dfy`, `dependabot_types.dfy`, `dependabot_utils.dfy`,
  `dependabot.dfy`: the ecosystem table, the field validators, the loader and
  the coverage check and fixes of `github_linter/tests/dependabot/`.
- `dependabot_legacy.dfy`: the older `github_linter/tests/dependabot.py`.
  Its rebase validators refuse every update entry, as the package's do, so a
  loaded file has no updates and its checks report them missing.
- `loaders.dfy`, `github_actions.dfy`, `mkdocs.dfy`, `codeowners.dfy`,
  `security_md.dfy`, `docs.dfy`, `homebrew.dfy`: the file-presence and
  template modules of the newer convention. The older
  `github_linter/tests/mkdocs.py` holds `needs_mkdocs_workflow`,
  `check_mkdocs_workflow_exists` and `fix_missing_mkdocs_workflow` word for
  word as `mkdocs/__init__.py` has them, and no `check_github_metadata`; the
  `Mkdocs` members for those three model both files, and `Mkdocs.Members`
  lists the package's names.
- `generic.dfy`, `issues.dfy`, `testing.dfy`, `terraform.dfy`, `toml.dfy`,
  `pyproject.dfy`: the modules of the older convention. `toml.dfy` holds
  parsed TOML values and the Python operations the pyproject checks apply to
  them.

Where a command can raise, its `CommandRun` ends in `Raised` and keeps what
was recorded before the exception.

## Model

| member | source | states |
|---|---|---|
| Text.Lower | github_linter/repolinter.py:220-223 | `str.lower()` keeps the length and lowers each ASCII letter, position by position |
| Text.BeforeFirst | github_linter/tests/pyproject.py:123 | `s.split(sep)[0]` is a prefix of `s` with no separator in it, followed in `s` by the separator when shorter |
| Text.AppendNew | github_linter/repolinter.py:47-48 | appending a name only when absent leaves it present and adds no other name |
| Text.AppendAllNewMembers | github_linter/tests/branch_protection.py:63-68 | gathering names without repeats holds exactly the names of the prior list and of the new ones |
| Text.AppendAllNewKeepsDistinct | github_linter/tests/branch_protection.py:63-68 | gathering names without repeats keeps a repeat-free list repeat-free |
| Text.WithoutMembers | github_linter/tests/branch_protection.py:167 | a set difference holds a name exactly when the first list holds it and the second does not |
| Text.WithoutDistinct | github_linter/tests/branch_protection.py:490-491 | a set difference lists each name once, however often the inputs repeat it |
| Text.Sort | github_linter/repolinter.py:294 | `sorted()` returns a sorted permutation of its input |
| Text.SortKeepsMembers | github_linter/repolinter.py:294 | sorting neither adds nor drops a name |
| Text.InsertSorted | github_linter/repolinter.py:294 | inserting into a sorted list keeps it sorted (the step of `sorted()`) |
| Text.ChecksSortBeforeFixes | github_linter/repolinter.py:294-309 | in a sorted list of names every `check_` name precedes every `fix_` name |
| PyDict.Get | github_linter/repolinter.py:230-231 | `d.get(k)` finds a value exactly when `k` is a key of the dict |
| PyDict.PutGet | github_linter/__init__.py:106-108 | after `d[k] = v`, `k` maps to `v` and every other key maps to what it did |
| PyDict.PutKeys | github_linter/__init__.py:106-108 | assignment keeps the order of the keys and appends a new key at the end |
| PyDict.PutUniqueKeys | github_linter/__init__.py:106-108 | assignment never makes a key occur twice |
| Sinks.AddedMessages | github_linter/repolinter.py:228-234 | `add_result` appends the value to its category's list when not yet listed, leaves other categories alone and appends a new category to the keys |
| Sinks.AddedIdempotent | github_linter/repolinter.py:232-233 | filing the same result twice equals filing it once |
| Sinks.AddedAllMessages | github_linter/repolinter.py:228-234 | filing several values under one category gathers them without repeats, other categories unchanged |
| Sinks.AddedAllNothing | github_linter/repolinter.py:228-234 | filing no value leaves the sink as it was |
| Sinks.AddedKeepsDuplicateFree | github_linter/repolinter.py:230-233 | no category list ever holds a value twice |
| Config.AddFromDictKeepsExisting | github_linter/repolinter.py:21-31 | `add_from_dict` never replaces a value already in `dest`; it only merges into nested dicts |
| Config.AddFromDictFillsMissing | github_linter/repolinter.py:25-28 | keys `dest` lacks take the default, and no key outside source and dest appears |
| Config.AddFromDictSelf | github_linter/repolinter.py:21-31 | merging a mapping into itself changes nothing |
| Config.AddFromDictIdempotent | github_linter/repolinter.py:21-31 | merging the same defaults twice equals merging them once |
| Config.StringItems | github_linter/tests/codeowners.py:53 | a list's items are read as strings exactly when every item is a string, item for item; `join` raises otherwise |
| Config.CharactersJoin | github_linter/tests/mkdocs/__init__.py:31 | the one-character strings that iterating a `str` yields spell it again |
| Filter.GetFilteredCommands | github_linter/repolinter.py:34-50 | no filter returns the list as it is; otherwise the loop returns `FilteredCommands` |
| Filter.FilteredCommandsMembers | github_linter/repolinter.py:43-48 | a name is selected exactly when it is listed and some filter is its prefix or matches it as a wildcard |
| Filter.FilteredCommandsDistinct | github_linter/repolinter.py:47 | no name is returned twice, even when several filters select it |
| Filter.FilteredCommandsInOrder | github_linter/repolinter.py:43-48 | the result is a subsequence of the input list, in its order |
| Filter.GetFilteredChecks | github_linter/__init__.py:56-67 | the older filter: no filter returns the list as it is; otherwise one copy per prefix filter that selects a name |
| Filter.FilteredChecksRepeats | github_linter/__init__.py:62-66 | the older filter returns a name twice when two filters are prefixes of it |
| Filter.FilteredCommandsOnce | github_linter/repolinter.py:45-47 | the newer filter returns that name once for the same input |
| Languages.LowerAll | github_linter/repolinter.py:220 | each repository language lowered, in order |
| Languages.ModuleLanguageCheck | github_linter/repolinter.py:208-225 | true exactly when the module lists "all" or any of its languages equals a repository language ignoring case |
| Languages.AppliesIgnoresCase | github_linter/repolinter.py:222-224 | a module language that differs from a repository language only in case passes the gate |
| Languages.UpperAllIsNotAll | github_linter/repolinter.py:217-224 | a module listing only "ALL" passes only when the repository has a language spelled "all" in some case |
| LintModules.Filed | github_linter/repolinter.py:236-249 | the texts become messages of one category, in order |
| LintModules.ApplyAllSnoc | github_linter/repolinter.py:294-309 | the results of one more call are that call's records applied to the results so far |
| LintModules.LoadModuleConfig | github_linter/repolinter.py:251-265 | no default leaves the config as it is; the module's section is the only key that may be added, and no other section changes |
| LintModules.ModelDefaultRaises | github_linter/repolinter.py:260-265 | a pydantic default with fields makes the merge raise, after the empty section was created |
| LintModules.LoadModuleConfigIdempotent | github_linter/repolinter.py:251-265 | loading a mapping default twice equals loading it once |
| LintModules.NotBothPrefixes | github_linter/repolinter.py:295-304 | no name starts with both `check_` and `fix_`, so no name is called twice in one step |
| LintModules.PlanMembers | github_linter/repolinter.py:294-309 | a name is called exactly when it is a `check_` name, or a `fix_` name with fixes on |
| LintModules.PlanPrefix | github_linter/repolinter.py:294-309 | the calls for a prefix of the names are a prefix of all calls |
| LintModules.PlanSorted | github_linter/repolinter.py:294 | names called from the sorted list are called in sorted order |
| LintModules.ChecksRunBeforeFixes | github_linter/repolinter.py:294-309 | every `check_` call comes before every `fix_` call |
| LintModules.UntilStopped | github_linter/repolinter.py:297-309 | the calls made are a prefix of the plan in which only the last may stop the run, and all of it when none stops |
| LintModules.UntilStoppedAll | github_linter/repolinter.py:301-309 | when no call raises beyond `SkipOnArchived`, every planned call is made |
| LintModules.UntilStoppedAt | github_linter/repolinter.py:297-309 | the first call that raises is the last one made |
| LintModules.SortedStopHidesLater | github_linter/repolinter.py:294-309 | in a sorted plan, no command sorting after one that stops the run is called |
| LintModules.CallEach | github_linter/repolinter.py:294-309 | the loop makes exactly the calls `UntilStopped` of the plan, reports whether the last raised, and gathers exactly their results |
| Github.Repository.constructor | github_linter/repolinter.py:62 | the repository handle the session works on, with no commit made yet |
| Github.Repository.GetContents | github_linter/repolinter.py:175 | `get_contents(path)` gives the stored listing, a 404 for a path with none, or an API failure |
| Github.Repository.UpdateFile | github_linter/repolinter.py:142-148 | `update_file` stores the new content at the path and appends exactly one commit with the given message and sha |
| Github.CommittedSnoc | github_linter/repolinter.py:142-148 | one more `update_file` extends what a sequence of commits wrote |
| Github.Repository.GetProtection | github_linter/tests/branch_protection.py:382 | `get_protection()` reads the branch protection, or fails |
| Github.Repository.RemoveProtection | github_linter/tests/branch_protection.py:413 | `remove_protection()` succeeds when there is none; on success no protection is left, on failure nothing changes |
| Github.Repository.EditProtection | github_linter/tests/branch_protection.py:871 | `edit_protection(...)` stores the protection on success and nothing on failure |
| Github.Repository.ListRulesets | github_linter/tests/branch_protection.py:220 | GET `/rulesets` returns the stored summaries or fails |
| Github.Repository.GetRulesetDetail | github_linter/tests/branch_protection.py:239 | GET `/rulesets/{id}` returns the detail of a listed ruleset or fails |
| Github.Repository.CreateRuleset | github_linter/tests/branch_protection.py:346-354 | POST `/rulesets` appends the payload under a new positive id, or changes nothing |
| Github.Repository.GetVulnerabilityAlert | github_linter/tests/dependabot/__init__.py:281 | `get_vulnerability_alert()` reads the flag |
| Github.Repository.EnableVulnerabilityAlert | github_linter/tests/dependabot/__init__.py:287 | `enable_vulnerability_alert()` turns the flag on when it succeeds and never off |
| Github.Repository.EnableAutomatedSecurityFixes | github_linter/tests/dependabot/__init__.py:295 | `enable_automated_security_fixes()` turns the flag on when it succeeds and never off |
| Session.CommitMessage | github_linter/repolinter.py:124-125 | a non-empty message is used as given; otherwise the default names the path |
| Session.CacheFromTrans | github_linter/repolinter.py:81-110 | two stretches of cached reads compose when the files outside the written paths stayed the same |
| Session.PossibleFrom | github_linter/repolinter.py:81-110 | a read from a cache of known provenance is a possible read of the earlier state |
| Session.RepoLinter.constructor | github_linter/repolinter.py:56-72 | a session holds the repository and the loaded config, with empty sinks and an empty file cache |
| Session.RepoLinter.ClearFileCache | github_linter/repolinter.py:74-79 | returns whether the path was cached, and it no longer is |
| Session.RepoLinter.GetFiles | github_linter/repolinter.py:172-188 | the listing at the path, None for a 404 or an empty answer, or a failure for any other API error |
| Session.RepoLinter.GetFile | github_linter/repolinter.py:190-206 | the first file of the listing, if any, or a failure |
| Session.RepoLinter.CachedGetFile | github_linter/repolinter.py:81-110 | a cached answer comes back without a fetch unless the cache is cleared; a fetch caches the file found; a failed fetch returns None and caches nothing |
| Session.RepoLinter.CreateOrUpdateFile | github_linter/repolinter.py:112-152 | no commit and None when the old file already holds the content; otherwise one commit against the old file's sha (or "") and a commit url |
| Session.RepoLinter.ModuleLanguageCheck | github_linter/repolinter.py:208-225 | the language gate against the repository's languages |
| Session.RepoLinter.Error | github_linter/repolinter.py:236-239 | files the message in the errors sink only |
| Session.RepoLinter.Warning | github_linter/repolinter.py:246-249 | files the message in the warnings sink only |
| Session.RepoLinter.Fix | github_linter/repolinter.py:241-244 | files the message in the fixes sink only |
| Session.RepoLinter.Perform | github_linter/repolinter.py:236-249 | records one command's errors, warnings and fixes, each in its order |
| Session.RepoLinter.LoadModuleConfig | github_linter/repolinter.py:251-265 | the config after the merge of the module's defaults, and whether the merge raised |
| Session.RepoLinter.SkipOnArchived | github_linter/repolinter.py:268-273 | raises exactly for an archived repository |
| Session.RepoLinter.RunModule | github_linter/repolinter.py:275-313 | merge first; a raising merge or a closed language gate calls nothing; otherwise the sorted selected names are called until one raises, and the sinks hold exactly those calls' results |
| Session.RepoLinter.RunSelected | github_linter/repolinter.py:294-313 | the sorted, filtered names are called until one raises, returning whether the loop ended early |
| Session.RepoLinter.CallAll | github_linter/repolinter.py:294-309 | `SkipOnArchived` is swallowed and any other exception ends the loop; the sinks gain exactly the results of the calls made |
| LegacySession.RepoLinter.constructor | github_linter/__init__.py:285-301 | an older session holds the repository and the loaded config, with empty sinks and cache |
| LegacySession.RepoLinter.GetFile | github_linter/__init__.py:317-336 | the first file of the listing, None for a 404 or empty answer; any other failure propagates |
| LegacySession.RepoLinter.CachedGetFile | github_linter/__init__.py:303-315 | memoised with no invalidation; a failure caches nothing |
| LegacySession.RepoLinter.ModuleLanguageCheck | github_linter/__init__.py:338-355 | the same language gate as the newer session |
| LegacySession.RepoLinter.AddError | github_linter/__init__.py:367-369 | `add_result` into the errors sink |
| LegacySession.RepoLinter.AddWarning | github_linter/__init__.py:371-373 | `add_result` into the warnings sink |
| LegacySession.RepoLinter.RunModule | github_linter/__init__.py:376-399 | a closed gate calls nothing; otherwise every `check_` name of the older filter is called, as often as listed, until one raises (nothing is caught) |
| LegacySession.RepoLinter.CallChecks | github_linter/__init__.py:393-398 | the loop makes exactly those calls and the sinks gain exactly their results |
| GithubLinters.TimedeltaSeconds | github_linter/__init__.py:124-134 | `timedelta.seconds` is below a day and equals the delta for a delta within one day |
| GithubLinters.SleepForIsMax | github_linter/__init__.py:110-143 | the sleep is at least every triggered limiter's wait and is one of them, or 0 |
| GithubLinters.SleepForUntriggered | github_linter/__init__.py:121 | with no limiter at or below its floor there is no wait |
| GithubLinters.CheckRateLimits | github_linter/__init__.py:110-143 | the loop over `RATELIMIT_TYPES` returns the largest wait of a triggered limiter, each wait taken as written: the seconds component of `reset - now`, so a reset 10 s past gives 86390 s |
| GithubLinters.SleepAfterPassedReset | github_linter/__init__.py:124-134 | as written, a core limit exhausted and reset ten seconds ago makes the driver sleep 86390 seconds |
| GithubLinters.UntilReset | github_linter/__init__.py:124 | the intended wait: the time until the reset, none once it has passed |
| GithubLinters.IntendedSleepBounded | github_linter/__init__.py:117-143 | with the intended wait, the sleep is the latest reset of a triggered limiter, or 0 |
| GithubLinters.IntendedSleepAfterPassedReset | github_linter/__init__.py:124-134 | with the intended wait, a passed reset means no sleep |
| GithubLinters.CategoryLines | github_linter/__init__.py:155 | one line `category - message` per message, in order |
| GithubLinters.SinkLinesEmpty | github_linter/__init__.py:153-159 | a sink prints no line exactly when every category list is empty |
| GithubLinters.SinkLinesHasMessage | github_linter/__init__.py:153-158 | every message of every category is printed |
| GithubLinters.ErrorLines | github_linter/__init__.py:162 | each line logged as an error, in order |
| GithubLinters.WarningLines | github_linter/__init__.py:163 | each line logged as a warning, in order |
| GithubLinters.ReportLinesOk | github_linter/__init__.py:145-165 | a repository "checks out OK" exactly when no category holds an error or warning; otherwise a heading and one line per message |
| GithubLinters.OlderPossibleFrom | github_linter/__init__.py:237-246 | for the commented-out `cached_get_file` the model restores: a read from a repository cache of known provenance is a possible read of the earlier cache |
| GithubLinters.OlderReadFacts | github_linter/__init__.py:242-246 | for the commented-out `cached_get_file` the model restores: one read through a repository's cache gives a possible answer and keeps or fetches every entry |
| GithubLinters.GithubLinter.constructor | github_linter/__init__.py:73-84 | the driver holds the loaded config, no current repository, an empty report, no modules and an empty cache |
| GithubLinters.GithubLinter.CachedGetFile | github_linter/__init__.py:223-246 | the commented-out method, restored (the live class at lines 70-201 has none): no current repository raises; otherwise the repository's own cache is created when missing, and a path is fetched once and kept |
| GithubLinters.GithubLinter.AddModule | github_linter/__init__.py:106-108 | registering a name again replaces its module in place |
| GithubLinters.GithubLinter.DisplayReport | github_linter/__init__.py:145-165 | the lines logged, repository by repository in report order |
| GithubLinters.GithubLinter.HandleRepo | github_linter/__init__.py:167-201 | a fresh older session holding the loaded config runs the registered modules in order until one raises, and its sinks are exactly the `ModulesRun` fold of their runs; it returns exactly when none raised, and then the report holds those errors and warnings under the repository's name and the sleep is the as-written rate-limit wait; otherwise the report is unchanged |
| GithubLinters.ModulesRunAborted | github_linter/__init__.py:186-192 | the fold over the modules aborts exactly when some registered module's run raises |
| GithubLinters.ModulesRunSnoc | github_linter/__init__.py:186-192 | after modules that returned, one more module adds the records of its own calls and aborts as it does |
| GithubLinters.ModulesRunStopped | github_linter/__init__.py:186-192 | once a module has raised, the modules registered after it change nothing |
| GithubLinters.ModulesRunSilent | github_linter/__init__.py:186-201 | when no registered command records an error or a warning, the report holds the sinks the session started with |
| GithubLinters.ApplyAllSilent | github_linter/__init__.py:189 | calls that record no error and no warning leave those sinks as they were |
| GithubLinters.RunRegistered | github_linter/__init__.py:189 | the older `run_module` of the next module extends the sinks and the answer by one step of the fold |
| GithubLinters.RunModules | github_linter/__init__.py:186-192 | the loop over the registered modules leaves the sinks and the answer of the whole fold |
| ResultObjects.ResultObject.constructor | github_linter/__init__.py:299-300 | a result object starts empty |
| ResultObjects.ResultObject.AddResult | github_linter/__init__.py:358-365 | `add_result` on the object in place |
| ResultObjects.ResultObject.AddAll | github_linter/__init__.py:358-365 | each message through `add_result`, in order |
| ResultObjects.Deliver | github_linter/tests/terraform.py:73-129 | a check's warnings then its errors reach the two objects, and both lists reach one object passed twice |
| Loaders.LoadYaml | github_linter/loaders.py:11-28 | no file gives `{}`; a truthy document is always the parse of the file's non-empty text |
| Loaders.LoadYamlFile | github_linter/loaders.py:17 | the read goes through the file cache, whose provenance is kept |
| BranchProtection.SettingsOf | github_linter/tests/branch_protection.py:580-591 | with no `branch_protection` section every setting takes the `.get` fallback of the code (one approval, migration off) |
| BranchProtection.RequiredChecksMembers | github_linter/tests/branch_protection.py:47-77 | a check is required exactly when it is configured for one of the repository's languages |
| BranchProtection.RequiredChecksDistinct | github_linter/tests/branch_protection.py:66-68 | each required check is listed once |
| BranchProtection.GetRequiredChecks | github_linter/tests/branch_protection.py:58-77 | the loop returns exactly `RequiredChecks` of the languages |
| BranchProtection.AvailableChecksMembers | github_linter/tests/branch_protection.py:104-128 | a check is available exactly when it is a job name of some workflow file |
| BranchProtection.AvailableChecksDistinct | github_linter/tests/branch_protection.py:93-123 | the available checks form a set: no name twice |
| BranchProtection.GetAvailableChecks | github_linter/tests/branch_protection.py:80-143 | a missing `.github/workflows` or a failing API gives none; otherwise the job names of the YAML workflow files |
| BranchProtection.AppendNewJobs | github_linter/tests/branch_protection.py:120-123 | one workflow's jobs are added, each that is not yet listed |
| BranchProtection.ValidationWarningWhen | github_linter/tests/branch_protection.py:146-189 | the warning is given exactly when some required check is not available |
| BranchProtection.TargetsBranchBySubstring | github_linter/tests/branch_protection.py:614-625 | a ruleset targets the default branch exactly when it targets branches and has no conditions or an include containing the branch name |
| BranchProtection.TargetsBranchLoosely | github_linter/tests/branch_protection.py:621 | the substring test counts a ruleset for `refs/heads/mainline` as one for `main` |
| BranchProtection.DefaultBranchRulesetsMembers | github_linter/tests/branch_protection.py:614-625 | the filtered list holds exactly the fetched rulesets that target the default branch |
| BranchProtection.PayloadShape | github_linter/tests/branch_protection.py:308-343 | the payload is active, includes `refs/heads/<branch>` only, has a pull-request rule iff asked, a status-checks rule iff checks are required, admin bypass iff allowed, and targets the branch |
| BranchProtection.CheckSetDifferencesEmpty | github_linter/tests/branch_protection.py:489-495 | no difference is reported exactly when the current and required check sets agree |
| BranchProtection.CheckSetListsEachOnce | github_linter/tests/branch_protection.py:489-495 | the missing and extra lists hold exactly the two set differences, each name once |
| BranchProtection.ProtectionMatches | github_linter/tests/branch_protection.py:437-499 | legacy protection matches exactly when admins are enforced as asked, the approvals agree when reviews are required, and the check sets agree |
| BranchProtection.FirstRule | github_linter/tests/branch_protection.py:527 | `next(...)` gives a rule of that type from the list, or None when there is none |
| BranchProtection.RulesetMatches | github_linter/tests/branch_protection.py:502-563 | a ruleset matches exactly when its first rule of each needed kind agrees and admin bypass is as allowed, in both directions |
| BranchProtection.CreatedRulesetMatches | github_linter/tests/branch_protection.py:282-343 | the ruleset the fix creates passes the check's ruleset comparison |
| BranchProtection.CreatedProtectionMatches | github_linter/tests/branch_protection.py:856-871 | the legacy protection the fix asks for passes the check's legacy comparison |
| BranchProtection.GetRulesets | github_linter/tests/branch_protection.py:200-263 | the details returned are listed rulesets, in listing order, each with an id; failures drop entries |
| BranchProtection.Observe | github_linter/tests/branch_protection.py:592-600 | the reads shared by check and fix: required and available checks, rulesets when in use, and the legacy protection |
| BranchProtection.RulesetMismatch | github_linter/tests/branch_protection.py:636-651 | one message for a ruleset exactly when it differs from the config |
| BranchProtection.RulesetMismatchesCount | github_linter/tests/branch_protection.py:635-651 | at most one message per ruleset |
| BranchProtection.RulesetMismatchesNone | github_linter/tests/branch_protection.py:635-651 | no message exactly when every default-branch ruleset matches |
| BranchProtection.UnprotectedIsOneError | github_linter/tests/branch_protection.py:602-607 | with neither rulesets nor legacy protection the check records exactly one error |
| BranchProtection.CheckDefaultRecordsNoFix | github_linter/tests/branch_protection.py:644-685 | the check never records a fix, and with `warn_on_mismatch` a present mechanism never yields an error |
| BranchProtection.CheckDefaultQuiet | github_linter/tests/branch_protection.py:566-685 | matching protection, matching rulesets and available checks make the check record nothing |
| BranchProtection.CheckDefaultBranchProtection | github_linter/tests/branch_protection.py:566-685 | reads only; the sinks gain exactly the run computed from the observed state |
| BranchProtection.CheckLegacyProtectionCleanup | github_linter/tests/branch_protection.py:688-740 | reads only when migration and rulesets are on; the sinks gain exactly the computed run |
| BranchProtection.ChooseFixIdle | github_linter/tests/branch_protection.py:783-821 | the fix writes nothing exactly when a ruleset was seen or legacy protection exists without migration; migration only when legacy protection exists and no ruleset; creation only when there is neither |
| BranchProtection.FixRemovesOnlyAfterCreating | github_linter/tests/branch_protection.py:797-809 | legacy protection is removed only after a ruleset for the default branch was created |
| BranchProtection.CreateProtectionRuleset | github_linter/tests/branch_protection.py:282-367 | a created ruleset is the payload under its new id, appended to the repository's rulesets |
| BranchProtection.FixDefaultBranchProtection | github_linter/tests/branch_protection.py:743-896 | the sinks gain exactly the computed run, and the repository changes exactly by the chosen action's effect |
| BranchProtection.Reconcile | github_linter/tests/branch_protection.py:783-896 | the writes of the fix once it has chosen: migrate, create a ruleset, set legacy protection, or nothing |
| BranchProtection.FixLegacyProtectionCleanup | github_linter/tests/branch_protection.py:899-966 | deletes legacy protection only when migration is on and a default-branch ruleset exists; the sinks gain exactly the computed run |
| BranchProtection.CleanupLeavesRuleset | github_linter/tests/branch_protection.py:924-957 | a cleanup that deletes leaves a ruleset for the default branch in place |
| DependabotConstants.EcosystemTableKeys | github_linter/tests/dependabot/constants.py:12-28 | the ecosystem table has fifteen distinct keys |
| DependabotConstants.EcosystemTableLanguages | github_linter/tests/dependabot/constants.py:12-28 | only cargo, pip and terraform list a language (rust, python, HCL) |
| DependabotConstants.ServesExplicit | github_linter/tests/dependabot/utils.py:21-24 | a row serves a language exactly when the lowered language is its lowered entry |
| DependabotConstants.TableLanguagesLowered | github_linter/tests/dependabot/utils.py:22 | the table's languages lowered are rust, python and hcl |
| DependabotConstants.LookupUnambiguous | github_linter/tests/dependabot/constants.py:12-28 | no language is served by two ecosystems, so the first match is the only one |
| DependabotTypes.DayAsWrittenAcceptsAnything | github_linter/tests/dependabot/types.py:51-59 | as written the day validator accepts every value, "funday" included |
| DependabotTypes.ValidateDayWhen | github_linter/tests/dependabot/types.py:51-59 | the corrected validator accepts exactly no day or a weekday, and keeps it |
| DependabotTypes.RebaseStrategyAlwaysRejected | github_linter/tests/dependabot/types.py:144-159 | as written both validators run on `rebase_strategy` with disjoint allowed sets, so every value is refused, "auto" included |
| DependabotTypes.IntendedStrategiesAccepted | github_linter/tests/dependabot/types.py:144-159 | corrected: the rebase strategy accepts exactly "disabled" or "auto", and the execution permission exactly "deny" or "allow" |
| DependabotTypes.ScheduleFields | github_linter/tests/dependabot/types.py:13-59 | a schedule is accepted exactly when it gives all four fields: a known interval, a day and a time that are strings or null, and a known timezone; the day is never checked, and the accepted schedule holds the values as given |
| DependabotTypes.ScheduleNeedsEveryField | github_linter/tests/dependabot/types.py:17-19 | a schedule that leaves out its day, time or timezone is refused, since those fields have no default: none of `{interval: monthly}`, `{interval: daily}`, `{interval: weekly, day: monday}` and `{interval: weekly}` loads |
| DependabotTypes.IntendedIntervalAlone | tests/test_dependabot.py:21-38 | with `day`, `time` and `timezone` defaulting to None, a known interval alone validates, as that interval with no other field |
| DependabotTypes.IntendedBadDayRejected | tests/test_dependabot.py:14-18 | with the defaults, a given non-empty day that is not a weekday still refuses the schedule |
| DependabotTypes.IntendedScheduleTests | tests/test_dependabot.py:14-38 | with the defaults, the four schedules the tests validate are accepted and `{interval: monthly, day: lol}` is refused |
| DependabotTypes.UnknownIntervalRejected | github_linter/tests/dependabot/types.py:21-29 | an interval outside daily, weekly and monthly refuses the schedule |
| DependabotTypes.CommitMessageInclude | github_linter/tests/dependabot/types.py:64-84 | a commit message is accepted exactly when it gives both prefixes as strings or null and `include: scope`, and it then keeps that include |
| DependabotTypes.UpdateFields | github_linter/tests/dependabot/types.py:102-159 | no update entry is ever accepted; once its other fields pass, it is refused for its rebase strategy: as missing when left out, by the execution-permission check for "disabled" or "auto", by the rebase check for null or any other string |
| DependabotTypes.UnknownEcosystemRejected | github_linter/tests/dependabot/types.py:136-141 | an ecosystem outside the table refuses the update |
| DependabotTypes.UpdatesRefused | github_linter/tests/dependabot/types.py:166 | one refused entry refuses the whole list |
| DependabotTypes.UpdatesAcceptedOnlyEmpty | github_linter/tests/dependabot/types.py:166 | a list of updates is accepted exactly when it is empty, and is then the empty list |
| DependabotTypes.ConfigFileFields | github_linter/tests/dependabot/types.py:162-172 | a config file is accepted exactly when it is a mapping with an integer version and an empty list of updates, and it then holds that version and no update |
| DependabotTypes.DumpUpdates | github_linter/tests/dependabot/__init__.py:311 | each update dumped by alias, in order |
| DependabotTypes.ScheduleRoundTrip | github_linter/tests/dependabot/__init__.py:311-317 | a dumped schedule validates again exactly when it had a day and a time (a dump leaves out null fields, which are required), and then gives back the same schedule |
| DependabotTypes.CommitMessageRoundTrip | github_linter/tests/dependabot/__init__.py:311-317 | a dumped commit message validates again exactly when both prefixes were given, and then gives back the same message |
| DependabotUtils.FirstServingIsFirst | github_linter/tests/dependabot/utils.py:19-25 | the lookup returns the key of the first row serving the language, and None only when no row serves it |
| DependabotUtils.EcosystemOfExplicit | github_linter/tests/dependabot/utils.py:19-25 | rust finds cargo, python finds pip, HCL finds terraform, in any case; nothing else finds an ecosystem |
| DependabotUtils.LookupIgnoresCase | github_linter/tests/dependabot/utils.py:22-23 | two spellings that lower alike find the same ecosystem |
| DependabotUtils.LookupFindsOnlyServing | github_linter/tests/dependabot/utils.py:21-24 | only an ecosystem that lists a language is found, never github-actions, and "Go" finds nothing |
| DependabotUtils.FindLanguageInEcosystem | github_linter/tests/dependabot/utils.py:19-25 | the loop returns exactly `EcosystemOf(language)` |
| DependabotUtils.LoaderErrors | github_linter/tests/dependabot/utils.py:56-58 | the loader records one parse error, under the given category, exactly when the file does not parse |
| DependabotUtils.ParseOutcomes | github_linter/tests/dependabot/utils.py:33-59 | a missing file loads as nothing and records nothing; a read file loads exactly when its text parses to a mapping with an integer version and an empty list of updates, as that version with no update; every other read file is unparsable |
| DependabotUtils.ReadConfigFile | github_linter/tests/dependabot/utils.py:33 | the configured path is read through the file cache |
| DependabotUtils.LoadDependabotConfigFile | github_linter/tests/dependabot/utils.py:28-59 | the configured path read through the cache, then parsed and validated as `ParseOutcomes` states, keeping the cache's provenance |
| Dependabot.ModuleNeverGated | github_linter/tests/dependabot/__init__.py:23-25 | the module lists "all", so the language gate never closes |
| Dependabot.DefaultsLoad | github_linter/tests/dependabot/__init__.py:46-54 | without a dependabot section the defaults load: `.github/dependabot.yml` and the weekly Monday schedule |
| Dependabot.RequiredMembers | github_linter/tests/dependabot/__init__.py:108-112 | an ecosystem is required exactly when some repository language finds it |
| Dependabot.RequiredAreServing | github_linter/tests/dependabot/__init__.py:108-112 | every required ecosystem is cargo, pip or terraform |
| Dependabot.RequiredPackageManagers | github_linter/tests/dependabot/__init__.py:101-112 | the loop returns exactly `Required(languages)` |
| Dependabot.ExpectedUpdatesShape | github_linter/tests/dependabot/__init__.py:66-85 | one update per required ecosystem, in order, naming it and carrying the configured schedule; it fails only when one is needed and no schedule is configured |
| Dependabot.NoGithubActionsExpected | github_linter/tests/dependabot/__init__.py:66-85 | the generated config never has a github-actions entry |
| Dependabot.GenerateExpectedUpdateConfig | github_linter/tests/dependabot/__init__.py:66-85 | the loop returns exactly `ExpectedUpdates` |
| Dependabot.RequiredPrefix | github_linter/tests/dependabot/__init__.py:108-115 | once a prefix of the languages requires something, the whole list does |
| Dependabot.CoveredMembers | github_linter/tests/dependabot/__init__.py:122-139 | an ecosystem is covered exactly when it is required and some update names it |
| Dependabot.CoveredPackageManagers | github_linter/tests/dependabot/__init__.py:122-139 | the loop returns exactly `Covered` |
| Dependabot.UncoveredMembers | github_linter/tests/dependabot/__init__.py:144-148 | an ecosystem is uncovered exactly when required and not covered |
| Dependabot.NeedsManagers | github_linter/tests/dependabot/__init__.py:149-152 | one "needs to be configured" text per manager, in order |
| Dependabot.CoverageErrorsAreUncovered | github_linter/tests/dependabot/__init__.py:143-155 | since only required ecosystems are covered, the errors are one per uncovered entry of the required list |
| Dependabot.UpdatesForLanguagesErrors | github_linter/tests/dependabot/__init__.py:89-156 | for a loaded file with updates, an error names an ecosystem exactly when some language needs it and no update names it; no warning or fix |
| Dependabot.UnparsableIsTwoErrors | github_linter/tests/dependabot/__init__.py:92-95 | a file that does not parse records the loader's error and then "Dependabot file not found" |
| Dependabot.LoadedReportsNoUpdates | github_linter/tests/dependabot/__init__.py:89-99 | every loaded file has no updates, so for a loaded file the coverage check records exactly "Updates config not found." and `check_update_configs` exactly its no-updates error, whatever the languages |
| Dependabot.CheckUpdatesForLanguages | github_linter/tests/dependabot/__init__.py:89-156 | the sinks gain exactly the run computed from the load, whose outcomes `ParseOutcomes` states, and the repository's languages |
| Dependabot.LoaderChecksAtMostOneError | github_linter/tests/dependabot/__init__.py:201-274 | these checks record at most one error and nothing else, one exactly for an unparsable file or a file without updates |
| Dependabot.CheckUpdateConfigs | github_linter/tests/dependabot/__init__.py:201-246 | the sinks gain exactly `UpdateConfigsRun` of the load |
| Dependabot.CheckDependabotConfig | github_linter/tests/dependabot/__init__.py:249-274 | the sinks gain exactly the loader's records |
| Dependabot.VulnerabilityEnabledRun | github_linter/tests/dependabot/__init__.py:277-282 | one error exactly when alerts are off |
| Dependabot.CheckDependabotVulnerabilityEnabled | github_linter/tests/dependabot/__init__.py:277-282 | the sinks gain exactly that run |
| Dependabot.OutcomeRun | github_linter/tests/dependabot/__init__.py:285-298 | a fix message when the call succeeded, an error otherwise |
| Dependabot.FixEnableVulnerabilityAlert | github_linter/tests/dependabot/__init__.py:285-290 | alerts are on afterwards when it reports success, and the matching message is filed |
| Dependabot.FixEnableAutomatedSecurityFixes | github_linter/tests/dependabot/__init__.py:293-298 | automated fixes are on afterwards when it reports success, and the matching message is filed |
| Dependabot.CreateConfigRecords | github_linter/tests/dependabot/__init__.py:300-342 | at most the loader's error and at most one fix, a fix exactly when a write was needed and made |
| Dependabot.MatchingConfigNotWritten | github_linter/tests/dependabot/__init__.py:317-319 | a loaded file equal to the expected config is not rewritten and nothing is recorded |
| Dependabot.FixCreateDependabotConfig | github_linter/tests/dependabot/__init__.py:300-342 | the file is read through the cache, written only when it differs from the expected dump, and the sinks gain exactly the computed run |
| DependabotLegacy.DefaultDayOnlyPassesAsWritten | github_linter/tests/dependabot.py:157-165 | the older default day is "Monday", which the day validator as written accepts and the intended weekday check refuses |
| DependabotLegacy.LegacyTableIsPackageTable | github_linter/tests/dependabot.py:172-188 | the older copy of the ecosystem table equals the package's |
| DependabotLegacy.UpdateRefused | github_linter/tests/dependabot.py:111-155 | no older update entry is accepted: without `commit-message` it is refused as missing, and otherwise for the reason the package's validator gives |
| DependabotLegacy.UpdatesAcceptedOnlyEmpty | github_linter/tests/dependabot.py:292-296 | an older list of updates is accepted exactly when it is empty |
| DependabotLegacy.ConfigFileFields | github_linter/tests/dependabot.py:167-170 | an older file loads exactly when it is a mapping with an integer version and `updates` that are an empty list, an empty mapping or an empty string, and then holds no update |
| DependabotLegacy.LoadFile | github_linter/tests/dependabot.py:277-303 | the configured file read through the cache, then parsed and validated, each update as `UpdateRefused` states |
| DependabotLegacy.LoadedReportsNoUpdates | github_linter/tests/dependabot.py:211-219 | every loaded older file has no updates, so the coverage check records exactly "Updates config not found." and `check_update_configs` exactly its no-updates error |
| DependabotLegacy.CheckUpdatesForLanguages | github_linter/tests/dependabot.py:211-267 | the sinks gain exactly the run computed from the load and the repository's languages |
| DependabotLegacy.LoaderChecksAtMostOneError | github_linter/tests/dependabot.py:306-379 | these checks record at most one error and nothing else, one exactly for an unparsable file or one without updates |
| DependabotLegacy.CheckUpdateConfigs | github_linter/tests/dependabot.py:306-351 | the sinks gain exactly `UpdateConfigsRun` of the load |
| DependabotLegacy.LoadOnly | github_linter/tests/dependabot.py:354-425 | the checks that only load, and the fix that changes only its loaded object, record exactly the loader's error |
| GithubActions.WorkflowDirRun | github_linter/tests/github_actions.py:59-70 | no warnings or fixes; no error exactly when both `.github` and `.github/workflows` were found; otherwise the one error for the first that is missing |
| GithubActions.CheckAWorkflowDirExists | github_linter/tests/github_actions.py:59-70 | both reads refetch from the repository, the second only after `.github` was found; the cache changes only at those two paths; the sinks gain exactly `WorkflowDirRun` |
| GithubActions.Formatted | github_linter/tests/github_actions.py:84 | the f-string shows a string as itself and every other scalar; lists and mappings are not followed |
| GithubActions.FileNames | github_linter/tests/github_actions.py:81-84 | a string setting yields its characters; a list of scalars yields each item as the f-string shows it, item for item; nothing otherwise |
| GithubActions.FileNamesOfStrings | github_linter/tests/github_actions.py:81-84 | a list of strings yields exactly its strings |
| GithubActions.TargetsOf | github_linter/tests/github_actions.py:83-84 | one planned workflow per configured file name of the language, in order |
| GithubActions.PlanCovers | github_linter/tests/github_actions.py:76-84 | every planned workflow is a file listed for one of the repository's languages, every such file is planned unless the listing raises, and it raises exactly when some language's listing is unreadable |
| GithubActions.DefaultWorkflows | github_linter/tests/github_actions.py:39-54 | the default lists mypy, pylint and pytest for Python, shellcheck for Shell, build_container for Dockerfile and nothing for another language |
| GithubActions.PlannedTargets | github_linter/tests/github_actions.py:76-84 | the two loops over languages and their files compute the plan `PlanFor` |
| GithubActions.MissingKeyInjective | github_linter/tests/github_actions.py:101 | distinct missing keys give distinct messages |
| GithubActions.MissingKeysMembers | github_linter/tests/github_actions.py:95-101 | a missing-key message is recorded exactly for a required key the document lacks, at most one per key |
| GithubActions.WorkflowErrorsCases | github_linter/tests/github_actions.py:86-101 | a workflow that is missing, empty or not YAML gets only the could-not-load error; a loaded one gets one error for each of `name`, `on` and `jobs` that it lacks, at most three |
| GithubActions.ProbedErrorsMembers | github_linter/tests/github_actions.py:83-101 | an error is recorded exactly when it is an error of some probed workflow that did not raise |
| GithubActions.ProbedErrorsSound | github_linter/tests/github_actions.py:83-101 | every recorded error comes from a probed workflow |
| GithubActions.ProbedErrorsComplete | github_linter/tests/github_actions.py:83-101 | every error of a probed workflow that did not raise is recorded |
| GithubActions.LanguageWorkflowsErrors | github_linter/tests/github_actions.py:73-101 | the check records only errors of its category: a workflow that did not load is reported, a loaded one is reported for each required key it lacks, and nothing else is reported |
| GithubActions.ProbeWorkflows | github_linter/tests/github_actions.py:83-101 | the loop over planned workflows: each read is a possible cached read, the errors are those of the loaded documents, and it stops early only when a document raises |
| GithubActions.CheckLanguageWorkflows | github_linter/tests/github_actions.py:73-101 | the plan follows the repository's languages and configuration; every read is a possible cached read; the sinks gain exactly `LanguageWorkflowsRun` of the loaded documents |
| GithubActions.CreatedCommitsAreCreations | github_linter/tests/github_actions.py:120-132 | the fix only creates: every commit is for a planned workflow whose document came back empty, made against no old file, with the workflow's template as content and the source's commit message; one fix per commit |
| GithubActions.FixOne | github_linter/tests/github_actions.py:117-132 | one probe: the read is a possible read unless the fix itself created that path; a commit of the template is made exactly when the document is empty and the template exists |
| GithubActions.FixAdvance | github_linter/tests/github_actions.py:114-132 | one probe as `FixOne` reports it extends both the loop's progress and the record of what the fix wrote |
| GithubActions.CreateMissingWorkflows | github_linter/tests/github_actions.py:114-132 | the loop of the fix: the repository's commits grow by exactly the creations, and its contents change by exactly those commits |
| GithubActions.FixLanguageWorkflows | github_linter/tests/github_actions.py:104-132 | the plan follows the configuration; the commits added and the sinks' new state are exactly those computed from the documents read; a missing template stops the command at that workflow, as the `ValueError` does |
| GithubActions.ShellcheckActionDefault | github_linter/tests/github_actions.py:152-156 | without a `testing` section the action string is `ludeeus/action-shellcheck@master`; a configured `shellcheck_action` replaces it |
| GithubActions.ShellcheckErrors | github_linter/tests/github_actions.py:136-161 | nothing without "Shell", without the workflow or for an empty one; otherwise exactly one error when the action string is not in the workflow's text |
| GithubActions.CheckShellcheckAt | github_linter/tests/github_actions.py:136-161 | without "Shell" nothing is read; with it one cached read of the workflow; the sinks gain exactly `ShellcheckRun` |
| GithubActions.CheckShellcheck | github_linter/tests/github_actions.py:136-161 | `check_shellcheck` over `.github/workflows/shellcheck.yml`, as `CheckShellcheckAt` states |
| GithubActions.DependencyReviewAgree | github_linter/tests/github_actions.py:181-225 | on the same read the fix records a fix, at most one, exactly where the check records its error: the repository is not archived and the workflow is missing or differs from the template |
| GithubActions.CheckDependencyReviewFile | github_linter/tests/github_actions.py:168-198 | an archived repository is skipped before any read; otherwise one cached read of the configured path; the sinks gain exactly `DependencyReviewRun` |
| GithubActions.FixDependencyReviewFile | github_linter/tests/github_actions.py:200-225 | no write when the workflow already holds the template; otherwise exactly one commit of the template, against the old file's sha when it exists, and one fix naming the commit url |
| Mkdocs.DefaultPaths | github_linter/tests/mkdocs/__init__.py:20-26 | the merged defaults look for `docs/mkdocs.yml` then `mkdocs.yml`, and name `.github/workflows/mkdocs.yml` as the workflow |
| Mkdocs.StringSettingIsCharacters | github_linter/tests/mkdocs/__init__.py:31 | a `mkdocs_config_files` that is one string is visited one character at a time, and those paths spell the setting |
| Mkdocs.NeededMeansConfigFile | github_linter/tests/mkdocs/__init__.py:29-34 | a needed workflow means some configured config file exists; when none exists none is found |
| Mkdocs.NeedsMkdocsWorkflow | github_linter/tests/mkdocs/__init__.py:29-34 | each configured file is refetched in order until one is found; the answer is whether one was found |
| Mkdocs.WorkflowExistsRun | github_linter/tests/mkdocs/__init__.py:36-41 | one error exactly when a config file was found and the workflow was not; a lookup that raises ends the command |
| Mkdocs.CheckMkdocsWorkflowExists | github_linter/tests/mkdocs/__init__.py:36-41 | the workflow is refetched only where a config file was found; the sinks gain exactly `WorkflowExistsRun` |
| Mkdocs.MissingWorkflowFixes | github_linter/tests/mkdocs/__init__.py:43-69 | the fix records at most one fix and nothing else, exactly when the workflow is needed and does not hold the template, as a creation or an update; wherever the check records its error the fix records a fix |
| Mkdocs.FixIsIdempotent | github_linter/tests/mkdocs/__init__.py:59-61 | once the workflow holds the template, whatever its sha, the fix records nothing |
| Mkdocs.WriteWorkflow | github_linter/tests/mkdocs/__init__.py:47-69 | a creation with no old file when the workflow is missing, an update against the old file when it differs from the template, and no write otherwise |
| Mkdocs.FixMissingMkdocsWorkflow | github_linter/tests/mkdocs/__init__.py:43-69 | without a needed workflow nothing is read or written; otherwise one cached read of the workflow and the write `WriteWorkflow` states; the sinks gain exactly `MissingWorkflowFixRun` |
| Mkdocs.LastFound | github_linter/tests/mkdocs/__init__.py:74-78 | the last config file found among the reads, since the loop goes on after a hit; nothing when none was found |
| Mkdocs.GithubMetadataRun | github_linter/tests/mkdocs/__init__.py:71-110 | nothing is ever recorded; the command completes exactly when the lookup works and either no config file was found, or the one found is a YAML mapping and the pages answer holds `html_url`; a missing or unreadable pages answer raises |
| Mkdocs.ReadConfigFiles | github_linter/tests/mkdocs/__init__.py:75-78 | one cached read of each configured file, in order; the answer is the last one found |
| Mkdocs.CheckGithubMetadata | github_linter/tests/mkdocs/__init__.py:71-110 | the reads of `ReadConfigFiles`; the sinks gain exactly `GithubMetadataRun` of those reads and the pages answer, that is nothing |
| Mkdocs.MetadataRaiseStopsWorkflowCommands | github_linter/tests/mkdocs/__init__.py:71-96 | `check_github_metadata` sorts before both workflow commands, so when it raises neither `check_mkdocs_workflow_exists` nor `fix_missing_mkdocs_workflow` is called |
| Codeowners.CategoryLookupRaises | github_linter/tests/codeowners.py:14-17 | as written, the lookup under the category "" fails for every configuration without a "" section, the merged defaults included |
| Codeowners.ModuleLookupDefault | github_linter/tests/codeowners.py:14-17 | under the module's own name the merged defaults give no owners, and a configured section keeps its owners |
| Codeowners.ExistsRun | github_linter/tests/codeowners.py:23-32 | one error exactly when the lookup works and `CODEOWNERS` is missing; an empty owners setting only logs |
| Codeowners.CheckCodeownersExists | github_linter/tests/codeowners.py:23-32 | the lookup as written, under `repo.config[""]`; only when it works one cached read of `CODEOWNERS`; the sinks gain exactly `ExistsRun` |
| Codeowners.Fragment | github_linter/tests/codeowners.py:46-53 | what one path adds: the path and a space, then a string owner and a newline or a space, the joined list and a newline; nothing more for a null owner; raises for any other owner, a mapping included (see Left out) |
| Codeowners.FragmentsHold | github_linter/tests/codeowners.py:46-53 | the loop's text exists exactly when no fragment raises, and then holds every fragment |
| Codeowners.BuiltForMapping | github_linter/tests/codeowners.py:42-53 | the built file starts with the header and holds every configured path's fragment; it raises exactly when some owner does; no paths give the header alone |
| Codeowners.BuildContents | github_linter/tests/codeowners.py:42-53 | the loop builds exactly `Built` of the owners in their iteration order |
| Codeowners.FragmentsNone | github_linter/tests/codeowners.py:46-53 | once a fragment raises every longer prefix of the loop raises |
| Codeowners.FixRun | github_linter/tests/codeowners.py:55-65 | no errors or warnings; one fix exactly when the file was built and `CODEOWNERS` does not already hold it |
| Codeowners.FixIsIdempotent | github_linter/tests/codeowners.py:55-57 | after the fix wrote the built file, whatever its sha, the fix finds nothing to do |
| Codeowners.FixCodeownersExists | github_linter/tests/codeowners.py:35-65 | the read first, then the lookup as written and the build; no write when either raises or the file already holds the text; otherwise one commit of the built text against the old file's sha; the sinks gain exactly `FixRun` |
| Docs.DefaultPathMerged | github_linter/tests/docs.py:17-20 | without a section of its own the configuration names `.github/CONTRIBUTING.md` |
| Docs.Missing | github_linter/tests/docs.py:32 | the error names the missing path |
| Docs.ExistsRun | github_linter/tests/docs.py:23-34 | one error naming the path exactly when the repository is not archived, the lookup works and the guide is missing; archived repositories are skipped |
| Docs.CheckContributingExists | github_linter/tests/docs.py:23-34 | the archived skip, then one cached read of the configured path; the sinks gain exactly `ExistsRun` |
| Docs.FixRun | github_linter/tests/docs.py:44-61 | no errors or warnings; one fix naming the path and the commit url exactly when the template rendered and the lookup works; a missing template only logs |
| Docs.FixSatisfiesCheck | github_linter/tests/docs.py:23-61 | after the fix wrote the guide, whatever its sha, the check records nothing |
| Docs.FixContributingExists | github_linter/tests/docs.py:36-61 | with a rendered template, exactly one commit of it against no old file, whether or not the guide exists or the repository is archived; nothing is read |
| SecurityMd.DefaultFilenameMerged | github_linter/tests/security_md.py:14-17 | without a section of its own the configuration names `SECURITY.MD` |
| SecurityMd.ExistsRun | github_linter/tests/security_md.py:21-27 | one error exactly when the repository is not archived, the lookup works and the file is missing; archived repositories are skipped |
| SecurityMd.CheckSecurityMdExists | github_linter/tests/security_md.py:21-27 | the archived skip, then one cached read of the configured file; the sinks gain exactly `ExistsRun` |
| SecurityMd.GenerateFailed | github_linter/tests/security_md.py:48 | the intended error names the file that could not be generated |
| SecurityMd.GenerateFailedNamesFile | github_linter/tests/security_md.py:48 | as written every filename gives the same text, for want of the f-string prefix; the intended texts tell the files apart |
| SecurityMd.CreateRun | github_linter/tests/security_md.py:29-66 | at most one result: the error as written, "Failed to generate {filename}", exactly when the file is missing and the template fails; one fix exactly when it is missing, generated and the write answered; a failed lookup raises before the archived skip |
| SecurityMd.CreateOnlyOnce | github_linter/tests/security_md.py:38-65 | once the file exists, whatever its content, the fix does nothing |
| SecurityMd.FixCreateSecurityMd | github_linter/tests/security_md.py:29-66 | the lookup before the archived skip, one cached read, and exactly one commit of the generated text against no old file when the file is missing and generation worked; the sinks gain exactly `CreateRun`, with the error text as written |
| Generic.RemovalNeeded | github_linter/tests/generic.py:35 | the error names the file |
| Generic.Listed | github_linter/tests/generic.py:31 | the membership test raises exactly when `files_to_remove` is missing or is no container for a string; a listed name is in the configured list |
| Generic.ToRemove | github_linter/tests/generic.py:30-31 | exactly the root entries the configuration lists, in listing order |
| Generic.Names | github_linter/tests/generic.py:30-31 | the names of the listed entries, in order |
| Generic.RemovalTexts | github_linter/tests/generic.py:32-36 | one removal message per listed name, in order |
| Generic.FilesToRemoveRun | github_linter/tests/generic.py:18-36 | no warnings or fixes; the command raises, recording nothing, exactly when there is no current repository, the listing fails or the first membership test raises; otherwise one error per listed entry, in order |
| Generic.ListedEntriesReported | github_linter/tests/generic.py:30-36 | every entry the configuration lists is reported, and a listing with no listed entry records nothing |
| Generic.CheckFilesToRemove | github_linter/tests/generic.py:18-36 | the root listing of the current repository, then the errors of `FilesToRemoveRun` delivered to the errors object |
| Homebrew.MissingFile | github_linter/tests/homebrew.py:19 | the error names the missing file |
| Homebrew.MissingPaths | github_linter/tests/homebrew.py:13-19 | exactly the paths whose read answered nothing, by membership in both directions; none exactly when every read found its file |
| Homebrew.MissingPathsAppend | github_linter/tests/homebrew.py:13-19 | the missing paths of two stretches of reads are those of the first followed by those of the second, so they keep the order of the reads |
| Homebrew.MissingPathsPair | github_linter/tests/homebrew.py:13-19 | for two reads, the first path when its read answered nothing, then the second when its read did |
| Homebrew.UpdateFilesRun | github_linter/tests/homebrew.py:9-19 | no warnings or fixes; no error exactly when both helpers were found; an error for each one missing, at most two |
| Homebrew.UpdateFilesRunInOrder | github_linter/tests/homebrew.py:13-19 | the errors are exactly the first helper's when it is missing, then the second's when it is missing |
| Homebrew.PresentFilesPass | github_linter/tests/homebrew.py:9-19 | a tap whose two helpers are in the repository records nothing |
| Homebrew.CheckUpdateFilesExist | github_linter/tests/homebrew.py:9-19 | one cached read of each helper, in order; the sinks gain exactly `UpdateFilesRun` |
| Homebrew.ReadAll | github_linter/tests/homebrew.py:13-17 | one cached read per path, in order, each a possible answer of the cache and the repository |
| Issues.OpenIssues | github_linter/tests/issues.py:26 | the warning names the repository |
| Issues.OpenIssuesRun | github_linter/tests/issues.py:14-27 | no errors or fixes; no repository raises; one warning exactly when the open-issue count is not zero |
| Issues.CheckOpenIssues | github_linter/tests/issues.py:14-27 | the warning of `OpenIssuesRun` delivered to the warnings object |
| Issues.OpenPull | github_linter/tests/issues.py:47 | the warning starts with the repository's full name |
| Issues.LastReversed | github_linter/tests/issues.py:46 | the listing from its end, at most ten pull requests |
| Issues.PullTexts | github_linter/tests/issues.py:46-48 | one warning text per listed pull request, in order |
| Issues.OpenPrsRun | github_linter/tests/issues.py:31-48 | no errors or fixes; no repository raises; one warning for each of the last ten open pull requests, newest first |
| Issues.OpenPrsBounded | github_linter/tests/issues.py:42-48 | at most ten warnings; none exactly when nothing is open; the last pull request of the listing comes first, and each warning names an open pull request |
| Issues.CheckOpenPrs | github_linter/tests/issues.py:31-48 | the warnings of `OpenPrsRun` delivered to the warnings object |
| Testing.ShellcheckRun | github_linter/tests/testing.py:13-44 | nothing without "Shell" or without a non-empty `.github/workflows/testing.yml`; otherwise exactly one error when the configured action string is not in its text; no repository or a failed read raises |
| Testing.CheckShellcheck | github_linter/tests/testing.py:13-44 | without "Shell" nothing is read; with it one read of the testing workflow through the older cache; the result of `ShellcheckRun` delivered |
| Testing.TestingYmlRun | github_linter/tests/testing.py:46-63 | a warning and no read for a repository without languages; otherwise one error exactly when the workflow is missing |
| Testing.MissingWorkflowReportedOnce | github_linter/tests/testing.py:27-33 | a missing or empty workflow leaves `check_shellcheck` quiet, and a missing one is reported by `check_testing_yml_exists` |
| Testing.CheckTestingYmlExists | github_linter/tests/testing.py:46-63 | no read without languages; otherwise one read through the older cache; the result of `TestingYmlRun` delivered |
| Terraform.LoadHcl | github_linter/tests/terraform.py:38-50 | a missing or empty file loads as an empty mapping; a non-empty document comes from parsing the file's text; a failed read or parse raises |
| Terraform.LoadHclFile | github_linter/tests/terraform.py:38-50 | one read through the older cache, then `LoadHcl` of it; no current repository makes the read fail |
| Terraform.NoProvidersFile | github_linter/tests/terraform.py:66-70 | the error lists the four provider files, comma-joined |
| Terraform.ProvidersTfExistsRun | github_linter/tests/terraform.py:53-71 | no warnings or fixes; no repository or a raising load raises; the only error is the no-providers-file one |
| Terraform.ProvidersTfExistsErrors | github_linter/tests/terraform.py:62-70 | over a complete search, the error is recorded exactly when all four files loaded as empty, and a non-empty one means nothing is recorded |
| Terraform.CheckProvidersTfExists | github_linter/tests/terraform.py:53-71 | the provider files in order up to the first non-empty one, each through the older cache; the result of `ProvidersTfExistsRun` delivered |
| Terraform.SearchProviderFiles | github_linter/tests/terraform.py:62-65 | the loop stops at the first non-empty document, or at one that raises, else loads all four |
| Terraform.Examine | github_linter/tests/terraform.py:83-115 | an empty document is skipped; a warning is one of the two missing-section warnings for that file |
| Terraform.Fold | github_linter/tests/terraform.py:82-117 | at most one warning or found file per load; found files are provider files; a provider comes from a non-empty document; the loop raises exactly when some load does |
| Terraform.ProvidersForModulesRun | github_linter/tests/terraform.py:73-129 | no fixes; at most one error and one warning per load; it raises exactly when some load raises, recording no error then; no error on completion means some document listed a provider |
| Terraform.SearchPrefix | github_linter/tests/terraform.py:62-65 | the loads of the first search: a prefix ending at the first non-empty or raising document |
| Terraform.ProvidersMeanProvidersFile | github_linter/tests/terraform.py:53-129 | the checks agree: when `check_providers_for_modules` finds a provider and returns, the search of `check_providers_tf_exists` over the same loads records nothing |
| Terraform.FirstHitWithin | github_linter/tests/terraform.py:62-65 | the search stops no later than the first non-empty document |
| Terraform.CheckProvidersForModules | github_linter/tests/terraform.py:73-129 | every provider file in order through the older cache, up to a raising load, with no repository check before; its warnings then its error delivered, as `Deliver` states |
| Terraform.LoadProviderFiles | github_linter/tests/terraform.py:82-83 | the loads of the second check, up to the first that raises |
| Toml.TableKeys | github_linter/tests/pyproject.py:30 | the keys of a parsed table, one per entry, in order, as `in` tests them |
| Toml.TLookup | github_linter/tests/pyproject.py:62 | a table lookup answers exactly for the keys the table has |
| Toml.ListIndex | github_linter/tests/pyproject.py:123 | a Python index, counted from the end when negative, is in range when it answers |
| Toml.KeyOrder | github_linter/tests/pyproject.py:100 | the order a configured mapping shows its keys in holds each key once and nothing else |
| Pyproject.AuthorChecks | github_linter/tests/pyproject.py:40-41 | one warning text per listed author, in order |
| Pyproject.UnexpectedAuthors | github_linter/tests/pyproject.py:33-38 | the loop raises exactly when some membership test raises; every error is for an author the configured list does not hold; a list holding every author records nothing |
| Pyproject.UnexpectedAuthorsInOrder | github_linter/tests/pyproject.py:33-38 | the errors are exactly one per unexpected author, in order, among the authors before the first whose membership test raises |
| Pyproject.UnexpectedAuthorsComplete | github_linter/tests/pyproject.py:33-38 | when no membership test raises, exactly one error per unexpected author, in order |
| Pyproject.AuthorsRun | github_linter/tests/pyproject.py:21-41 | no fixes, never both errors and warnings; without authors exactly the one error; warnings only when no authors are configured |
| Pyproject.AuthorsAgainstConfig | github_linter/tests/pyproject.py:29-41 | without configured authors every author is a warning, in order; with a configured list holding every author nothing is recorded |
| Pyproject.NameRun | github_linter/tests/pyproject.py:45-70 | true exactly when the project's name is the repository's, and then nothing is recorded; otherwise one error unless the lookup raises |
| Pyproject.ReadmeAt | github_linter/tests/pyproject.py:74-103 | true exactly when the project names the expected readme, and then nothing is recorded; without a readme field exactly the one error |
| Pyproject.ReadmeSettingIgnored | github_linter/tests/pyproject.py:87-93 | of the validator alone, which no command calls: as written a readme set under the module's own section "pyproject.toml" is ignored and the project is told to use README.md; read under that section it is accepted |
| Pyproject.ReadmeFollowsConfig | github_linter/tests/pyproject.py:87-103 | read under the module's section the configured readme is accepted, and without that section exactly README.md is |
| Pyproject.ScriptModule | github_linter/tests/pyproject.py:123 | the module part of a script definition holds no "." and starts it |
| Pyproject.ScriptsComparisonRaises | github_linter/tests/pyproject.py:131 | of the validator alone, which no command calls: as written any project with a script raises at `len(... > 1)`, comparing a list with an int |
| Pyproject.ScriptErrors | github_linter/tests/pyproject.py:121-129 | with the comparison as intended: the loop raises exactly when some script has no definition; every error is for a script whose module is not the repository's name; none when every module matches |
| Pyproject.ScriptErrorsInOrder | github_linter/tests/pyproject.py:121-129 | the errors are exactly one per script whose module is not the repository's name, in order, among the scripts before the first that raises |
| Pyproject.ScriptErrorsComplete | github_linter/tests/pyproject.py:121-129 | when no script raises, exactly one error per mismatching script, in order |
| Pyproject.ScriptsRun | github_linter/tests/pyproject.py:106-139 | corrected: true exactly when there is a repository, the project has scripts and none raises; the records are those of `ScriptErrors` |
| Pyproject.ScriptsRunAsWritten | github_linter/tests/pyproject.py:106-139 | of the validator alone, which no command calls: as written a project with a script raises at the first one, after at most its module error; it returns, true, only for an empty scripts table, and without scripts it completes |
| Pyproject.UrlsMissingRaises | github_linter/tests/pyproject.py:183-184 | as written a project table without urls raises, since `get` answers None; iterating an empty default completes |
| Pyproject.UrlsLoggedCompletes | github_linter/tests/pyproject.py:183-184 | with an empty default the loop completes for a project without urls or with a urls table, and agrees with the loop as written wherever urls are present |
| Pyproject.CheckRun | github_linter/tests/pyproject.py:142-185 | no fixes; no repository or a failed read raises; no file records nothing; a parse error records exactly its one error |
| Pyproject.CheckRunParsed | github_linter/tests/pyproject.py:170-185 | for any parsed file with a project table: the authors' records, then the name's unless the authors validator raised; it ends as the first validator that raises, and otherwise as the urls loop as written does |
| Pyproject.ProjectWithoutUrlsRaises | github_linter/tests/pyproject.py:170-185 | a named project without urls makes the check raise after keeping what the authors and name validators recorded |
| Pyproject.NoAuthorsNoUrls | github_linter/tests/pyproject.py:29-41 | with no authors configured, an empty authors list records nothing, and a urls table lets the loop as written complete |
| Pyproject.NamedTablePasses | github_linter/tests/pyproject.py:170-184 | a project with a name, no authors and urls records nothing when the name is the repository's, and exactly the name error otherwise |
| Pyproject.NamedProjectPasses | github_linter/tests/pyproject.py:142-185 | parsed from the file, such a project is what the check reports on |
| Pyproject.CheckPyprojectToml | github_linter/tests/pyproject.py:142-185 | one read of `pyproject.toml` through the older cache, then the result of `CheckRun` delivered |

## Left out

- Logging, `print` of the report, `time.sleep` and the wall clock: the rate-limit wait takes the seconds left until each reset as an integer input, and the report is modelled as the lines it prints.
- The YAML, TOML and HCL parsers, the pytz timezone list, jinja2 rendering and `get_fix_file_path`: each is a parameter (a map from text to parsed value, a set of zone names, a rendered text or `None`, template bytes). The `sys.exit` in `get_fix_file_path` is not modelled.
- The GitHub API: each call is a method on `Github.Repository` over its abstract state. A call that may fail is nondeterministic, and the new blob sha of a write is unconstrained.
- Github.Repository.UpdateFile: never fails, though GitHub may reject a write (a stale or missing sha over an existing file, branch protection, permissions) and the `GithubException` then propagates out of the fix, since `run_module` catches only `SkipOnArchived`. The repository state holds nothing that decides whether GitHub accepts a write. In every fix but `fix_language_workflows` the write is followed only by the fix record, so what the model misses is exactly this: a rejected write would end the command as `Raised`, with its fix unrecorded and the repository unchanged, where the model records the fix. In `GithubActions.FixLanguageWorkflows` the loop would also stop at the rejected workflow. The same holds for `Session.RepoLinter.CreateOrUpdateFile` and the fixes that call it: `Codeowners.FixCodeownersExists`, `Dependabot.FixCreateDependabotConfig`, `Docs.FixContributingExists`, `GithubActions.FixLanguageWorkflows`, `GithubActions.FixDependencyReviewFile`, `Mkdocs.FixMissingMkdocsWorkflow` and `SecurityMd.FixCreateSecurityMd`.
- UTF-8 decoding of file contents: contents are strings, so a decode error is not modelled.
- `RepositoryNotSet` in the newer session: the session constructor always takes a repository. `github_linter/exceptions.py` does not define that name, so its import would fail. The older modules' guards are modelled as `Raised`.
- `add_result`, `DICTLIST` and `get_file_from_repo`: the older modules import them from `..utils`, and some import `DICTLIST` from `..types`. Neither `github_linter/utils.py` nor `github_linter/utils/__init__.py` defines any of the three; `github_linter/types.py` is not part of this model. They are modelled after `github_linter/__init__.py:358-365`.
- The older `RepoLinter` has no `error` or `fix`, yet the older dependabot commands call them. Those commands are modelled on `Session.RepoLinter`, which has both.
- The older `generate_expected_update_config` (`github_linter/tests/dependabot.py:198-207`) only logs and always returns an empty list. Its only caller, the older fix, assigns that list to an object it then drops; `DependabotLegacy.LoadOnly` states that the fix records only the loader's error.
- `update_dependabot_config` raises `NotImplementedError` and is never called.
- `check_github_metadata`'s call to the pages API (`get_repo_pages_data`, which logs in anew): its answer is the `pages` parameter of `Mkdocs.CheckGithubMetadata`, and an answer without `html_url`, or none, makes the command raise. Its YAML dump records nothing and is left out.
- The iteration order of a configured CODEOWNERS mapping is a parameter of `Codeowners.FixCodeownersExists`. The order in which `str()` shows a configured mapping is unknown (`Toml.KeyOrder`).
- A `get_contents("")` answer that is a single file rather than a listing: the root of a repository always lists a directory, so `Generic` sees a listing.
- TOML floats and dates, and Python's escapes in `repr`.
- `get_pulls` failures, and the `mergeable` and number fields beyond their text.
- The `semver` call at the end of `check_providers_for_modules`: it records nothing and does not raise.
- `json.dumps` calls that only feed logging.
- `do_login`, the command-line entry point, the web dashboard and `workflow_stats.py`.
- GithubActions.FileNames: `for filename in expected_files` runs over any iterable. The model follows a string (its characters) and a list of scalars (each formatted by the f-string). A mapping entry, whose keys Python would visit in insertion order that the parsed `Value` does not keep, and a list holding a list or a mapping, whose `repr` the f-string would show, are modelled as raising (`Unreadable`). Python raises only for a value that cannot be iterated.
- Mkdocs.ConfigFiles, Mkdocs.NeedsMkdocsWorkflow and Mkdocs.ReadConfigFiles: a `mkdocs_config_files` that is a string is visited one character at a time, as Python does. A mapping, whose keys Python would visit in an order the parsed `Value` does not keep, is modelled as raising. So is a list with an item that is not a string: Python passes that item to `get_contents`, and what PyGithub does with a path that is not a string is outside this model.
- Codeowners.Fragment: a mapping owner is modelled as raising, where `','.join(owner)` joins its keys in an order the parsed `Value` does not keep.
- BranchProtection.CheckSetDifferences and BranchProtection.CheckDefaultBranchProtection: the missing and extra checks are joined in the order the lists first name them, each once (`BranchProtection.CheckSetListsEachOnce`). Python joins `set(...) - set(...)`, whose order depends on string hashing. So the message text the contract states is one of the texts Python may print, not the only one.
- Loaders.LoadYaml and the YAML parser parameter: a parsed mapping has string keys only. PyYAML's `CLoader` follows YAML 1.1, so a plain key `on`, `off`, `yes`, `no`, `true`, `false` or a number becomes a bool or a number, and a faithful parser leaves such keys out of the `Value`. A workflow written with a plain `on:` therefore has no `"on"` key, and `GithubActions.MissingKeysMembers` gives it the error "Missing key in action file <path>: on", as the source reports.
- GithubLinters.GithubLinter.CachedGetFile: the method exists only as a comment (`github_linter/__init__.py:223-246`). The live `GithubLinter` (`github_linter/__init__.py:70-201`) has a `filecache` but no `cached_get_file`, so every call to it raises `AttributeError` after the repository guard. The model restores the commented body, as it restores `add_result`, and so do `GithubLinters.OlderPossibleFrom` and `GithubLinters.OlderReadFacts`, which reason about its cache. Its callers are listed on the lines below.
- Testing.CheckShellcheck: reads `.github/workflows/testing.yml` through the restored `GithubLinters.GithubLinter.CachedGetFile`. In the source, `github_linter/tests/testing.py:27` raises `AttributeError` for a repository with Shell among its languages.
- Testing.CheckTestingYmlExists: reads through the restored `GithubLinters.GithubLinter.CachedGetFile`. In the source, `github_linter/tests/testing.py:59` raises `AttributeError` for a repository with languages.
- Terraform.LoadHclFile: reads through the restored `GithubLinters.GithubLinter.CachedGetFile`. In the source, `github_linter/tests/terraform.py:43` raises `AttributeError`.
- Terraform.CheckProvidersTfExists: its loads go through `Terraform.LoadHclFile`, so in the source it raises `AttributeError` at its first load.
- Terraform.SearchProviderFiles: its loads go through `Terraform.LoadHclFile`, so in the source it raises `AttributeError` at its first load.
- Terraform.CheckProvidersForModules: its loads go through `Terraform.LoadHclFile`, so in the source it raises `AttributeError` at its first load.
- Terraform.LoadProviderFiles: its loads go through `Terraform.LoadHclFile`, so in the source it raises `AttributeError` at its first load.
- Pyproject.CheckPyprojectToml: reads `pyproject.toml` through the restored `GithubLinters.GithubLinter.CachedGetFile`. In the source, `github_linter/tests/pyproject.py:152` raises `AttributeError` once a repository is set.
- Text.Lower: lowers the ASCII letters only, where `str.lower()` lowers every Unicode letter. The strings it lowers here are GitHub language names and `ALL`.
- Session.RepoLinter.RunModule, LegacySession.RepoLinter.RunModule and GithubLinters.GithubLinter.HandleRepo: each command's effect is the fixed `CommandRun` that `Commands` gives for its name, independent of the session's state. The per-module command methods state their own reads, writes and records against the session, but the dispatcher is not connected to them, and its frame leaves out the file cache and the repository. So a fix's write that changes what a later command reads is not modelled across commands.
- The dependabot loaders follow pydantic 2, which the repository's tests use (`tests/test_dependabot.py:18-38` call `DependabotSchedule.model_validate`): an `Optional` field without a default is required but may be null, a `@validator` runs after the field's own check and on null too, and defaults are not validated. The package's commands load through its own `load_dependabot_config_file` (`github_linter/tests/dependabot/__init__.py:166-197`), which calls `parse_obj` and `.dict()`, the deprecated pydantic 2 aliases of `model_validate` and `model_dump`. So under pydantic 2 it does what `DependabotUtils.LoadDependabotConfigFile`, the copy in `github_linter/tests/dependabot/utils.py:28-59`, models, and the commands call that member.
- DependabotTypes.ScheduleFields: the model assumes that pydantic 2 builds `DependabotSchedule`'s schema and checks `time: Optional[DoubleQuotedScalarString]` as a string or null. `DoubleQuotedScalarString` is a `str` subclass, and only `DependabotConfigFile` sets `arbitrary_types_allowed` (`github_linter/tests/dependabot/types.py:169-172`). Whether pydantic accepts that annotation when the class is created is not settled by the source.
- DependabotTypes.ConfigFileFields and DependabotLegacy.ConfigFileFields: `version` is accepted only as a YAML integer, not as a string or float that pydantic's lax mode would convert.
- DependabotTypes.UpdateFields: the element types of the fields other than the ecosystem, directory, schedule, commit message and the two strategy fields are not checked; since every entry is refused for its rebase strategy, this changes only which error is reported.
- DependabotUtils.ParseOutcomes: the error text after "Failed to parse dependabot config: " is a label for the failing field, not pydantic's multi-line report. An unknown interval raises `ValidationError(str, cls)`, which pydantic 2 cannot construct, so it fails with another exception that the loader's broad `except` catches all the same.
- Pyproject.CheckRun: runs only `validate_pyproject_authors`, `validate_project_name` and the urls loop, because `check_pyproject_toml` (`github_linter/tests/pyproject.py:142-185`) calls nothing else. `validate_readme_configured` and `validate_scripts` are modelled on their own (`Pyproject.ReadmeAt`, `Pyproject.ScriptsRunAsWritten`, `Pyproject.ScriptsRun`), and no command reaches them.
- BranchProtection.SettingsOf: ill-typed settings fall back where Python does otherwise. A `branch_protection` section that is not a mapping reads as empty, where `config.get(...)` raises `AttributeError` (`github_linter/tests/branch_protection.py:580-591`). A `required_approving_review_count` that is not an integer reads as 1, where Python puts the raw value into the payload and the comparison. A `language_checks[language]` that is a string reads as no checks, where Python iterates its characters; a list holding a non-string reads as no checks too. A `language_checks` that is not a mapping reads as empty, where Python applies `in` to it and then subscripts it.
- Config.AddFromDict and LintModules.LoadModuleConfig: where `add_from_dict` raises part-way, Python has already written the keys it visited into `dest`; the model gives None and leaves the configuration as it was.
- Pyproject.AuthorsRun: its contract states the no-authors error in one direction only. The per-author errors and warnings are stated by `Pyproject.UnexpectedAuthors` and `Pyproject.AuthorsAgainstConfig`.

## Findings

| source | as written | input that shows it | evidently intended | confidence | as-written member | corrected member |
|---|---|---|---|---|---|---|
| github_linter/__init__.py:124-134 | the wait is `(reset - now).seconds`, the seconds field of a `timedelta`, which is never negative | the core limit has 0 remaining and its reset passed 10 seconds ago: the wait is 86390 seconds | wait the time left until the reset, and nothing once it has passed | not executed | GithubLinters.SleepAfterPassedReset | GithubLinters.IntendedSleepAfterPassedReset |
| github_linter/tests/dependabot/types.py:51-59 | the day validator reads `values.get("day")`, but pydantic's `values` holds only the fields validated before; the weekday list is also one concatenated string | schedule `{interval: weekly, day: funday}` is accepted | a non-empty day must name a day of the week | not executed | DependabotTypes.DayAsWrittenAcceptsAnything | DependabotTypes.ValidateDayWhen |
| github_linter/tests/dependabot.py:78-92 | the same day validator in the older module, whose default day is `"Monday"` | the default schedule passes only because the validator accepts anything | a weekday check, which the capitalised default fails | not executed | DependabotLegacy.DefaultDayOnlyPassesAsWritten | DependabotTypes.ValidateDayWhen |
| github_linter/tests/dependabot/types.py:144-159 | both validators are attached to `rebase_strategy`, and their allowed sets are disjoint | `rebase-strategy: auto` is rejected | `rebase_strategy` in {disabled, auto} and `insecure_external_code_execution` in {deny, allow} | not executed | DependabotTypes.RebaseStrategyAlwaysRejected | DependabotTypes.IntendedStrategiesAccepted |
| github_linter/tests/codeowners.py:14-17 | the commands look up `repo.config[""]`, but `load_module_config` merges the defaults under the module's name "codeowners" | any configuration without a `""` section: both commands raise `KeyError` | look the owners up under "codeowners" | not executed | Codeowners.CategoryLookupRaises | Codeowners.ModuleLookupDefault |
| github_linter/tests/security_md.py:48 | the message lacks the `f` prefix | any failed generation records the literal text `{filename}` | the error names the file | not executed | SecurityMd.GenerateFailedNamesFile | SecurityMd.GenerateFailed |
| github_linter/tests/pyproject.py:87-93 | the readme setting is read from `config["pyproject"]`, while the module's other settings live under "pyproject.toml" | `validate_readme_configured` called with `{"pyproject.toml": {"readme": "docs/README.md"}}` and a project readme `docs/README.md` records the readme error; no command calls the validator (`check_pyproject_toml` calls only the authors and name validators, and the test that would is commented out), so no run of the program shows it | read the setting under "pyproject.toml" | not executed | Pyproject.ReadmeSettingIgnored | Pyproject.ReadmeFollowsConfig |
| github_linter/tests/pyproject.py:131 | `len(script_def_module.split(".") > 1)` compares a list with an int | `validate_scripts` called on any project with a script raises `TypeError`; no command calls the validator, so no run of the program shows it | `len(script_def_module.split(".")) > 1`, which can never hold either, since `script_def_module` is already the part before the first `.`; the corrected member therefore records only the module errors | not executed | Pyproject.ScriptsComparisonRaises | Pyproject.ScriptErrors |
| github_linter/tests/dependabot/types.py:16-19 | `day`, `time` and `timezone` are `Optional[...]` with no default, which pydantic 2 makes required | `{interval: monthly}`, which `tests/test_dependabot.py:21-38` expects to validate, is refused for its missing fields | the three fields default to None, and a day or timezone that is given is still checked | not executed | DependabotTypes.ScheduleNeedsEveryField | DependabotTypes.IntendedScheduleTests |
| github_linter/tests/pyproject.py:183 | `for url in project.get("urls")` iterates `None` when the project has no urls | a project table without urls raises `TypeError` | `project.get("urls", {})` | not executed | Pyproject.UrlsMissingRaises | Pyproject.UrlsLoggedCompletes |
