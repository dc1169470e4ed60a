// The Dependabot check module (github_linter/tests/dependabot/__init__.py):
// its defaults, the expected config generated from the repository's
// languages, the coverage check, the vulnerability-alert commands and the
// fix that writes the config file.
module Dependabot {
  import opened Wrappers
  import opened Text
  import opened Config
  import opened Github
  import opened LintModules
  import opened DependabotConstants
  import opened DependabotTypes
  import opened DependabotUtils
  import opened Loaders
  import Languages
  import Session

  const Category := "dependabot"
  const DefaultFilename := ".github/dependabot.yml"

  /** The default schedule, as the dumped `DependabotSchedule` model. */
  const DefaultSchedule: Value :=
    Dict(map["interval" := Str("weekly"), "day" := Str("monday"), "time" := Str("00:00"), "timezone" := Str("Etc/UTC")])

  /** `DEFAULT_CONFIG`. */
  const DefaultConfigValue: Value := Dict(map["config_filename" := Str(DefaultFilename), "schedule" := DefaultSchedule])

  /** The module's own top-level names. */
  const Members: seq<string> := [
    "CATEGORY", "DEFAULT_CONFIG", "DEPENDABOT_SCHEDULE_INTERVALS", "LANGUAGES", "PACKAGE_ECOSYSTEM",
    "check_dependabot_config", "check_dependabot_vulnerability_enabled", "check_update_configs",
    "check_updates_for_languages", "check_updates_have_directory_set", "find_language_in_ecosystem",
    "fix_create_dependabot_config", "fix_enable_automated_security_fixes", "fix_enable_vulnerability_alert",
    "generate_expected_update_config", "load_dependabot_config_file", "update_dependabot_config"
  ]

  const Module := LintModule(Category, Some(["all"]), MappingDefault(DefaultConfigValue), Members)

  /** `repo.config[CATEGORY]["schedule"]`, or None where the lookup raises. */
  function ScheduleSetting(config: map<string, Value>): Option<Value>
  {
    if Category in config && config[Category].Dict? && "schedule" in config[Category].entries
    then Some(config[Category].entries["schedule"])
    else None
  }

  /** The language gate never closes for this module: it lists "all". */
  lemma ModuleNeverGated(repoLanguages: seq<string>)
    ensures !Session.Gated(Module, repoLanguages)
  {
  }

  /**
   * Without a "dependabot" section the defaults load, so the file is read
   * from `.github/dependabot.yml` and the default schedule is used.
   */
  lemma DefaultsLoad(config: map<string, Value>)
    requires Category !in config
    ensures var loaded := LintModules.LoadModuleConfig(config, Module);
      loaded.ok && ConfigFilename(loaded.config, Category) == Some(DefaultFilename) &&
      ScheduleSetting(loaded.config) == Some(DefaultSchedule)
  {
    assert AddFromDict(DefaultConfigValue, Dict(map[])).Some?;
    AddFromDictFillsMissing(DefaultConfigValue, Dict(map[]));
  }


  /** How a command ends once loading raised, or failed and recorded its error. */
  function Loader(outcome: LoadOutcome<ConfigFile>): (r: seq<Message>)
  {
    LoaderErrors(Category, outcome)
  }

  // The package managers the repository's languages require.

  /** The ecosystems found for the languages, in order, repeats kept. */
  function Required(languages: seq<string>): seq<string>
    decreases |languages|
  {
    if languages == [] then []
    else
      var found := EcosystemOf(languages[|languages| - 1]);
      Required(languages[..|languages| - 1]) + (if found.Some? then [found.value] else [])
  }

  /** An ecosystem is required exactly when one of the languages finds it. */
  lemma {:induction false} RequiredMembers(languages: seq<string>, e: string)
    ensures e in Required(languages) <==> exists i :: 0 <= i < |languages| && EcosystemOf(languages[i]) == Some(e)
    decreases |languages|
  {
    if languages != [] {
      var init := languages[..|languages| - 1];
      RequiredMembers(init, e);
      if exists i :: 0 <= i < |init| && EcosystemOf(init[i]) == Some(e) {
        var i :| 0 <= i < |init| && EcosystemOf(init[i]) == Some(e);
        assert languages[i] == init[i];
      }
      if exists i :: 0 <= i < |languages| && EcosystemOf(languages[i]) == Some(e) {
        var i :| 0 <= i < |languages| && EcosystemOf(languages[i]) == Some(e);
        if i < |init| {
          assert init[i] == languages[i];
        }
      }
    }
  }

  /** Every required ecosystem is cargo, pip or terraform: never github-actions. */
  lemma {:induction false} RequiredAreServing(languages: seq<string>)
    ensures forall e :: e in Required(languages) ==> e in ["cargo", "pip", "terraform"]
    decreases |languages|
  {
    if languages != [] {
      RequiredAreServing(languages[..|languages| - 1]);
      EcosystemOfExplicit(languages[|languages| - 1]);
    }
  }

  /** The loop of `check_updates_for_languages` over the repository's languages. */
  method RequiredPackageManagers(languages: seq<string>) returns (required: seq<string>)
    ensures required == Required(languages)
  {
    required := [];
    var i := 0;
    while i < |languages|
      invariant 0 <= i <= |languages|
      invariant required == Required(languages[..i])
    {
      var manager := FindLanguageInEcosystem(languages[i]);
      assert languages[..i + 1][..i] == languages[..i];
      if manager.Some? {
        required := required + [manager.value];
      }
      i := i + 1;
    }
    assert languages[..i] == languages;
  }

  // The expected config.

  /**
   * One generated update, as `fix_create_dependabot_config` dumps it: the
   * two fields `construct` sets, the schedule dropped when it is null.
   */
  function ExpectedUpdate(ecosystem: string, schedule: Value): (r: Value)
  {
    Dict(map["package-ecosystem" := Str(ecosystem)] + (if schedule.Null? then map[] else map["schedule" := schedule]))
  }

  /**
   * The updates `generate_expected_update_config` builds, one per required
   * ecosystem; None where a language needs one and the schedule is missing,
   * so that the lookup raises.
   */
  function ExpectedUpdates(languages: seq<string>, schedule: Option<Value>): Option<seq<Value>>
  {
    var required := Required(languages);
    if required == [] then Some([])
    else if schedule.None? then None
    else Some(seq(|required|, i requires 0 <= i < |required| => ExpectedUpdate(required[i], schedule.value)))
  }

  /** `{"version": 2, "updates": ...}` as dumped, or None where generating it raised. */
  function ExpectedDocument(languages: seq<string>, schedule: Option<Value>): Option<Value>
  {
    var updates := ExpectedUpdates(languages, schedule);
    if updates.None? then None else Some(Dict(map["version" := Int(2), "updates" := List(updates.value)]))
  }

  /**
   * The expected config has one update per required ecosystem, in order,
   * each naming it and carrying the configured schedule; it fails only
   * when some language needs an update and no schedule is configured.
   */
  lemma ExpectedUpdatesShape(languages: seq<string>, schedule: Option<Value>)
    ensures ExpectedUpdates(languages, schedule).None? <==> Required(languages) != [] && schedule.None?
    ensures ExpectedUpdates(languages, schedule).Some? ==>
      var updates := ExpectedUpdates(languages, schedule).value;
      |updates| == |Required(languages)| &&
      forall i :: 0 <= i < |updates| ==>
        updates[i].Dict? && updates[i].entries["package-ecosystem"] == Str(Required(languages)[i]) &&
        (!schedule.value.Null? ==> updates[i].entries["schedule"] == schedule.value)
  {
  }

  /** The generated config never holds a github-actions entry, whatever the languages. */
  lemma NoGithubActionsExpected(languages: seq<string>, schedule: Option<Value>, i: int)
    requires ExpectedUpdates(languages, schedule).Some? && 0 <= i < |ExpectedUpdates(languages, schedule).value|
    ensures ExpectedUpdates(languages, schedule).value[i].entries["package-ecosystem"] != Str("github-actions")
  {
    RequiredAreServing(languages);
    assert Required(languages)[i] in Required(languages);
  }

  /** `generate_expected_update_config`: one update per language the table serves. */
  method GenerateExpectedUpdateConfig(languages: seq<string>, config: map<string, Value>) returns (updates: Option<seq<Value>>)
    ensures updates == ExpectedUpdates(languages, ScheduleSetting(config))
  {
    var found: seq<Value> := [];
    ghost var required: seq<string> := [];
    var i := 0;
    while i < |languages|
      invariant 0 <= i <= |languages|
      invariant required == Required(languages[..i])
      invariant required != [] ==> ScheduleSetting(config).Some?
      invariant |found| == |required|
      invariant forall k :: 0 <= k < |found| ==> found[k] == ExpectedUpdate(required[k], ScheduleSetting(config).value)
    {
      var ecosystem := FindLanguageInEcosystem(languages[i]);
      assert languages[..i + 1][..i] == languages[..i];
      if ecosystem.Some? {
        var schedule := ScheduleSetting(config);
        if schedule.None? {
          assert languages[..i + 1] == languages[..i] + [languages[i]];
          RequiredPrefix(languages, i + 1);
          return None;
        }
        found := found + [ExpectedUpdate(ecosystem.value, schedule.value)];
        required := required + [ecosystem.value];
      }
      i := i + 1;
    }
    assert languages[..i] == languages;
    if required != [] {
      assert found == seq(|required|, k requires 0 <= k < |required| => ExpectedUpdate(required[k], ScheduleSetting(config).value));
    }
    updates := Some(found);
  }

  /** A prefix that already requires something makes the whole list require something. */
  lemma {:induction false} RequiredPrefix(languages: seq<string>, n: int)
    requires 0 <= n <= |languages| && Required(languages[..n]) != []
    ensures Required(languages) != []
    decreases |languages| - n
  {
    if n < |languages| {
      var next := languages[..n + 1];
      assert next[..n] == languages[..n];
      RequiredPrefix(languages, n + 1);
    } else {
      assert languages[..n] == languages;
    }
  }

  // Coverage.

  /** `package_managers_covered`: each required ecosystem an update names, once, in the order first met. */
  function Covered(updates: seq<UpdateConfig>, required: seq<string>): seq<string>
    decreases |updates|
  {
    if updates == [] then []
    else
      var prior := Covered(updates[..|updates| - 1], required);
      var e := updates[|updates| - 1].packageEcosystem;
      if e.Some? && e.value in required then AppendNew(prior, e.value) else prior
  }

  /** A manager is covered exactly when it is required and some update names it. */
  lemma {:induction false} CoveredMembers(updates: seq<UpdateConfig>, required: seq<string>, m: string)
    ensures m in Covered(updates, required) <==>
      m in required && exists i :: 0 <= i < |updates| && updates[i].packageEcosystem == Some(m)
    decreases |updates|
  {
    if updates != [] {
      var init := updates[..|updates| - 1];
      CoveredMembers(init, required, m);
      if exists i :: 0 <= i < |init| && init[i].packageEcosystem == Some(m) {
        var i :| 0 <= i < |init| && init[i].packageEcosystem == Some(m);
        assert updates[i] == init[i];
      }
      if exists i :: 0 <= i < |updates| && updates[i].packageEcosystem == Some(m) {
        var i :| 0 <= i < |updates| && updates[i].packageEcosystem == Some(m);
        if i < |init| {
          assert init[i] == updates[i];
        }
      }
    }
  }

  /** The loop of `check_updates_for_languages` over the updates. */
  method CoveredPackageManagers(updates: seq<UpdateConfig>, required: seq<string>) returns (covered: seq<string>)
    ensures covered == Covered(updates, required)
  {
    covered := [];
    var i := 0;
    while i < |updates|
      invariant 0 <= i <= |updates|
      invariant covered == Covered(updates[..i], required)
    {
      var e := updates[i].packageEcosystem;
      assert updates[..i + 1][..i] == updates[..i];
      if e.Some? && e.value in required {
        if e.value !in covered {
          covered := covered + [e.value];
        }
      }
      i := i + 1;
    }
    assert updates[..i] == updates;
  }

  /** `[manager for manager in required if manager not in covered]`: repeats kept. */
  function Uncovered(required: seq<string>, covered: seq<string>): seq<string>
    decreases |required|
  {
    if required == [] then []
    else
      var prior := Uncovered(required[..|required| - 1], covered);
      if required[|required| - 1] in covered then prior else prior + [required[|required| - 1]]
  }

  lemma {:induction false} UncoveredMembers(required: seq<string>, covered: seq<string>, m: string)
    ensures m in Uncovered(required, covered) <==> m in required && m !in covered
    decreases |required|
  {
    if required != [] {
      UncoveredMembers(required[..|required| - 1], covered, m);
      assert required == required[..|required| - 1] + [required[|required| - 1]];
    }
  }

  function NeedsManager(m: string): string
  {
    "Package manager needs to be configured for " + m
  }

  function NeedsManagers(managers: seq<string>): (r: seq<string>)
    ensures |r| == |managers| && forall i :: 0 <= i < |managers| ==> r[i] == NeedsManager(managers[i])
  {
    seq(|managers|, i requires 0 <= i < |managers| => NeedsManager(managers[i]))
  }

  /** The error messages of the coverage comparison, behind its set test. */
  function CoverageErrors(required: seq<string>, covered: seq<string>): seq<Message>
  {
    if !SameMembers(required, covered) then Filed(Category, NeedsManagers(Uncovered(required, covered))) else []
  }

  /**
   * Since only required managers are ever covered, the set test is
   * redundant: the errors are one per uncovered entry of `required`.
   */
  lemma CoverageErrorsAreUncovered(updates: seq<UpdateConfig>, required: seq<string>)
    ensures CoverageErrors(required, Covered(updates, required)) ==
      Filed(Category, NeedsManagers(Uncovered(required, Covered(updates, required))))
  {
    var covered := Covered(updates, required);
    if SameMembers(required, covered) {
      if Uncovered(required, covered) != [] {
        var m := Uncovered(required, covered)[0];
        UncoveredMembers(required, covered, m);
      }
    }
  }

  /** What `check_updates_for_languages` records. */
  function UpdatesForLanguagesRun(outcome: LoadOutcome<ConfigFile>, languages: seq<string>): CommandRun
  {
    match outcome
    case NoFilename => CommandRun([], [], [], Raised)
    case Absent => CommandRun(Filed(Category, ["Dependabot file not found"]), [], [], Completed)
    case Unparsable(_) => CommandRun(Loader(outcome) + Filed(Category, ["Dependabot file not found"]), [], [], Completed)
    case Loaded(f) =>
      if f.updates == [] then CommandRun(Filed(Category, ["Updates config not found."]), [], [], Completed)
      else
        var required := Required(languages);
        if required == [] then Quiet
        else CommandRun(CoverageErrors(required, Covered(f.updates, required)), [], [], Completed)
  }

  /**
   * For a loaded file with updates, the check records one error for each
   * language whose ecosystem no update names (once per such language), and
   * nothing else; it never records a warning or a fix.
   */
  lemma UpdatesForLanguagesErrors(f: ConfigFile, languages: seq<string>, m: string)
    requires f.updates != []
    ensures var run := UpdatesForLanguagesRun(LoadOutcome.Loaded(f), languages);
      run.warnings == [] && run.fixes == [] && run.signal == Completed &&
      (Message(Category, NeedsManager(m)) in run.errors <==>
         (exists i :: 0 <= i < |languages| && EcosystemOf(languages[i]) == Some(m)) &&
         forall j :: 0 <= j < |f.updates| ==> f.updates[j].packageEcosystem != Some(m))
  {
    var required := Required(languages);
    var covered := Covered(f.updates, required);
    RequiredMembers(languages, m);
    CoveredMembers(f.updates, required, m);
    UncoveredMembers(required, covered, m);
    if required != [] {
      CoverageErrorsAreUncovered(f.updates, required);
      var missing := Uncovered(required, covered);
      if Message(Category, NeedsManager(m)) in Filed(Category, NeedsManagers(missing)) {
        var k :| 0 <= k < |missing| && Filed(Category, NeedsManagers(missing))[k] == Message(Category, NeedsManager(m));
        assert NeedsManager(missing[k]) == NeedsManager(m);
        assert NeedsManager(missing[k])[|"Package manager needs to be configured for "|..] == missing[k];
      }
      if m in missing {
        var k :| 0 <= k < |missing| && missing[k] == m;
        assert Filed(Category, NeedsManagers(missing))[k] == Message(Category, NeedsManager(m));
      }
    }
  }

  /** A file that does not parse records two errors: the loader's, then "not found". */
  lemma UnparsableIsTwoErrors(reason: string, languages: seq<string>)
    ensures var run := UpdatesForLanguagesRun(Unparsable(reason), languages);
      |run.errors| == 2 && run.errors[1] == Message(Category, "Dependabot file not found") &&
      StartsWith(run.errors[0].text, ParseFailurePrefix)
  {
  }

  /**
   * Every file the loader accepts has no updates, so with a file present
   * and loaded the checks report the updates missing, whatever the
   * repository's languages.
   */
  lemma LoadedReportsNoUpdates(file: Option<File>, parser: YamlParser, zones: set<string>, languages: seq<string>)
    requires Parse(file, parser, zones).Loaded?
    ensures Parse(file, parser, zones).file.updates == []
    ensures UpdatesForLanguagesRun(Parse(file, parser, zones), languages) ==
      CommandRun(Filed(Category, ["Updates config not found."]), [], [], Completed)
    ensures UpdateConfigsRun(Parse(file, parser, zones)) ==
      CommandRun(Filed(Category, ["No updates config in dependabot.yml."]), [], [], Completed)
  {
    ParseOutcomes(file, parser, zones);
  }

  /** `check_updates_for_languages`. */
  method CheckUpdatesForLanguages(linter: Session.RepoLinter, parser: YamlParser, zones: set<string>)
    returns (signal: Signal, outcome: LoadOutcome<ConfigFile>, file: Option<File>)
    modifies linter`filecache, linter`errors, linter`warnings, linter`fixes
    ensures LoadFacts(old(linter.filecache), linter.filecache, linter.config, linter.repository.contents, Category,
                      parser, zones, outcome, file)
    ensures var run := UpdatesForLanguagesRun(outcome, linter.repository.languages);
      signal == run.signal &&
      Results(linter.errors, linter.warnings, linter.fixes) == Apply(old(Results(linter.errors, linter.warnings, linter.fixes)), run)
  {
    outcome, file := LoadDependabotConfigFile(linter, Category, parser, zones);
    var run := UpdatesForLanguagesRun(outcome, linter.repository.languages);
    if outcome.Loaded? && outcome.file.updates != [] {
      var required := RequiredPackageManagers(linter.repository.languages);
      if required != [] {
        var covered := CoveredPackageManagers(outcome.file.updates, required);
        run := CommandRun(CoverageErrors(required, covered), [], [], Completed);
      }
    }
    linter.Perform(run);
    signal := run.signal;
  }

  // The other checks.

  /** What `check_update_configs` records. */
  function UpdateConfigsRun(outcome: LoadOutcome<ConfigFile>): CommandRun
  {
    match outcome
    case NoFilename => CommandRun([], [], [], Raised)
    case Loaded(f) => if f.updates == [] then CommandRun(Filed(Category, ["No updates config in dependabot.yml."]), [], [], Completed) else Quiet
    case _ => CommandRun(Loader(outcome), [], [], Completed)
  }

  /** `check_dependabot_config` and `check_updates_have_directory_set` record only what loading does. */
  function LoadOnlyRun(outcome: LoadOutcome<ConfigFile>): CommandRun
  {
    if outcome.NoFilename? then CommandRun([], [], [], Raised) else CommandRun(Loader(outcome), [], [], Completed)
  }

  /**
   * These checks record at most one error, never a warning or a fix; a
   * loaded file with updates passes all three.
   */
  lemma LoaderChecksAtMostOneError(outcome: LoadOutcome<ConfigFile>)
    ensures |UpdateConfigsRun(outcome).errors| <= 1 && UpdateConfigsRun(outcome).warnings == [] && UpdateConfigsRun(outcome).fixes == []
    ensures |LoadOnlyRun(outcome).errors| <= 1 && LoadOnlyRun(outcome).warnings == [] && LoadOnlyRun(outcome).fixes == []
    ensures outcome.Loaded? && outcome.file.updates != [] ==> UpdateConfigsRun(outcome) == Quiet && LoadOnlyRun(outcome) == Quiet
    ensures |UpdateConfigsRun(outcome).errors| == 1 <==> outcome.Unparsable? || (outcome.Loaded? && outcome.file.updates == [])
  {
  }

  /** `check_update_configs`; its own handler for validation errors is never reached, as loading catches them. */
  method CheckUpdateConfigs(linter: Session.RepoLinter, parser: YamlParser, zones: set<string>)
    returns (signal: Signal, outcome: LoadOutcome<ConfigFile>, file: Option<File>)
    modifies linter`filecache, linter`errors, linter`warnings, linter`fixes
    ensures LoadFacts(old(linter.filecache), linter.filecache, linter.config, linter.repository.contents, Category,
                      parser, zones, outcome, file)
    ensures signal == UpdateConfigsRun(outcome).signal
    ensures Results(linter.errors, linter.warnings, linter.fixes) ==
      Apply(old(Results(linter.errors, linter.warnings, linter.fixes)), UpdateConfigsRun(outcome))
  {
    outcome, file := LoadDependabotConfigFile(linter, Category, parser, zones);
    var run := UpdateConfigsRun(outcome);
    linter.Perform(run);
    signal := run.signal;
  }

  /** `check_dependabot_config`, and `check_updates_have_directory_set`, which does the same. */
  method CheckDependabotConfig(linter: Session.RepoLinter, parser: YamlParser, zones: set<string>)
    returns (signal: Signal, outcome: LoadOutcome<ConfigFile>, file: Option<File>)
    modifies linter`filecache, linter`errors, linter`warnings, linter`fixes
    ensures LoadFacts(old(linter.filecache), linter.filecache, linter.config, linter.repository.contents, Category,
                      parser, zones, outcome, file)
    ensures signal == LoadOnlyRun(outcome).signal
    ensures Results(linter.errors, linter.warnings, linter.fixes) ==
      Apply(old(Results(linter.errors, linter.warnings, linter.fixes)), LoadOnlyRun(outcome))
  {
    outcome, file := LoadDependabotConfigFile(linter, Category, parser, zones);
    var run := LoadOnlyRun(outcome);
    linter.Perform(run);
    signal := run.signal;
  }

  const AlertsDisabled := "Vulnerability reports on repository are not enabled."

  /** What `check_dependabot_vulnerability_enabled` records: one error exactly when alerts are off. */
  function VulnerabilityEnabledRun(enabled: bool): (r: CommandRun)
    ensures r.errors == (if enabled then [] else [Message(Category, AlertsDisabled)])
    ensures r.warnings == [] && r.fixes == [] && r.signal == Completed
  {
    if enabled then Quiet else CommandRun(Filed(Category, [AlertsDisabled]), [], [], Completed)
  }

  method CheckDependabotVulnerabilityEnabled(linter: Session.RepoLinter) returns (signal: Signal)
    modifies linter`errors, linter`warnings, linter`fixes
    ensures signal == Completed
    ensures Results(linter.errors, linter.warnings, linter.fixes) ==
      Apply(old(Results(linter.errors, linter.warnings, linter.fixes)), VulnerabilityEnabledRun(linter.repository.vulnerabilityAlerts))
  {
    var enabled := linter.repository.GetVulnerabilityAlert();
    var run := VulnerabilityEnabledRun(enabled);
    linter.Perform(run);
    signal := run.signal;
  }

  // The fixes.

  /** A fix message when the call succeeded, an error otherwise. */
  function OutcomeRun(ok: bool, fixed: string, failed: string): (r: CommandRun)
    ensures ok ==> r == CommandRun([], [], [Message(Category, fixed)], Completed)
    ensures !ok ==> r == CommandRun([Message(Category, failed)], [], [], Completed)
  {
    if ok then CommandRun([], [], Filed(Category, [fixed]), Completed) else CommandRun(Filed(Category, [failed]), [], [], Completed)
  }

  /** `fix_enable_vulnerability_alert`: alerts are on afterwards when it reports success. */
  method FixEnableVulnerabilityAlert(linter: Session.RepoLinter) returns (signal: Signal, ok: bool)
    modifies linter`errors, linter`warnings, linter`fixes, linter.repository`vulnerabilityAlerts
    ensures linter.repository.vulnerabilityAlerts == (old(linter.repository.vulnerabilityAlerts) || ok)
    ensures signal == Completed
    ensures Results(linter.errors, linter.warnings, linter.fixes) ==
      Apply(old(Results(linter.errors, linter.warnings, linter.fixes)),
            OutcomeRun(ok, "Enabled vulnerability reports on repository.", "Failed to enable vulnerability reports on repository."))
  {
    ok := linter.repository.EnableVulnerabilityAlert();
    var run := OutcomeRun(ok, "Enabled vulnerability reports on repository.", "Failed to enable vulnerability reports on repository.");
    linter.Perform(run);
    signal := run.signal;
  }

  /** `fix_enable_automated_security_fixes`. */
  method FixEnableAutomatedSecurityFixes(linter: Session.RepoLinter) returns (signal: Signal, ok: bool)
    modifies linter`errors, linter`warnings, linter`fixes, linter.repository`automatedSecurityFixes
    ensures linter.repository.automatedSecurityFixes == (old(linter.repository.automatedSecurityFixes) || ok)
    ensures signal == Completed
    ensures Results(linter.errors, linter.warnings, linter.fixes) ==
      Apply(old(Results(linter.errors, linter.warnings, linter.fixes)),
            OutcomeRun(ok, "Enabled automated security fixes on repository.", "Failed to enable automated security fixes."))
  {
    ok := linter.repository.EnableAutomatedSecurityFixes();
    var run := OutcomeRun(ok, "Enabled automated security fixes on repository.", "Failed to enable automated security fixes.");
    linter.Perform(run);
    signal := run.signal;
  }

  const UpdateMessage := "github_linter - dependabot - updating config"

  /**
   * Whether `fix_create_dependabot_config` goes on to write: the filename
   * and the expected config are both available, and the loaded file does
   * not already dump to the expected config.
   */
  predicate Writes(outcome: LoadOutcome<ConfigFile>, expected: Option<Value>)
  {
    !outcome.NoFilename? && expected.Some? && !(outcome.Loaded? && expected.value == DumpConfigFile(outcome.file))
  }

  /** What `fix_create_dependabot_config` records, given the write's answer. */
  function CreateConfigRun(outcome: LoadOutcome<ConfigFile>, expected: Option<Value>, path: string,
                           written: Option<string>): CommandRun
  {
    if outcome.NoFilename? then CommandRun([], [], [], Raised)
    else if expected.None? then CommandRun(Loader(outcome), [], [], Raised)
    else if !Writes(outcome, expected) || written.None? then CommandRun(Loader(outcome), [], [], Completed)
    else CommandRun(Loader(outcome), [], Filed(Category, ["Updated " + path + " - " + written.value]), Completed)
  }

  /** The fix records at most one fix, only when a commit was made, and at most the loader's error. */
  lemma CreateConfigRecords(outcome: LoadOutcome<ConfigFile>, expected: Option<Value>, path: string, written: Option<string>)
    ensures var run := CreateConfigRun(outcome, expected, path, written);
      run.warnings == [] && |run.errors| <= 1 && |run.fixes| <= 1 &&
      (run.fixes != [] <==> Writes(outcome, expected) && written.Some?) &&
      (written.Some? && Writes(outcome, expected) ==> run.fixes[0].text == "Updated " + path + " - " + written.value)
  {
  }

  /** A loaded file that already matches the expected config is left as it is. */
  lemma MatchingConfigNotWritten(f: ConfigFile, languages: seq<string>, schedule: Option<Value>)
    requires ExpectedDocument(languages, schedule) == Some(DumpConfigFile(f))
    ensures !Writes(LoadOutcome.Loaded(f), ExpectedDocument(languages, schedule))
    ensures CreateConfigRun(LoadOutcome.Loaded(f), ExpectedDocument(languages, schedule), DefaultFilename, Some("url")) == Quiet
  {
  }

  /**
   * The effect of the write `fix_create_dependabot_config` asks for: none
   * when `oldfile` already holds `content`, else one commit at `path`.
   */
  ghost predicate WriteEffect(before: map<string, seq<File>>, after: map<string, seq<File>>, commitsBefore: seq<Commit>,
                        commitsAfter: seq<Commit>, path: string, content: string, oldfile: Option<File>, written: Option<string>)
  {
    if oldfile.Some? && oldfile.value.content == content then
      written == None && after == before && commitsAfter == commitsBefore
    else
      written.Some? &&
      commitsAfter == commitsBefore + [Commit(path, UpdateMessage, content, if oldfile.Some? then oldfile.value.sha else "")] &&
      exists sha :: after == before[path := [File(path, path, content, sha)]]
  }

  /**
   * `fix_create_dependabot_config`. `emit` is the YAML dump of a document.
   * The file is read through the cache before the comparison at line 331
   * (which compares text with a file and so always differs) and again for
   * the write; `oldfile` is the second answer.
   */
  method FixCreateDependabotConfig(linter: Session.RepoLinter, parser: YamlParser, zones: set<string>, emit: Value -> string)
    returns (signal: Signal, outcome: LoadOutcome<ConfigFile>, file: Option<File>, oldfile: Option<File>, written: Option<string>)
    modifies linter`filecache, linter`errors, linter`warnings, linter`fixes, linter.repository`contents, linter.repository`commits
    ensures var path := ConfigFilename(linter.config, Category);
      (path.None? ==> outcome == NoFilename && linter.filecache == old(linter.filecache)) &&
      (path.Some? ==>
         outcome == Parse(file, parser, zones) &&
         Session.ReadAnswer(old(linter.filecache), old(linter.repository.contents), path.value, file) &&
         linter.filecache - {path.value} == old(linter.filecache) - {path.value})
    ensures var expected := ExpectedDocument(linter.repository.languages, ScheduleSetting(linter.config));
      var path := ConfigFilename(linter.config, Category);
      var run := CreateConfigRun(outcome, expected, if path.Some? then path.value else "", written);
      signal == run.signal &&
      Results(linter.errors, linter.warnings, linter.fixes) == Apply(old(Results(linter.errors, linter.warnings, linter.fixes)), run)
    ensures var expected := ExpectedDocument(linter.repository.languages, ScheduleSetting(linter.config));
      var path := ConfigFilename(linter.config, Category);
      (!Writes(outcome, expected) ==>
         written == None && linter.repository.contents == old(linter.repository.contents) &&
         linter.repository.commits == old(linter.repository.commits) &&
         (path.Some? ==> Session.CacheHolds(linter.filecache, path.value, file))) &&
      (Writes(outcome, expected) ==>
         path.Some? && Session.CacheHolds(linter.filecache, path.value, oldfile) && (file.Some? ==> oldfile == file) &&
         WriteEffect(old(linter.repository.contents), linter.repository.contents, old(linter.repository.commits),
                     linter.repository.commits, path.value, emit(expected.value), oldfile, written))
  {
    oldfile, written := None, None;
    outcome, file := LoadDependabotConfigFile(linter, Category, parser, zones);
    var path := ConfigFilename(linter.config, Category);
    var expected := None;
    if !outcome.NoFilename? {
      var updates := GenerateExpectedUpdateConfig(linter.repository.languages, linter.config);
      if updates.Some? {
        expected := Some(Dict(map["version" := Int(2), "updates" := List(updates.value)]));
      }
    }
    assert !outcome.NoFilename? ==> expected == ExpectedDocument(linter.repository.languages, ScheduleSetting(linter.config));
    if Writes(outcome, expected) {
      var content := emit(expected.value);
      var current := linter.CachedGetFile(path.value, false);
      oldfile := linter.CachedGetFile(path.value, false);
      written := linter.CreateOrUpdateFile(path.value, content, oldfile, Some(UpdateMessage));
    }
    var run := CreateConfigRun(outcome, expected, if path.Some? then path.value else "", written);
    linter.Perform(run);
    signal := run.signal;
  }
}
