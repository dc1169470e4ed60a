// The older Dependabot check module (github_linter/tests/dependabot.py),
// which the package of the same name supersedes on import: its own copy of
// the ecosystem table, validators whose passing values become None, a
// hand-written loader, the coverage check and a fix that never writes.
module DependabotLegacy {
  import opened Wrappers
  import opened Text
  import opened Config
  import opened Github
  import opened PyDict
  import opened LintModules
  import opened DependabotConstants
  import opened DependabotTypes
  import opened DependabotUtils
  import opened Loaders
  import Dependabot
  import Session

  const Category := "dependabot"

  /** The older default schedule: the day is "Monday", capitalised. */
  const DefaultSchedule: Value :=
    Dict(map["interval" := Str("weekly"), "day" := Str("Monday"), "time" := Str("00:00"), "timezone" := Str("Etc/UTC")])

  const DefaultConfigValue: Value := Dict(map["config_filename" := Str(Dependabot.DefaultFilename), "schedule" := DefaultSchedule])

  const Members: seq<string> := [
    "CATEGORY", "DEFAULT_CONFIG", "DEPENDABOT_SCHEDULE_INTERVALS", "LANGUAGES", "PACKAGE_ECOSYSTEM",
    "check_dependabot_config", "check_dependabot_vulnerability_enabled", "check_update_configs",
    "check_updates_for_languages", "check_updates_have_directory_set", "find_language_in_ecosystem",
    "fix_create_dependabot_config", "fix_enable_automated_security_fixes", "fix_enable_vulnerability_alert",
    "generate_expected_update_config", "load_file", "update_dependabot_config"
  ]

  const Module := LintModule(Category, Some(["all"]), MappingDefault(DefaultConfigValue), Members)

  /**
   * The older default day passes the day validator as written, which
   * accepts anything, but the intended weekday check would refuse it.
   */
  lemma DefaultDayOnlyPassesAsWritten()
    ensures DefaultSchedule.entries["day"] == Str("Monday")
    ensures DayAsWritten(Some("Monday"), FieldsBeforeDay("weekly")).Success?
    ensures ValidateDay("Monday").Failure?
  {
    DayAsWrittenAcceptsAnything(Some("Monday"), "weekly");
    ValidateDayWhen("Monday");
    assert "Monday" !in Weekdays by {
      assert forall k :: 0 <= k < |Weekdays| ==> Weekdays[k][0] != 'M';
    }
  }

  /** The module's own `PACKAGE_ECOSYSTEM`. */
  const LegacyPackageEcosystem: Dict<seq<string>> := [
    Entry("bundler", []),
    Entry("cargo", ["rust"]),
    Entry("composer", []),
    Entry("docker", []),
    Entry("mix", []),
    Entry("elm", []),
    Entry("gitsubmodule", []),
    Entry("github-actions", []),
    Entry("gomod", []),
    Entry("gradle", []),
    Entry("maven", []),
    Entry("npm", []),
    Entry("nuget", []),
    Entry("pip", ["python"]),
    Entry("terraform", ["HCL"])
  ]

  /** The copy equals the package's table, so its lookup is `EcosystemOf` and its validator `IsEcosystem`. */
  lemma LegacyTableIsPackageTable()
    ensures LegacyPackageEcosystem == PackageEcosystem
  {
  }

  // The validators. The older schedule has the package's fields and
  // validators (its interval is an enumeration of the same three values);
  // the older update differs in that `commit-message` has no default, and
  // its validators return nothing.

  /**
   * `validate_package_ecosystem` and `validate_include` return nothing, so
   * an accepted ecosystem and an accepted include both become None.
   */
  function Legacy(u: UpdateConfig): UpdateConfig
  {
    u.(packageEcosystem := None,
       commitMessage := if u.commitMessage.Some? then Some(u.commitMessage.value.(includeScope := None)) else None)
  }

  /** `DependabotUpdateConfig(**update)` of the older module. */
  function ValidateUpdate(v: Value, zones: set<string>): Checked<UpdateConfig>
  {
    if v.Dict? && "commit-message" !in v.entries then Failure(Missing("commit-message"))
    else
      var u :- DependabotTypes.ValidateUpdate(v, zones);
      Success(Legacy(u))
  }

  /**
   * No older entry is accepted either: its rebase validators refuse every
   * value as the package's do (the first returns None, which the second
   * refuses), and an entry without `commit-message` is refused as missing.
   */
  lemma UpdateRefused(v: Value, zones: set<string>)
    ensures ValidateUpdate(v, zones).Failure?
    ensures v.Dict? && "commit-message" !in v.entries ==> ValidateUpdate(v, zones).error == Missing("commit-message")
    ensures !(v.Dict? && "commit-message" !in v.entries) ==>
      ValidateUpdate(v, zones).error == DependabotTypes.ValidateUpdate(v, zones).error
  {
    DependabotTypes.UpdateFields(v, zones);
  }

  /** Each entry of a list, in order; the first one refused refuses the list. */
  function ValidateUpdates(items: seq<Value>, zones: set<string>): Checked<seq<UpdateConfig>>
    decreases |items|
  {
    if items == [] then Success([])
    else
      var first := ValidateUpdate(items[0], zones);
      var rest := ValidateUpdates(items[1..], zones);
      if first.Failure? then Failure(first.error)
      else if rest.Failure? then Failure(rest.error)
      else Success([first.value] + rest.value)
  }

  /** An older list of updates is accepted exactly when it is empty. */
  lemma {:induction false} UpdatesAcceptedOnlyEmpty(items: seq<Value>, zones: set<string>)
    ensures ValidateUpdates(items, zones).Success? <==> items == []
    ensures ValidateUpdates(items, zones).Success? ==> ValidateUpdates(items, zones).value == []
  {
    if items != [] {
      UpdateRefused(items[0], zones);
    }
  }

  /**
   * The `updates` entry as `load_file` treats it: each entry of a list is
   * validated; iterating an empty mapping or an empty string gives no
   * updates; iterating anything else fails.
   */
  function UpdatesEntry(v: Value, zones: set<string>): Checked<seq<UpdateConfig>>
  {
    if v.List? then ValidateUpdates(v.items, zones)
    else if v == Dict(map[]) || v == Str("") then Success([])
    else Failure(NotAList("updates"))
  }

  datatype LegacyConfigFile = LegacyConfigFile(version: int, updates: seq<UpdateConfig>)

  /**
   * What `load_file` makes of a document: the document must be a mapping;
   * its `updates`, when present, are validated first; then the file model
   * requires an integer `version` and, having no default, `updates`.
   */
  function ValidateConfigFile(v: Value, zones: set<string>): Checked<LegacyConfigFile>
  {
    if !v.Dict? then Failure(NotAMapping("__root__"))
    else
      var updates :- if "updates" in v.entries then UpdatesEntry(v.entries["updates"], zones)
                     else Success([]);
      if "version" !in v.entries then Failure(Missing("version"))
      else if !v.entries["version"].Int? then Failure(NotAnInteger("version"))
      else if "updates" !in v.entries then Failure(Missing("updates"))
      else Success(LegacyConfigFile(v.entries["version"].i, updates))
  }

  /**
   * An older file loads exactly when it is a mapping with an integer
   * version and `updates` that are an empty list, an empty mapping or an
   * empty string; it then holds no update.
   */
  lemma ConfigFileFields(v: Value, zones: set<string>)
    ensures ValidateConfigFile(v, zones).Success? <==>
      v.Dict? && "version" in v.entries && v.entries["version"].Int? && "updates" in v.entries &&
      v.entries["updates"] in {List([]), Dict(map[]), Str("")}
    ensures ValidateConfigFile(v, zones).Success? ==>
      ValidateConfigFile(v, zones).value == LegacyConfigFile(v.entries["version"].i, [])
  {
    if v.Dict? && "updates" in v.entries && v.entries["updates"].List? {
      UpdatesAcceptedOnlyEmpty(v.entries["updates"].items, zones);
    }
  }

  // The loader.

  function Parse(file: Option<File>, parser: YamlParser, zones: set<string>): LoadOutcome<LegacyConfigFile>
  {
    if file.None? then Absent
    else if file.value.content !in parser then Unparsable(YamlFailure)
    else match ValidateConfigFile(parser[file.value.content], zones)
      case Success(f) => LoadOutcome.Loaded(f)
      case Failure(p) => Unparsable(Describe(p))
  }

  /** `load_file`. */
  method LoadFile(linter: Session.RepoLinter, parser: YamlParser, zones: set<string>)
    returns (outcome: LoadOutcome<LegacyConfigFile>, file: Option<File>)
    modifies linter`filecache
    ensures ReadFacts(old(linter.filecache), linter.filecache, linter.config, linter.repository.contents, Category, file)
    ensures outcome == if ConfigFilename(linter.config, Category).None? then NoFilename else Parse(file, parser, zones)
  {
    file := ReadConfigFile(linter, Category);
    if ConfigFilename(linter.config, Category).None? {
      return NoFilename, None;
    }
    outcome := Parse(file, parser, zones);
  }

  function Loader(outcome: LoadOutcome<LegacyConfigFile>): seq<Message>
  {
    LoaderErrors(Category, outcome)
  }

  /** No updates. */
  predicate NoUpdates(f: LegacyConfigFile)
  {
    f.updates == []
  }

  // The commands.

  /** What the older `check_updates_for_languages` records. */
  function UpdatesForLanguagesRun(outcome: LoadOutcome<LegacyConfigFile>, languages: seq<string>): CommandRun
  {
    match outcome
    case NoFilename => CommandRun([], [], [], Raised)
    case Absent => CommandRun(Filed(Category, ["Dependabot file not found"]), [], [], Completed)
    case Unparsable(_) => CommandRun(Loader(outcome) + Filed(Category, ["Dependabot file not found"]), [], [], Completed)
    case Loaded(f) =>
      if NoUpdates(f) then CommandRun(Filed(Category, ["Updates config not found."]), [], [], Completed)
      else
        var required := Dependabot.Required(languages);
        if required == [] then Quiet
        else CommandRun(Dependabot.CoverageErrors(required, Dependabot.Covered(f.updates, required)), [], [], Completed)
  }

  /** Every file the older loader accepts has no updates, so the older checks report them missing. */
  lemma LoadedReportsNoUpdates(file: Option<File>, parser: YamlParser, zones: set<string>, languages: seq<string>)
    requires Parse(file, parser, zones).Loaded?
    ensures NoUpdates(Parse(file, parser, zones).file)
    ensures UpdatesForLanguagesRun(Parse(file, parser, zones), languages) ==
      CommandRun(Filed(Category, ["Updates config not found."]), [], [], Completed)
    ensures UpdateConfigsRun(Parse(file, parser, zones)) ==
      CommandRun(Filed(Category, ["No updates config in dependabot.yml."]), [], [], Completed)
  {
    ConfigFileFields(parser[file.value.content], zones);
  }

  /** The older `check_updates_for_languages`. */
  method CheckUpdatesForLanguages(linter: Session.RepoLinter, parser: YamlParser, zones: set<string>)
    returns (signal: Signal, outcome: LoadOutcome<LegacyConfigFile>, file: Option<File>)
    modifies linter`filecache, linter`errors, linter`warnings, linter`fixes
    ensures ReadFacts(old(linter.filecache), linter.filecache, linter.config, linter.repository.contents, Category, file)
    ensures outcome == if ConfigFilename(linter.config, Category).None? then NoFilename else Parse(file, parser, zones)
    ensures var run := UpdatesForLanguagesRun(outcome, linter.repository.languages);
      signal == run.signal &&
      Results(linter.errors, linter.warnings, linter.fixes) == Apply(old(Results(linter.errors, linter.warnings, linter.fixes)), run)
  {
    outcome, file := LoadFile(linter, parser, zones);
    var run := UpdatesForLanguagesRun(outcome, linter.repository.languages);
    if outcome.Loaded? && !NoUpdates(outcome.file) {
      var required := Dependabot.RequiredPackageManagers(linter.repository.languages);
      if required != [] {
        var covered := Dependabot.CoveredPackageManagers(outcome.file.updates, required);
        run := CommandRun(Dependabot.CoverageErrors(required, covered), [], [], Completed);
      }
    }
    linter.Perform(run);
    signal := run.signal;
  }

  /** What the older `check_update_configs` records. */
  function UpdateConfigsRun(outcome: LoadOutcome<LegacyConfigFile>): CommandRun
  {
    match outcome
    case NoFilename => CommandRun([], [], [], Raised)
    case Loaded(f) => if NoUpdates(f) then CommandRun(Filed(Category, ["No updates config in dependabot.yml."]), [], [], Completed)
                      else Quiet
    case _ => CommandRun(Loader(outcome), [], [], Completed)
  }

  /** The older checks that only load, and the older fix, which loads and then returns. */
  function LoadOnlyRun(outcome: LoadOutcome<LegacyConfigFile>): CommandRun
  {
    if outcome.NoFilename? then CommandRun([], [], [], Raised) else CommandRun(Loader(outcome), [], [], Completed)
  }

  /** None of these records a warning or a fix, and each records at most one error. */
  lemma LoaderChecksAtMostOneError(outcome: LoadOutcome<LegacyConfigFile>)
    ensures |UpdateConfigsRun(outcome).errors| <= 1 && UpdateConfigsRun(outcome).warnings == [] && UpdateConfigsRun(outcome).fixes == []
    ensures |LoadOnlyRun(outcome).errors| <= 1 && LoadOnlyRun(outcome).warnings == [] && LoadOnlyRun(outcome).fixes == []
    ensures |UpdateConfigsRun(outcome).errors| == 1 <==> outcome.Unparsable? || (outcome.Loaded? && NoUpdates(outcome.file))
  {
  }

  /** The older `check_update_configs`. */
  method CheckUpdateConfigs(linter: Session.RepoLinter, parser: YamlParser, zones: set<string>)
    returns (signal: Signal, outcome: LoadOutcome<LegacyConfigFile>, file: Option<File>)
    modifies linter`filecache, linter`errors, linter`warnings, linter`fixes
    ensures ReadFacts(old(linter.filecache), linter.filecache, linter.config, linter.repository.contents, Category, file)
    ensures outcome == if ConfigFilename(linter.config, Category).None? then NoFilename else Parse(file, parser, zones)
    ensures signal == UpdateConfigsRun(outcome).signal
    ensures Results(linter.errors, linter.warnings, linter.fixes) ==
      Apply(old(Results(linter.errors, linter.warnings, linter.fixes)), UpdateConfigsRun(outcome))
  {
    outcome, file := LoadFile(linter, parser, zones);
    var run := UpdateConfigsRun(outcome);
    linter.Perform(run);
    signal := run.signal;
  }

  /**
   * The older `check_dependabot_config`, `check_updates_have_directory_set`
   * and `fix_create_dependabot_config`: each loads the file and then stops.
   * The fix swaps the expected updates into the loaded object only, so it
   * writes no file and records no fix: nothing of the repository is in its
   * `modifies` clause.
   */
  method LoadOnly(linter: Session.RepoLinter, parser: YamlParser, zones: set<string>)
    returns (signal: Signal, outcome: LoadOutcome<LegacyConfigFile>, file: Option<File>)
    modifies linter`filecache, linter`errors, linter`warnings, linter`fixes
    ensures ReadFacts(old(linter.filecache), linter.filecache, linter.config, linter.repository.contents, Category, file)
    ensures outcome == if ConfigFilename(linter.config, Category).None? then NoFilename else Parse(file, parser, zones)
    ensures signal == LoadOnlyRun(outcome).signal
    ensures Results(linter.errors, linter.warnings, linter.fixes) ==
      Apply(old(Results(linter.errors, linter.warnings, linter.fixes)), LoadOnlyRun(outcome))
  {
    outcome, file := LoadFile(linter, parser, zones);
    var run := LoadOnlyRun(outcome);
    linter.Perform(run);
    signal := run.signal;
  }
}
