// The helpers of the Dependabot check module
// (github_linter/tests/dependabot/utils.py; github_linter/tests/dependabot/__init__.py
// repeats both, its loader calling `parse_obj` and `.dict()`, pydantic 2's
// aliases of `model_validate` and `model_dump`): the language to ecosystem
// lookup and the config file loader.
module DependabotUtils {
  import opened Wrappers
  import opened Text
  import opened Config
  import opened Github
  import opened LintModules
  import opened DependabotConstants
  import opened DependabotTypes
  import opened Loaders
  import Languages
  import Session

  // The lookup.

  /** The first ecosystem at index `from` or later, in table order, that serves `language`. */
  function FirstServing(language: string, from: nat): Option<string>
    decreases |PackageEcosystem| - from
  {
    if from >= |PackageEcosystem| then None
    else if Serves(from, language) then Some(PackageEcosystem[from].key)
    else FirstServing(language, from + 1)
  }

  /** What `find_language_in_ecosystem(language)` returns. */
  function EcosystemOf(language: string): Option<string>
  {
    FirstServing(language, 0)
  }

  /** `FirstServing` is the first serving row from `from` on, or None when no row there serves. */
  lemma {:induction false} FirstServingIsFirst(language: string, from: nat)
    ensures var r := FirstServing(language, from);
      (r.None? ==> forall j :: from <= j < |PackageEcosystem| ==> !Serves(j, language)) &&
      (r.Some? ==> exists j :: from <= j < |PackageEcosystem| && Serves(j, language) && PackageEcosystem[j].key == r.value)
    decreases |PackageEcosystem| - from
  {
    if from < |PackageEcosystem| && !Serves(from, language) {
      FirstServingIsFirst(language, from + 1);
    }
  }

  /**
   * The lookup, written out: rust is served by cargo, python by pip and
   * HCL by terraform, in any case; every other language by nothing.
   */
  lemma EcosystemOfExplicit(language: string)
    ensures EcosystemOf(language) ==
      if Lower(language) == "rust" then Some("cargo")
      else if Lower(language) == "python" then Some("pip")
      else if Lower(language) == "hcl" then Some("terraform")
      else None
  {
    FirstServingIsFirst(language, 0);
    EcosystemTableLanguages();
    var r := EcosystemOf(language);
    if r.Some? {
      var j :| 0 <= j < |PackageEcosystem| && Serves(j, language) && PackageEcosystem[j].key == r.value;
      ServesExplicit(j, language);
    } else {
      ServesExplicit(1, language);
      ServesExplicit(13, language);
      ServesExplicit(14, language);
    }
  }

  /** The lookup ignores case: two spellings that lower alike find the same ecosystem. */
  lemma LookupIgnoresCase(a: string, b: string)
    requires Lower(a) == Lower(b)
    ensures EcosystemOf(a) == EcosystemOf(b)
  {
    EcosystemOfExplicit(a);
    EcosystemOfExplicit(b);
  }

  /** Only an ecosystem that lists a language is ever found, so never github-actions; "Go" finds nothing. */
  lemma LookupFindsOnlyServing(language: string)
    ensures EcosystemOf(language).Some? ==>
      exists j :: 0 <= j < |PackageEcosystem| && PackageEcosystem[j].key == EcosystemOf(language).value &&
                  PackageEcosystem[j].value != []
    ensures EcosystemOf(language) != Some("github-actions")
    ensures EcosystemOf("Go") == None
  {
    EcosystemOfExplicit(language);
    EcosystemOfExplicit("Go");
    EcosystemTableLanguages();
    if EcosystemOf(language).Some? {
      var r := EcosystemOf(language).value;
      if r == "cargo" { assert PackageEcosystem[1].key == r; }
      else if r == "pip" { assert PackageEcosystem[13].key == r; }
      else { assert PackageEcosystem[14].key == r; }
    }
  }

  /** `find_language_in_ecosystem`: the table in order, each row's languages lowered. */
  method FindLanguageInEcosystem(language: string) returns (r: Option<string>)
    ensures r == EcosystemOf(language)
  {
    var lowered := Lower(language);
    var i := 0;
    while i < |PackageEcosystem|
      invariant 0 <= i <= |PackageEcosystem|
      invariant EcosystemOf(language) == FirstServing(language, i)
    {
      var lowerlang := Languages.LowerAll(PackageEcosystem[i].value);
      if lowered in lowerlang {
        ghost var k :| 0 <= k < |lowerlang| && lowerlang[k] == lowered;
        assert Serves(i, language);
        return Some(PackageEcosystem[i].key);
      }
      assert !Serves(i, language);
      i := i + 1;
    }
    return None;
  }

  // The loader.

  /** Text the YAML parser's exception stands for, where it cannot read the file. */
  const YamlFailure := "the file is not valid YAML"
  const ParseFailurePrefix := "Failed to parse dependabot config: "

  /** How loading the config file ends. */
  datatype LoadOutcome<C> =
    | NoFilename          // `repo.config[category]["config_filename"]` raised
    | Absent              // no such file
    | Unparsable(reason: string)
    | Loaded(file: C)

  /** `repo.config[category]["config_filename"]`, or None where the lookup raises. */
  function ConfigFilename(config: map<string, Value>, category: string): Option<string>
  {
    if category in config && config[category].Dict? && "config_filename" in config[category].entries &&
       config[category].entries["config_filename"].Str?
    then Some(config[category].entries["config_filename"].s)
    else None
  }

  /** What `load_dependabot_config_file` makes of the file it read. */
  function Parse(file: Option<File>, parser: YamlParser, zones: set<string>): LoadOutcome<ConfigFile>
  {
    if file.None? then Absent
    else if file.value.content !in parser then Unparsable(YamlFailure)
    else match ValidateConfigFile(parser[file.value.content], zones)
      case Success(f) => LoadOutcome.Loaded(f)
      case Failure(p) => Unparsable(Describe(p))
  }

  /** The loader records one error, under the given category, exactly when the file does not parse. */
  function LoaderErrors<C>(category: string, outcome: LoadOutcome<C>): (r: seq<Message>)
    ensures |r| == (if outcome.Unparsable? then 1 else 0)
    ensures outcome.Unparsable? ==> r[0].category == category && StartsWith(r[0].text, ParseFailurePrefix)
  {
    if outcome.Unparsable? then
      assert (ParseFailurePrefix + outcome.reason)[..|ParseFailurePrefix|] == ParseFailurePrefix;
      [Message(category, ParseFailurePrefix + outcome.reason)]
    else []
  }

  /**
   * A missing file loads as nothing and records nothing; a read file loads
   * exactly when its text parses to a mapping with an integer version and
   * an empty list of updates, as that version with no update; every other
   * read file is unparsable.
   */
  lemma ParseOutcomes(file: Option<File>, parser: YamlParser, zones: set<string>)
    ensures file.None? ==> Parse(file, parser, zones) == Absent && LoaderErrors("dependabot", Parse(file, parser, zones)) == []
    ensures Parse(file, parser, zones).Loaded? <==>
      file.Some? && file.value.content in parser &&
      var doc := parser[file.value.content];
      doc.Dict? && "version" in doc.entries && doc.entries["version"].Int? && "updates" in doc.entries &&
      doc.entries["updates"] == List([])
    ensures Parse(file, parser, zones).Loaded? ==>
      Parse(file, parser, zones).file == ConfigFile(parser[file.value.content].entries["version"].i, [])
    ensures file.Some? ==> (Parse(file, parser, zones).Unparsable? <==> !Parse(file, parser, zones).Loaded?)
  {
    if file.Some? && file.value.content in parser {
      ConfigFileFields(parser[file.value.content], zones);
    }
  }

  /**
   * What the read of the configured file leaves behind: with no configured
   * filename, nothing read and nothing cached; otherwise the answer of a
   * cached read of that path, and the cache changed at that path only.
   */
  predicate ReadFacts(before: map<string, Option<File>>, after: map<string, Option<File>>, config: map<string, Value>,
                      contents: map<string, seq<File>>, category: string, file: Option<File>)
  {
    var name := ConfigFilename(config, category);
    (name.None? ==> file == None && after == before) &&
    (name.Some? ==>
       Session.ReadAnswer(before, contents, name.value, file) &&
       Session.CacheHolds(after, name.value, file) && after - {name.value} == before - {name.value})
  }

  /** The read of `load_dependabot_config_file`: the configured path through `cached_get_file`. */
  method ReadConfigFile(linter: Session.RepoLinter, category: string) returns (file: Option<File>)
    modifies linter`filecache
    ensures ReadFacts(old(linter.filecache), linter.filecache, linter.config, linter.repository.contents, category, file)
  {
    var path := ConfigFilename(linter.config, category);
    if path.None? {
      return None;
    }
    file := linter.CachedGetFile(path.value, false);
  }

  /** What loading leaves behind: the read, and its answer parsed unless there was no filename. */
  predicate LoadFacts(before: map<string, Option<File>>, after: map<string, Option<File>>, config: map<string, Value>,
                      contents: map<string, seq<File>>, category: string, parser: YamlParser, zones: set<string>,
                      outcome: LoadOutcome<ConfigFile>, file: Option<File>)
  {
    ReadFacts(before, after, config, contents, category, file) &&
    outcome == (if ConfigFilename(config, category).None? then NoFilename else Parse(file, parser, zones))
  }

  /**
   * `load_dependabot_config_file(repo, category)`. The error it records for
   * a file that does not parse is the first message of each command's run
   * (`LoaderErrors`).
   */
  method LoadDependabotConfigFile(linter: Session.RepoLinter, category: string, parser: YamlParser, zones: set<string>)
    returns (outcome: LoadOutcome<ConfigFile>, file: Option<File>)
    modifies linter`filecache
    ensures LoadFacts(old(linter.filecache), linter.filecache, linter.config, linter.repository.contents, category,
                      parser, zones, outcome, file)
  {
    file := ReadConfigFile(linter, category);
    if ConfigFilename(linter.config, category).None? {
      return NoFilename, None;
    }
    outcome := Parse(file, parser, zones);
  }
}
