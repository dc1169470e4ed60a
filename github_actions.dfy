// The GitHub Actions checks (github_linter/tests/github_actions.py): the
// workflow directory, the workflows each repository language needs and the
// keys each must carry, the shellcheck action, and the dependency review
// workflow that must match its template byte for byte.
module GithubActions {
  import opened Wrappers
  import opened Text
  import opened Config
  import opened Github
  import opened LintModules
  import opened Loaders
  import Session

  const Category := "github_actions"
  const GithubDir := ".github"
  const WorkflowsDir := ".github/workflows"
  const DefaultDependencyReview := ".github/workflows/dependency_review.yml"

  /** The languages `DEFAULT_CONFIG` lists workflows for, and those workflows. */
  const DefaultTests: Value := Dict(map[
    "Python" := List([Str("mypy.yml"), Str("pylint.yml"), Str("pytest.yml")]),
    "Shell" := List([Str("shellcheck.yml")]),
    "Dockerfile" := List([Str("build_container.yml")])])

  const DefaultConfigValue: Value :=
    Dict(map["tests_per_language" := DefaultTests, "dependency_review" := Str(DefaultDependencyReview)])

  const Members: seq<string> := [
    "CATEGORY", "DEFAULT_CONFIG", "DefaultConfig", "DependencyReviewFilePaths", "LANGUAGES",
    "check_a_workflow_dir_exists", "check_dependency_review_file", "check_language_workflows", "check_shellcheck",
    "fix_dependency_review_file", "fix_language_workflows", "get_dependency_review_file_paths"
  ]

  const Module := LintModule(Category, Some(["all"]), MappingDefault(DefaultConfigValue), Members)

  // check_a_workflow_dir_exists

  const GithubDirMissing := ".github dir not found"
  const WorkflowsDirMissing := "Workflows dir (.github/workflows) missing."

  /** At most one error: the first missing directory of `.github` and `.github/workflows`. */
  function WorkflowDirRun(github: Option<File>, workflows: Option<File>): (r: CommandRun)
    ensures r.warnings == [] && r.fixes == [] && r.signal == Completed
    ensures r.errors == [] <==> github.Some? && workflows.Some?
    ensures github.None? ==> r.errors == [Message(Category, GithubDirMissing)]
    ensures github.Some? && workflows.None? ==> r.errors == [Message(Category, WorkflowsDirMissing)]
  {
    if github.None? then CommandRun(Filed(Category, [GithubDirMissing]), [], [], Completed)
    else if workflows.None? then CommandRun(Filed(Category, [WorkflowsDirMissing]), [], [], Completed)
    else Quiet
  }

  /**
   * `check_a_workflow_dir_exists`: both probes refetch, so neither answer
   * comes from the cache; the second is made only when `.github` was found.
   */
  method CheckAWorkflowDirExists(linter: Session.RepoLinter) returns (signal: Signal, github: Option<File>, workflows: Option<File>)
    modifies linter`filecache, linter`errors, linter`warnings, linter`fixes
    ensures github == None || github == FileAt(linter.repository.contents, GithubDir)
    ensures workflows == None || (github.Some? && workflows == FileAt(linter.repository.contents, WorkflowsDir))
    ensures linter.filecache - {GithubDir, WorkflowsDir} == old(linter.filecache) - {GithubDir, WorkflowsDir}
    ensures signal == Completed
    ensures Results(linter.errors, linter.warnings, linter.fixes) ==
      Apply(old(Results(linter.errors, linter.warnings, linter.fixes)), WorkflowDirRun(github, workflows))
  {
    workflows := None;
    github := linter.CachedGetFile(GithubDir, true);
    if github.Some? {
      workflows := linter.CachedGetFile(WorkflowsDir, true);
    }
    var run := WorkflowDirRun(github, workflows);
    linter.Perform(run);
    signal := run.signal;
  }

  // The workflows per language.

  /** `repo.config[CATEGORY]["tests_per_language"]`, or None where the lookup raises. */
  function TestsPerLanguage(config: map<string, Value>): Option<Value>
  {
    if Category in config && config[Category].Dict? && "tests_per_language" in config[Category].entries
    then Some(config[Category].entries["tests_per_language"])
    else None
  }

  /** How one repository language fares against `tests_per_language`. */
  datatype Expected = Unlisted | Files(names: seq<string>) | Unreadable

  /** `f"{v}"` for a scalar value, or None for a list or a mapping. */
  function Formatted(v: Value): (r: Option<string>)
    ensures v.Str? ==> r == Some(v.s)
    ensures r.Some? <==> !v.List? && !v.Dict?
  {
    match v
    case Null => Some("None")
    case Bool(b) => Some(BoolToString(b))
    case Int(i) => Some(IntToString(i))
    case Str(s) => Some(s)
    case _ => None
  }

  /**
   * The file names `for filename in expected_files` formats: a string's
   * characters, or the items of a list of scalars as the f-string shows
   * them; None for anything else.
   */
  function FileNames(v: Value): (r: Option<seq<string>>)
    ensures v.Str? ==> r == Some(Characters(v.s))
    ensures v.List? ==> (r.Some? <==> forall k :: 0 <= k < |v.items| ==> Formatted(v.items[k]).Some?)
    ensures v.List? && r.Some? ==>
      |r.value| == |v.items| && forall k :: 0 <= k < |v.items| ==> Formatted(v.items[k]) == Some(r.value[k])
    ensures r.Some? ==> v.Str? || v.List?
  {
    match v
    case Str(s) => Some(Characters(s))
    case List(items) =>
      if forall k :: 0 <= k < |items| ==> Formatted(items[k]).Some?
      then Some(seq(|items|, k requires 0 <= k < |items| => Formatted(items[k]).value))
      else None
    case _ => None
  }

  /** A list of strings names exactly its items, as the newer lists do. */
  lemma FileNamesOfStrings(items: seq<Value>)
    requires StringItems(items).Some?
    ensures FileNames(List(items)) == StringItems(items)
  {
    var names := StringItems(items).value;
    forall k | 0 <= k < |items| ensures Formatted(items[k]) == Some(names[k]) {
      assert items[k] == Str(names[k]);
    }
    var r := FileNames(List(items));
    assert r.Some?;
    assert r.value == names;
  }

  /**
   * The workflow files listed for `language`: none when it is not a key,
   * and `Unreadable` where the lookup raises or the entry is a value whose
   * iteration `FileNames` does not follow.
   */
  function ExpectedFor(tests: Option<Value>, language: string): Expected
  {
    if tests.None? then Unreadable
    else match HasKey(tests.value, language)
      case None => Unreadable
      case Some(false) => Unlisted
      case Some(true) =>
        if tests.value.Dict? && FileNames(tests.value.entries[language]).Some?
        then Files(FileNames(tests.value.entries[language]).value)
        else Unreadable
  }

  /** One workflow a language needs. */
  datatype Target = Target(language: string, filename: string)

  function WorkflowPath(t: Target): string
  {
    ".github/workflows/" + t.filename
  }

  /** Where the fix finds the file it creates, relative to the module's fix files. */
  function TemplatePath(t: Target): string
  {
    "templates/" + t.language + "/" + t.filename
  }

  /** The workflows to probe, in order, and whether listing them raised after the last one. */
  datatype Plan = Plan(targets: seq<Target>, raised: bool)

  function TargetsOf(language: string, files: seq<string>): (r: seq<Target>)
    ensures |r| == |files| && forall k :: 0 <= k < |files| ==> r[k] == Target(language, files[k])
  {
    seq(|files|, k requires 0 <= k < |files| => Target(language, files[k]))
  }

  /** The files each language lists, language by language in repository order, until a lookup raises. */
  function PlanFor(languages: seq<string>, tests: Option<Value>): Plan
    decreases |languages|
  {
    if languages == [] then Plan([], false)
    else match ExpectedFor(tests, languages[0])
      case Unreadable => Plan([], true)
      case Unlisted => PlanFor(languages[1..], tests)
      case Files(names) =>
        var rest := PlanFor(languages[1..], tests);
        Plan(TargetsOf(languages[0], names) + rest.targets, rest.raised)
  }

  /**
   * Every planned workflow is a file listed for a repository language;
   * when the listing does not raise, every file listed for every
   * repository language is planned.
   */
  lemma {:induction false} PlanCovers(languages: seq<string>, tests: Option<Value>, t: Target)
    ensures t in PlanFor(languages, tests).targets ==>
      t.language in languages && ExpectedFor(tests, t.language).Files? && t.filename in ExpectedFor(tests, t.language).names
    ensures (!PlanFor(languages, tests).raised && t.language in languages && ExpectedFor(tests, t.language).Files? &&
             t.filename in ExpectedFor(tests, t.language).names) ==> t in PlanFor(languages, tests).targets
    ensures PlanFor(languages, tests).raised <==> exists k :: 0 <= k < |languages| && ExpectedFor(tests, languages[k]).Unreadable?
    decreases |languages|
  {
    if languages != [] {
      PlanCovers(languages[1..], tests, t);
      var e := ExpectedFor(tests, languages[0]);
      if e.Files? && t.language == languages[0] && t.filename in e.names {
        var k :| 0 <= k < |e.names| && e.names[k] == t.filename;
        assert TargetsOf(languages[0], e.names)[k] == t;
      }
      if PlanFor(languages, tests).raised && !e.Unreadable? {
        var k :| 0 <= k < |languages[1..]| && ExpectedFor(tests, languages[1..][k]).Unreadable?;
        assert languages[k + 1] == languages[1..][k];
      }
      if exists k :: 0 <= k < |languages| && ExpectedFor(tests, languages[k]).Unreadable? {
        var k :| 0 <= k < |languages| && ExpectedFor(tests, languages[k]).Unreadable?;
        if k > 0 {
          assert languages[1..][k - 1] == languages[k];
        }
      }
    }
  }

  /** Without a "Python" key the default lists three workflows for Python, one for Shell and one for Dockerfile. */
  lemma DefaultWorkflows()
    ensures ExpectedFor(Some(DefaultTests), "Python") == Files(["mypy.yml", "pylint.yml", "pytest.yml"])
    ensures ExpectedFor(Some(DefaultTests), "Shell") == Files(["shellcheck.yml"])
    ensures ExpectedFor(Some(DefaultTests), "Dockerfile") == Files(["build_container.yml"])
    ensures ExpectedFor(Some(DefaultTests), "Rust") == Unlisted
  {
  }

  /** The two loops of the check and the fix over languages and their files, before any file is read. */
  method PlannedTargets(languages: seq<string>, tests: Option<Value>) returns (plan: Plan)
    ensures plan == PlanFor(languages, tests)
  {
    var targets: seq<Target> := [];
    var i := 0;
    while i < |languages|
      invariant 0 <= i <= |languages|
      invariant PlanFor(languages, tests) == Plan(targets + PlanFor(languages[i..], tests).targets, PlanFor(languages[i..], tests).raised)
    {
      assert languages[i..][1..] == languages[i + 1..];
      var expected := ExpectedFor(tests, languages[i]);
      if expected.Unreadable? {
        return Plan(targets, true);
      }
      if expected.Files? {
        targets := targets + TargetsOf(languages[i], expected.names);
      }
      i := i + 1;
    }
    plan := Plan(targets, false);
  }

  // check_language_workflows

  const RequiredKeys: seq<string> := ["name", "on", "jobs"]

  function CouldNotLoad(path: string): string
  {
    "Couldn't find/load github actions file: " + path
  }

  function MissingKey(path: string, key: string): string
  {
    "Missing key in action file " + path + ": " + key
  }

  lemma MissingKeyInjective(path: string, a: string, b: string)
    requires MissingKey(path, a) == MissingKey(path, b)
    ensures a == b
  {
    var n := |"Missing key in action file " + path + ": "|;
    assert a == MissingKey(path, a)[n..];
    assert b == MissingKey(path, b)[n..];
  }

  /** A truthy document that is a number or a bool: `key not in doc` raises on it. */
  predicate Raises(doc: Value)
  {
    Truthy(doc) && HasKey(doc, "name").None?
  }

  /** One error per key of `keys` the document lacks, in order. */
  function MissingKeys(path: string, doc: Value, keys: seq<string>): seq<string>
    decreases |keys|
  {
    if keys == [] then []
    else
      var k := keys[|keys| - 1];
      MissingKeys(path, doc, keys[..|keys| - 1]) + (if HasKey(doc, k) == Some(false) then [MissingKey(path, k)] else [])
  }

  lemma {:induction false} MissingKeysMembers(path: string, doc: Value, keys: seq<string>, m: string)
    ensures m in MissingKeys(path, doc, keys) <==> exists k :: k in keys && HasKey(doc, k) == Some(false) && m == MissingKey(path, k)
    ensures |MissingKeys(path, doc, keys)| <= |keys|
    decreases |keys|
  {
    if keys != [] {
      var init := keys[..|keys| - 1];
      MissingKeysMembers(path, doc, init, m);
      assert keys == init + [keys[|keys| - 1]];
    }
  }

  /** What the check records for one probed workflow whose document does not raise. */
  function WorkflowErrors(path: string, doc: Value): seq<string>
  {
    if !Truthy(doc) then [CouldNotLoad(path)] else MissingKeys(path, doc, RequiredKeys)
  }

  /**
   * One error for a workflow that is missing, empty or not YAML; otherwise
   * exactly one error for each of `name`, `on` and `jobs` that it lacks.
   */
  lemma WorkflowErrorsCases(path: string, doc: Value)
    requires !Raises(doc)
    ensures !Truthy(doc) ==> WorkflowErrors(path, doc) == [CouldNotLoad(path)]
    ensures Truthy(doc) ==> CouldNotLoad(path) !in WorkflowErrors(path, doc) && |WorkflowErrors(path, doc)| <= 3
    ensures Truthy(doc) ==> forall k :: k in RequiredKeys ==>
      (MissingKey(path, k) in WorkflowErrors(path, doc) <==> HasKey(doc, k) == Some(false))
    ensures CouldNotLoad(path) in WorkflowErrors(path, doc) <==> !Truthy(doc)
  {
    if Truthy(doc) {
      forall k | k in RequiredKeys
        ensures MissingKey(path, k) in WorkflowErrors(path, doc) <==> HasKey(doc, k) == Some(false)
      {
        MissingKeysMembers(path, doc, RequiredKeys, MissingKey(path, k));
        if MissingKey(path, k) in WorkflowErrors(path, doc) {
          var k' :| k' in RequiredKeys && HasKey(doc, k') == Some(false) && MissingKey(path, k) == MissingKey(path, k');
          MissingKeyInjective(path, k, k');
        }
      }
      MissingKeysMembers(path, doc, RequiredKeys, CouldNotLoad(path));
    }
  }

  /** The probes were made in plan order and stopped right after the first document that raises. */
  predicate Probed(targets: seq<Target>, docs: seq<Value>)
  {
    |docs| <= |targets| &&
    (forall k :: 0 <= k < |docs| - 1 ==> !Raises(docs[k])) &&
    (|docs| < |targets| ==> docs != [] && Raises(docs[|docs| - 1]))
  }

  /** The errors for the probed workflows, in order. */
  function ProbedErrors(targets: seq<Target>, docs: seq<Value>): seq<string>
    requires |docs| <= |targets|
    decreases |docs|
  {
    if docs == [] then []
    else
      var k := |docs| - 1;
      ProbedErrors(targets, docs[..k]) + (if Raises(docs[k]) then [] else WorkflowErrors(WorkflowPath(targets[k]), docs[k]))
  }

  lemma ProbedErrorsMembers(targets: seq<Target>, docs: seq<Value>, m: string)
    requires |docs| <= |targets|
    ensures m in ProbedErrors(targets, docs) <==>
      exists k :: 0 <= k < |docs| && !Raises(docs[k]) && m in WorkflowErrors(WorkflowPath(targets[k]), docs[k])
  {
    if m in ProbedErrors(targets, docs) {
      ProbedErrorsSound(targets, docs, m);
    }
    forall k | 0 <= k < |docs| && !Raises(docs[k]) && m in WorkflowErrors(WorkflowPath(targets[k]), docs[k])
      ensures m in ProbedErrors(targets, docs)
    {
      ProbedErrorsComplete(targets, docs, m, k);
    }
  }

  /** Every probed error comes from a probed workflow that did not raise. */
  lemma {:induction false} ProbedErrorsSound(targets: seq<Target>, docs: seq<Value>, m: string)
    requires |docs| <= |targets| && m in ProbedErrors(targets, docs)
    ensures exists k :: 0 <= k < |docs| && !Raises(docs[k]) && m in WorkflowErrors(WorkflowPath(targets[k]), docs[k])
    decreases |docs|
  {
    var k := |docs| - 1;
    var prior := docs[..k];
    var last := if Raises(docs[k]) then [] else WorkflowErrors(WorkflowPath(targets[k]), docs[k]);
    assert ProbedErrors(targets, docs) == ProbedErrors(targets, prior) + last;
    if m in last {
      assert !Raises(docs[k]) && m in WorkflowErrors(WorkflowPath(targets[k]), docs[k]);
    } else {
      ProbedErrorsSound(targets, prior, m);
      var j :| 0 <= j < k && !Raises(prior[j]) && m in WorkflowErrors(WorkflowPath(targets[j]), prior[j]);
      assert prior[j] == docs[j];
    }
  }

  /** Every error of a probed workflow that did not raise is among the probed errors. */
  lemma {:induction false} ProbedErrorsComplete(targets: seq<Target>, docs: seq<Value>, m: string, k: int)
    requires |docs| <= |targets| && 0 <= k < |docs| && !Raises(docs[k])
    requires m in WorkflowErrors(WorkflowPath(targets[k]), docs[k])
    ensures m in ProbedErrors(targets, docs)
    decreases |docs|
  {
    var n := |docs| - 1;
    var prior := docs[..n];
    var last := if Raises(docs[n]) then [] else WorkflowErrors(WorkflowPath(targets[n]), docs[n]);
    assert ProbedErrors(targets, docs) == ProbedErrors(targets, prior) + last;
    if k < n {
      assert prior[k] == docs[k];
      ProbedErrorsComplete(targets, prior, m, k);
    }
  }

  /** What `check_language_workflows` records for the documents it loaded. */
  function LanguageWorkflowsRun(plan: Plan, docs: seq<Value>): CommandRun
    requires |docs| <= |plan.targets|
  {
    var raised := plan.raised || (docs != [] && Raises(docs[|docs| - 1]));
    CommandRun(Filed(Category, ProbedErrors(plan.targets, docs)), [], [], if raised then Raised else Completed)
  }

  /**
   * The check's errors: a planned workflow that did not load is reported
   * as such, and one that loaded is reported once for each required key it
   * lacks; nothing else is reported, and only errors are recorded.
   */
  lemma LanguageWorkflowsErrors(plan: Plan, docs: seq<Value>, k: nat, key: string)
    requires Probed(plan.targets, docs) && k < |docs| && !Raises(docs[k])
    ensures var run := LanguageWorkflowsRun(plan, docs);
      var path := WorkflowPath(plan.targets[k]);
      run.warnings == [] && run.fixes == [] &&
      (!Truthy(docs[k]) ==> Message(Category, CouldNotLoad(path)) in run.errors) &&
      (Truthy(docs[k]) && key in RequiredKeys && HasKey(docs[k], key) == Some(false) ==>
         Message(Category, MissingKey(path, key)) in run.errors)
    ensures var run := LanguageWorkflowsRun(plan, docs);
      forall m :: m in run.errors ==>
        (m.category == Category &&
         exists j :: 0 <= j < |docs| && !Raises(docs[j]) && m.text in WorkflowErrors(WorkflowPath(plan.targets[j]), docs[j]))
  {
    var path := WorkflowPath(plan.targets[k]);
    var errs := ProbedErrors(plan.targets, docs);
    WorkflowErrorsCases(path, docs[k]);
    if !Truthy(docs[k]) {
      ProbedErrorsMembers(plan.targets, docs, CouldNotLoad(path));
      var i :| 0 <= i < |errs| && errs[i] == CouldNotLoad(path);
      assert Filed(Category, errs)[i] == Message(Category, CouldNotLoad(path));
    } else if key in RequiredKeys && HasKey(docs[k], key) == Some(false) {
      ProbedErrorsMembers(plan.targets, docs, MissingKey(path, key));
      var i :| 0 <= i < |errs| && errs[i] == MissingKey(path, key);
      assert Filed(Category, errs)[i] == Message(Category, MissingKey(path, key));
    }
    forall m | m in Filed(Category, errs)
      ensures m.category == Category &&
        exists j :: 0 <= j < |docs| && !Raises(docs[j]) && m.text in WorkflowErrors(WorkflowPath(plan.targets[j]), docs[j])
    {
      var i :| 0 <= i < |errs| && Filed(Category, errs)[i] == m;
      ProbedErrorsMembers(plan.targets, docs, errs[i]);
    }
  }

  /**
   * Each probe's document is what `load_yaml_file` made of the read's
   * answer, and each answer is a possible read of the state before.
   */
  predicate Loads(before: map<string, Option<File>>, contents: map<string, seq<File>>, parser: YamlParser,
                  targets: seq<Target>, files: seq<Option<File>>, docs: seq<Value>)
  {
    |files| == |docs| <= |targets| &&
    forall k :: 0 <= k < |docs| ==>
      docs[k] == LoadYaml(files[k], parser) && Session.Possible(before, contents, WorkflowPath(targets[k]), files[k])
  }

  lemma LoadsSnoc(before: map<string, Option<File>>, contents: map<string, seq<File>>, parser: YamlParser,
                  targets: seq<Target>, files: seq<Option<File>>, docs: seq<Value>, file: Option<File>, doc: Value)
    requires Loads(before, contents, parser, targets, files, docs) && |docs| < |targets|
    requires doc == LoadYaml(file, parser) && Session.Possible(before, contents, WorkflowPath(targets[|docs|]), file)
    ensures Loads(before, contents, parser, targets, files + [file], docs + [doc])
  {
  }

  /** What the check's loop has established after its probes so far. */
  predicate CheckProgress(before: map<string, Option<File>>, contents: map<string, seq<File>>, parser: YamlParser,
                          targets: seq<Target>, files: seq<Option<File>>, docs: seq<Value>, errs: seq<string>, stop: bool)
  {
    Loads(before, contents, parser, targets, files, docs) &&
    (forall k :: 0 <= k < |docs| - 1 ==> !Raises(docs[k])) &&
    stop == (docs != [] && Raises(docs[|docs| - 1])) &&
    errs == ProbedErrors(targets, docs)
  }

  lemma CheckProgressSnoc(before: map<string, Option<File>>, contents: map<string, seq<File>>, parser: YamlParser,
                          targets: seq<Target>, files: seq<Option<File>>, docs: seq<Value>, errs: seq<string>,
                          file: Option<File>, doc: Value)
    requires CheckProgress(before, contents, parser, targets, files, docs, errs, false) && |docs| < |targets|
    requires doc == LoadYaml(file, parser) && Session.Possible(before, contents, WorkflowPath(targets[|docs|]), file)
    ensures CheckProgress(before, contents, parser, targets, files + [file], docs + [doc],
                          errs + (if Raises(doc) then [] else WorkflowErrors(WorkflowPath(targets[|docs|]), doc)), Raises(doc))
  {
    LoadsSnoc(before, contents, parser, targets, files, docs, file, doc);
    assert (docs + [doc])[..|docs|] == docs;
  }

  /** The loop of `check_language_workflows` over the planned workflows. */
  method ProbeWorkflows(linter: Session.RepoLinter, parser: YamlParser, targets: seq<Target>)
    returns (files: seq<Option<File>>, docs: seq<Value>, errs: seq<string>, stop: bool)
    modifies linter`filecache
    ensures CheckProgress(old(linter.filecache), linter.repository.contents, parser, targets, files, docs, errs, stop)
    ensures |docs| < |targets| ==> stop
    ensures Session.CacheFrom(old(linter.filecache), linter.filecache, linter.repository.contents, {})
  {
    ghost var start := linter.filecache;
    ghost var contents := linter.repository.contents;
    files, docs, errs, stop := [], [], [], false;
    var i := 0;
    while i < |targets| && !stop
      invariant 0 <= i <= |targets| && |docs| == i
      invariant CheckProgress(start, contents, parser, targets, files, docs, errs, stop)
      invariant Session.CacheFrom(start, linter.filecache, contents, {})
    {
      var path := WorkflowPath(targets[i]);
      ghost var before := linter.filecache;
      var doc, file := LoadYamlFile(linter, path, parser);
      Session.PossibleFrom(start, before, contents, contents, {}, path, file);
      Session.CacheFromTrans(start, before, linter.filecache, contents, contents, {});
      CheckProgressSnoc(start, contents, parser, targets, files, docs, errs, file, doc);
      files, docs := files + [file], docs + [doc];
      if Raises(doc) {
        stop := true;
      } else {
        errs := errs + WorkflowErrors(path, doc);
      }
      i := i + 1;
    }
  }

  /**
   * `check_language_workflows`. `files` are the answers of the reads and
   * `docs` what `load_yaml_file` made of them, one per probed workflow.
   */
  method CheckLanguageWorkflows(linter: Session.RepoLinter, parser: YamlParser)
    returns (signal: Signal, plan: Plan, files: seq<Option<File>>, docs: seq<Value>)
    modifies linter`filecache, linter`errors, linter`warnings, linter`fixes
    ensures plan == PlanFor(linter.repository.languages, TestsPerLanguage(linter.config))
    ensures Probed(plan.targets, docs)
    ensures Loads(old(linter.filecache), linter.repository.contents, parser, plan.targets, files, docs)
    ensures Session.CacheFrom(old(linter.filecache), linter.filecache, linter.repository.contents, {})
    ensures var run := LanguageWorkflowsRun(plan, docs);
      signal == run.signal &&
      Results(linter.errors, linter.warnings, linter.fixes) == Apply(old(Results(linter.errors, linter.warnings, linter.fixes)), run)
  {
    plan := PlannedTargets(linter.repository.languages, TestsPerLanguage(linter.config));
    var errs, stop;
    files, docs, errs, stop := ProbeWorkflows(linter, parser, plan.targets);
    var run := CommandRun(Filed(Category, errs), [], [], if plan.raised || stop then Raised else Completed);
    linter.Perform(run);
    signal := run.signal;
  }

  // fix_language_workflows

  function CreatedCommitMessage(path: string): string
  {
    "github_linter: Created " + path + " from fix_language_workflows"
  }

  function CreatedFix(path: string, url: string): string
  {
    "Created " + path + " from fix_language_workflows: " + url
  }

  /** The fix stops at a workflow it must create but has no template for (the ValueError). */
  predicate Stuck(t: Target, doc: Value, templates: map<string, string>)
  {
    !Truthy(doc) && TemplatePath(t) !in templates
  }

  /** No probe of the fix but perhaps the last was stuck. */
  predicate StuckAtMostLast(targets: seq<Target>, docs: seq<Value>, templates: map<string, string>)
    requires |docs| <= |targets|
  {
    forall k :: 0 <= k < |docs| - 1 ==> !Stuck(targets[k], docs[k], templates)
  }

  lemma StuckAtMostLastSnoc(targets: seq<Target>, docs: seq<Value>, templates: map<string, string>, doc: Value)
    requires |docs| < |targets| && StuckAtMostLast(targets, docs, templates)
    requires docs != [] ==> !Stuck(targets[|docs| - 1], docs[|docs| - 1], templates)
    ensures StuckAtMostLast(targets, docs + [doc], templates)
  {
  }

  /** The probes of the fix were made in plan order and stopped right after the first stuck one. */
  predicate FixProbed(targets: seq<Target>, docs: seq<Value>, templates: map<string, string>)
  {
    |docs| <= |targets| && StuckAtMostLast(targets, docs, templates) &&
    (|docs| < |targets| ==> docs != [] && Stuck(targets[|docs| - 1], docs[|docs| - 1], templates))
  }

  /** The commits the fix makes for the workflows with a commit url, in order: creations, against no old file. */
  function CreatedCommits(targets: seq<Target>, urls: seq<Option<string>>, templates: map<string, string>): seq<Commit>
    requires |urls| <= |targets|
    requires forall k :: 0 <= k < |urls| && urls[k].Some? ==> TemplatePath(targets[k]) in templates
    decreases |urls|
  {
    if urls == [] then []
    else
      var k := |urls| - 1;
      var t := targets[k];
      CreatedCommits(targets, urls[..k], templates) +
        (if urls[k].Some? then [Commit(WorkflowPath(t), CreatedCommitMessage(WorkflowPath(t)), templates[TemplatePath(t)], "")] else [])
  }

  /** The fixes recorded for the workflows with a commit url, in order. */
  function CreatedFixes(targets: seq<Target>, urls: seq<Option<string>>): seq<string>
    requires |urls| <= |targets|
    decreases |urls|
  {
    if urls == [] then []
    else
      var k := |urls| - 1;
      CreatedFixes(targets, urls[..k]) + (if urls[k].Some? then [CreatedFix(WorkflowPath(targets[k]), urls[k].value)] else [])
  }

  /** The paths created among the first `n` probes. */
  function CreatedPaths(targets: seq<Target>, urls: seq<Option<string>>, n: nat): set<string>
    requires n <= |urls| <= |targets|
  {
    set k | 0 <= k < n && urls[k].Some? :: WorkflowPath(targets[k])
  }

  /** What `fix_language_workflows` records. */
  function LanguageWorkflowsFixRun(plan: Plan, docs: seq<Value>, urls: seq<Option<string>>, templates: map<string, string>): CommandRun
    requires |urls| <= |plan.targets|
  {
    var stuck := docs != [] && |docs| <= |plan.targets| && Stuck(plan.targets[|docs| - 1], docs[|docs| - 1], templates);
    CommandRun([], [], Filed(Category, CreatedFixes(plan.targets, urls)), if plan.raised || stuck then Raised else Completed)
  }

  /**
   * The fix only creates: every commit it makes is for a planned workflow
   * whose document came back empty, made against no old file (sha ""), with
   * the workflow's template as its bytes; it records one fix per commit.
   */
  lemma {:induction false} CreatedCommitsAreCreations(targets: seq<Target>, docs: seq<Value>, urls: seq<Option<string>>,
                                                      templates: map<string, string>, c: Commit)
    requires |urls| == |docs| <= |targets|
    requires forall k :: 0 <= k < |urls| ==> (urls[k].Some? <==> !Truthy(docs[k]) && TemplatePath(targets[k]) in templates)
    ensures |CreatedCommits(targets, urls, templates)| == |CreatedFixes(targets, urls)|
    ensures c in CreatedCommits(targets, urls, templates) ==>
      c.sha == "" &&
      exists k :: (0 <= k < |docs| && !Truthy(docs[k]) && c.path == WorkflowPath(targets[k]) &&
        TemplatePath(targets[k]) in templates && c.content == templates[TemplatePath(targets[k])] &&
        c.message == CreatedCommitMessage(c.path))
    decreases |urls|
  {
    if urls != [] {
      var k := |urls| - 1;
      CreatedCommitsAreCreations(targets, docs[..k], urls[..k], templates, c);
      if c in CreatedCommits(targets, urls[..k], templates) {
        var j :| 0 <= j < k && !Truthy(docs[..k][j]) && c.path == WorkflowPath(targets[j]) &&
          TemplatePath(targets[j]) in templates && c.content == templates[TemplatePath(targets[j])] &&
          c.message == CreatedCommitMessage(c.path);
        assert docs[..k][j] == docs[j];
      }
    }
  }

  /**
   * Each probe of the fix: its document is what `load_yaml_file` made of
   * the answer, it has a commit url exactly when it was created, and its
   * answer is a possible read of the state before unless the fix had
   * already created that workflow.
   */
  predicate FixLoads(before: map<string, Option<File>>, contents: map<string, seq<File>>, parser: YamlParser,
                     templates: map<string, string>, targets: seq<Target>, files: seq<Option<File>>, docs: seq<Value>,
                     urls: seq<Option<string>>)
  {
    |files| == |docs| == |urls| <= |targets| &&
    forall k :: 0 <= k < |docs| ==>
      docs[k] == LoadYaml(files[k], parser) &&
      (urls[k].Some? <==> !Truthy(docs[k]) && TemplatePath(targets[k]) in templates) &&
      (WorkflowPath(targets[k]) in CreatedPaths(targets, urls, k) ||
       Session.Possible(before, contents, WorkflowPath(targets[k]), files[k]))
  }

  lemma CreatedPathsSnoc(targets: seq<Target>, urls: seq<Option<string>>, url: Option<string>)
    requires |urls| < |targets|
    ensures forall k :: 0 <= k <= |urls| ==> CreatedPaths(targets, urls + [url], k) == CreatedPaths(targets, urls, k)
    ensures CreatedPaths(targets, urls + [url], |urls| + 1) ==
      CreatedPaths(targets, urls, |urls|) + (if url.Some? then {WorkflowPath(targets[|urls|])} else {})
  {
    var n := |urls|;
    var all := CreatedPaths(targets, urls + [url], n + 1);
    var prior := CreatedPaths(targets, urls, n);
    forall p | p in all ensures p in prior + (if url.Some? then {WorkflowPath(targets[n])} else {}) {
      var k :| 0 <= k < n + 1 && (urls + [url])[k].Some? && p == WorkflowPath(targets[k]);
      if k < n {
        assert (urls + [url])[k] == urls[k];
      }
    }
    forall p | p in prior ensures p in all {
      var k :| 0 <= k < n && urls[k].Some? && p == WorkflowPath(targets[k]);
      assert (urls + [url])[k] == urls[k];
    }
    if url.Some? {
      assert (urls + [url])[n] == url;
      assert WorkflowPath(targets[n]) in all;
    }
  }

  lemma FixLoadsSnoc(before: map<string, Option<File>>, contents: map<string, seq<File>>, parser: YamlParser,
                     templates: map<string, string>, targets: seq<Target>, files: seq<Option<File>>, docs: seq<Value>,
                     urls: seq<Option<string>>, file: Option<File>, doc: Value, url: Option<string>)
    requires FixLoads(before, contents, parser, templates, targets, files, docs, urls) && |docs| < |targets|
    requires doc == LoadYaml(file, parser)
    requires url.Some? <==> !Truthy(doc) && TemplatePath(targets[|docs|]) in templates
    requires WorkflowPath(targets[|docs|]) in CreatedPaths(targets, urls, |docs|) ||
             Session.Possible(before, contents, WorkflowPath(targets[|docs|]), file)
    ensures FixLoads(before, contents, parser, templates, targets, files + [file], docs + [doc], urls + [url])
  {
    CreatedPathsSnoc(targets, urls, url);
  }

  /**
   * What the fix has done to the repository and the cache so far: its
   * commits appended, the listings of the paths it wrote replaced, every
   * other path's file as before, and no cache entry outside `w` but one
   * from before or one read from `contents`.
   */
  ghost predicate Wrote(contents: map<string, seq<File>>, now: map<string, seq<File>>, commits0: seq<Commit>,
                        commits: seq<Commit>, created: seq<Commit>, w: set<string>,
                        start: map<string, Option<File>>, cache: map<string, Option<File>>)
  {
    commits == commits0 + created &&
    Committed(contents, now, created) &&
    (forall p :: p !in w ==> FileAt(now, p) == FileAt(contents, p)) &&
    Session.CacheFrom(start, cache, contents, w)
  }

  /** A read through the cache keeps `Wrote`, and is a possible read of the state before unless its path was written. */
  lemma WroteRead(contents: map<string, seq<File>>, now: map<string, seq<File>>, commits0: seq<Commit>,
                  commits: seq<Commit>, created: seq<Commit>, w: set<string>, start: map<string, Option<File>>,
                  before: map<string, Option<File>>, after: map<string, Option<File>>, path: string, file: Option<File>)
    requires Wrote(contents, now, commits0, commits, created, w, start, before)
    requires Session.CacheFrom(before, after, now, {}) && Session.Possible(before, now, path, file)
    ensures Wrote(contents, now, commits0, commits, created, w, start, after)
    ensures path in w || Session.Possible(start, contents, path, file)
  {
    if path !in w {
      Session.PossibleFrom(start, before, contents, now, w, path, file);
    }
    Session.CacheFromTrans(start, before, after, contents, now, w);
  }

  /** A creation keeps `Wrote`, with its commit appended and its path written. */
  lemma WroteCreate(contents: map<string, seq<File>>, now: map<string, seq<File>>, after: map<string, seq<File>>,
                    commits0: seq<Commit>, commits: seq<Commit>, created: seq<Commit>, w: set<string>,
                    start: map<string, Option<File>>, cache: map<string, Option<File>>, c: Commit, sha: string)
    requires Wrote(contents, now, commits0, commits, created, w, start, cache)
    requires after == now[c.path := [File(c.path, c.path, c.content, sha)]]
    ensures Wrote(contents, after, commits0, commits + [c], created + [c], w + {c.path}, start, cache)
  {
    CommittedSnoc(contents, now, after, created, c, sha);
  }

  /** One probe of the fix: the read, and the creation when its document came back empty. */
  method FixOne(linter: Session.RepoLinter, parser: YamlParser, templates: map<string, string>, t: Target,
                ghost start: map<string, Option<File>>, ghost contents: map<string, seq<File>>,
                ghost commits0: seq<Commit>, ghost w: set<string>, ghost created: seq<Commit>)
    returns (file: Option<File>, doc: Value, url: Option<string>)
    requires Wrote(contents, linter.repository.contents, commits0, linter.repository.commits, created, w, start, linter.filecache)
    modifies linter`filecache, linter.repository`contents, linter.repository`commits
    ensures doc == LoadYaml(file, parser)
    ensures url.Some? <==> !Truthy(doc) && TemplatePath(t) in templates
    ensures WorkflowPath(t) in w || Session.Possible(start, contents, WorkflowPath(t), file)
    ensures var c := Commit(WorkflowPath(t), CreatedCommitMessage(WorkflowPath(t)), if TemplatePath(t) in templates then templates[TemplatePath(t)] else "", "");
      Wrote(contents, linter.repository.contents, commits0, linter.repository.commits,
            created + (if url.Some? then [c] else []), if url.Some? then w + {WorkflowPath(t)} else w, start, linter.filecache)
  {
    var path := WorkflowPath(t);
    ghost var before := linter.filecache;
    doc, file := LoadYamlFile(linter, path, parser);
    WroteRead(contents, linter.repository.contents, commits0, linter.repository.commits, created, w, start,
              before, linter.filecache, path, file);
    url := None;
    if !Truthy(doc) && TemplatePath(t) in templates {
      var content := templates[TemplatePath(t)];
      ghost var mid := linter.repository.contents;
      ghost var c := Commit(path, CreatedCommitMessage(path), content, "");
      var written := linter.CreateOrUpdateFile(path, content, None, Some(CreatedCommitMessage(path)));
      ghost var sha :| linter.repository.contents == mid[path := [File(path, path, content, sha)]];
      WroteCreate(contents, mid, linter.repository.contents, commits0, old(linter.repository.commits), created, w,
                  start, linter.filecache, c, sha);
      url := Some(written.value);
    } else {
      assert created + [] == created;
    }
  }

  /** What the fix's loop has established after its probes so far, apart from the state it changed. */
  predicate FixProgress(before: map<string, Option<File>>, contents: map<string, seq<File>>, parser: YamlParser,
                        templates: map<string, string>, targets: seq<Target>, files: seq<Option<File>>, docs: seq<Value>,
                        urls: seq<Option<string>>, messages: seq<string>, created: seq<Commit>, stop: bool)
  {
    FixLoads(before, contents, parser, templates, targets, files, docs, urls) &&
    StuckAtMostLast(targets, docs, templates) &&
    stop == (docs != [] && Stuck(targets[|docs| - 1], docs[|docs| - 1], templates)) &&
    messages == CreatedFixes(targets, urls) &&
    created == CreatedCommits(targets, urls, templates)
  }

  lemma FixProgressSnoc(before: map<string, Option<File>>, contents: map<string, seq<File>>, parser: YamlParser,
                        templates: map<string, string>, targets: seq<Target>, files: seq<Option<File>>, docs: seq<Value>,
                        urls: seq<Option<string>>, messages: seq<string>, created: seq<Commit>,
                        file: Option<File>, doc: Value, url: Option<string>)
    requires FixProgress(before, contents, parser, templates, targets, files, docs, urls, messages, created, false)
    requires |docs| < |targets|
    requires doc == LoadYaml(file, parser)
    requires url.Some? <==> !Truthy(doc) && TemplatePath(targets[|docs|]) in templates
    requires WorkflowPath(targets[|docs|]) in CreatedPaths(targets, urls, |docs|) ||
             Session.Possible(before, contents, WorkflowPath(targets[|docs|]), file)
    ensures var t := targets[|docs|];
      FixProgress(before, contents, parser, templates, targets, files + [file], docs + [doc], urls + [url],
                  messages + (if url.Some? then [CreatedFix(WorkflowPath(t), url.value)] else []),
                  created + (if url.Some? then [Commit(WorkflowPath(t), CreatedCommitMessage(WorkflowPath(t)), templates[TemplatePath(t)], "")] else []),
                  Stuck(t, doc, templates))
    ensures CreatedPaths(targets, urls + [url], |docs| + 1) ==
      CreatedPaths(targets, urls, |docs|) + (if url.Some? then {WorkflowPath(targets[|docs|])} else {})
  {
    var t := targets[|docs|];
    FixLoadsSnoc(before, contents, parser, templates, targets, files, docs, urls, file, doc, url);
    CreatedPathsSnoc(targets, urls, url);
    StuckAtMostLastSnoc(targets, docs, templates, doc);
    assert (urls + [url])[..|urls|] == urls;
    assert CreatedFixes(targets, urls + [url]) ==
      CreatedFixes(targets, urls) + (if url.Some? then [CreatedFix(WorkflowPath(t), url.value)] else []);
    assert CreatedCommits(targets, urls + [url], templates) == CreatedCommits(targets, urls, templates) +
      (if url.Some? then [Commit(WorkflowPath(t), CreatedCommitMessage(WorkflowPath(t)), templates[TemplatePath(t)], "")] else []);
    assert (docs + [doc])[|docs|] == doc;
  }

  /** The state of the fix's loop after its first `n` probes: its progress, and what it wrote. */
  ghost predicate FixState(start: map<string, Option<File>>, contents: map<string, seq<File>>, parser: YamlParser,
                           templates: map<string, string>, targets: seq<Target>, files: seq<Option<File>>, docs: seq<Value>,
                           urls: seq<Option<string>>, messages: seq<string>, created: seq<Commit>, stop: bool,
                           commits0: seq<Commit>, now: map<string, seq<File>>, commits: seq<Commit>, cache: map<string, Option<File>>)
  {
    FixProgress(start, contents, parser, templates, targets, files, docs, urls, messages, created, stop) &&
    |urls| <= |targets| &&
    Wrote(contents, now, commits0, commits, created, CreatedPaths(targets, urls, |urls|), start, cache)
  }

  /** One probe of the fix, as `FixOne` reports it, extends both the loop's progress and what it wrote. */
  lemma FixAdvance(start: map<string, Option<File>>, contents: map<string, seq<File>>, parser: YamlParser,
                   templates: map<string, string>, targets: seq<Target>, files: seq<Option<File>>, docs: seq<Value>,
                   urls: seq<Option<string>>, messages: seq<string>, created: seq<Commit>,
                   file: Option<File>, doc: Value, url: Option<string>,
                   commits0: seq<Commit>, now: map<string, seq<File>>, commits: seq<Commit>, cache: map<string, Option<File>>)
    requires FixProgress(start, contents, parser, templates, targets, files, docs, urls, messages, created, false)
    requires |docs| < |targets|
    requires doc == LoadYaml(file, parser)
    requires url.Some? <==> !Truthy(doc) && TemplatePath(targets[|docs|]) in templates
    requires WorkflowPath(targets[|docs|]) in CreatedPaths(targets, urls, |docs|) ||
             Session.Possible(start, contents, WorkflowPath(targets[|docs|]), file)
    requires var t := targets[|docs|];
      var c := Commit(WorkflowPath(t), CreatedCommitMessage(WorkflowPath(t)), if TemplatePath(t) in templates then templates[TemplatePath(t)] else "", "");
      var w := CreatedPaths(targets, urls, |docs|);
      Wrote(contents, now, commits0, commits, created + (if url.Some? then [c] else []),
            if url.Some? then w + {WorkflowPath(t)} else w, start, cache)
    ensures var t := targets[|docs|];
      var more := if url.Some? then [Commit(WorkflowPath(t), CreatedCommitMessage(WorkflowPath(t)), templates[TemplatePath(t)], "")] else [];
      FixState(start, contents, parser, templates, targets, files + [file], docs + [doc], urls + [url],
               messages + (if url.Some? then [CreatedFix(WorkflowPath(t), url.value)] else []), created + more,
               Stuck(t, doc, templates), commits0, now, commits, cache)
  {
    assert |urls| == |docs|;
    FixProgressSnoc(start, contents, parser, templates, targets, files, docs, urls, messages, created, file, doc, url);
    var t := targets[|docs|];
    var more := if url.Some? then [Commit(WorkflowPath(t), CreatedCommitMessage(WorkflowPath(t)), templates[TemplatePath(t)], "")] else [];
    var c := Commit(WorkflowPath(t), CreatedCommitMessage(WorkflowPath(t)), if TemplatePath(t) in templates then templates[TemplatePath(t)] else "", "");
    assert (if url.Some? then [c] else []) == more;
    var w := CreatedPaths(targets, urls, |docs|);
    assert CreatedPaths(targets, urls + [url], |urls + [url]|) == if url.Some? then w + {WorkflowPath(t)} else w;
    WroteSame(contents, now, commits0, commits, created + (if url.Some? then [c] else []), created + more,
              if url.Some? then w + {WorkflowPath(t)} else w, CreatedPaths(targets, urls + [url], |urls + [url]|), start, cache);
  }

  /** `Wrote` of equal arguments. */
  lemma WroteSame(contents: map<string, seq<File>>, now: map<string, seq<File>>, commits0: seq<Commit>, commits: seq<Commit>,
                  created: seq<Commit>, created': seq<Commit>, w: set<string>, w': set<string>,
                  start: map<string, Option<File>>, cache: map<string, Option<File>>)
    requires Wrote(contents, now, commits0, commits, created, w, start, cache) && created == created' && w == w'
    ensures Wrote(contents, now, commits0, commits, created', w', start, cache)
  {
  }

  /** The loop of `fix_language_workflows` over the planned workflows. */
  method CreateMissingWorkflows(linter: Session.RepoLinter, parser: YamlParser, templates: map<string, string>, targets: seq<Target>)
    returns (files: seq<Option<File>>, docs: seq<Value>, urls: seq<Option<string>>, messages: seq<string>, stop: bool,
             ghost created: seq<Commit>)
    modifies linter`filecache, linter.repository`contents, linter.repository`commits
    ensures FixProgress(old(linter.filecache), old(linter.repository.contents), parser, templates, targets, files, docs, urls,
                        messages, created, stop)
    ensures |docs| < |targets| ==> stop
    ensures linter.repository.commits == old(linter.repository.commits) + created
    ensures Committed(old(linter.repository.contents), linter.repository.contents, created)
  {
    ghost var start := linter.filecache;
    ghost var contents := linter.repository.contents;
    ghost var commits := linter.repository.commits;
    files, docs, urls, messages, stop := [], [], [], [], false;
    created := [];
    var i := 0;
    while i < |targets| && !stop
      invariant 0 <= i <= |targets| && |docs| == i
      invariant FixState(start, contents, parser, templates, targets, files, docs, urls, messages, created, stop,
                         commits, linter.repository.contents, linter.repository.commits, linter.filecache)
    {
      var t := targets[i];
      var file, doc, url := FixOne(linter, parser, templates, t, start, contents, commits, CreatedPaths(targets, urls, i), created);
      FixAdvance(start, contents, parser, templates, targets, files, docs, urls, messages, created, file, doc, url,
                 commits, linter.repository.contents, linter.repository.commits, linter.filecache);
      created := created + if url.Some? then [Commit(WorkflowPath(t), CreatedCommitMessage(WorkflowPath(t)), templates[TemplatePath(t)], "")] else [];
      messages := messages + if url.Some? then [CreatedFix(WorkflowPath(t), url.value)] else [];
      stop := Stuck(t, doc, templates);
      files, docs, urls := files + [file], docs + [doc], urls + [url];
      i := i + 1;
    }
  }

  /**
   * `fix_language_workflows`. A read of a workflow the fix has itself
   * created in this call may see the created file; any other read is a
   * possible read of the state before the call.
   */
  method FixLanguageWorkflows(linter: Session.RepoLinter, parser: YamlParser, templates: map<string, string>)
    returns (signal: Signal, plan: Plan, files: seq<Option<File>>, docs: seq<Value>, urls: seq<Option<string>>)
    modifies linter`filecache, linter`errors, linter`warnings, linter`fixes, linter.repository`contents, linter.repository`commits
    ensures plan == PlanFor(linter.repository.languages, TestsPerLanguage(linter.config))
    ensures FixProbed(plan.targets, docs, templates)
    ensures FixLoads(old(linter.filecache), old(linter.repository.contents), parser, templates, plan.targets, files, docs, urls)
    ensures var created := CreatedCommits(plan.targets, urls, templates);
      linter.repository.commits == old(linter.repository.commits) + created &&
      Committed(old(linter.repository.contents), linter.repository.contents, created)
    ensures var run := LanguageWorkflowsFixRun(plan, docs, urls, templates);
      signal == run.signal &&
      Results(linter.errors, linter.warnings, linter.fixes) == Apply(old(Results(linter.errors, linter.warnings, linter.fixes)), run)
  {
    plan := PlannedTargets(linter.repository.languages, TestsPerLanguage(linter.config));
    var messages, stop;
    ghost var created;
    files, docs, urls, messages, stop, created := CreateMissingWorkflows(linter, parser, templates, plan.targets);
    var run := CommandRun([], [], Filed(Category, messages), if plan.raised || stop then Raised else Completed);
    linter.Perform(run);
    signal := run.signal;
  }

  // check_shellcheck

  const DefaultShellcheckAction := "ludeeus/action-shellcheck@master"
  const ShellcheckWorkflow := ".github/workflows/shellcheck.yml"

  /**
   * The action string to look for: `config["testing"]["shellcheck_action"]`
   * when that key is present, the default otherwise, and None where the
   * lookup or the later substring test raises.
   */
  function ShellcheckAction(config: map<string, Value>): Option<string>
  {
    if "testing" !in config then Some(DefaultShellcheckAction)
    else
      var testing := config["testing"];
      match HasKey(testing, "shellcheck_action")
      case None => None
      case Some(false) => Some(DefaultShellcheckAction)
      case Some(true) =>
        if testing.Dict? && testing.entries["shellcheck_action"].Str? then Some(testing.entries["shellcheck_action"].s) else None
  }

  lemma ShellcheckActionDefault(config: map<string, Value>, action: string)
    ensures "testing" !in config ==> ShellcheckAction(config) == Some(DefaultShellcheckAction)
    ensures ShellcheckAction(config["testing" := Dict(map["shellcheck_action" := Str(action)])]) == Some(action)
  {
  }

  function ShellcheckMissing(action: string): string
  {
    "Shellcheck action string missing, expected " + action
  }

  /** What a `check_shellcheck` records, given the repository languages and the workflow it read. */
  function ShellcheckRun(languages: seq<string>, file: Option<File>, action: Option<string>, category: string): CommandRun
  {
    if "Shell" !in languages || file.None? || file.value.content == "" then Quiet
    else if action.None? then CommandRun([], [], [], Raised)
    else if Contains(file.value.content, action.value) then Quiet
    else CommandRun(Filed(category, [ShellcheckMissing(action.value)]), [], [], Completed)
  }

  /**
   * Nothing without "Shell", without the workflow or for an empty one;
   * otherwise one error exactly when the action string is not in its text.
   */
  lemma ShellcheckErrors(languages: seq<string>, file: Option<File>, action: Option<string>, category: string)
    ensures var run := ShellcheckRun(languages, file, action, category);
      run.warnings == [] && run.fixes == [] && |run.errors| <= 1 &&
      (run.errors != [] <==> "Shell" in languages && file.Some? && file.value.content != "" && action.Some? &&
                             !Contains(file.value.content, action.value)) &&
      (run.errors != [] ==> run.errors[0] == Message(category, ShellcheckMissing(action.value)))
    ensures file.Some? && action.Some? && file.value.content == action.value ==>
      ShellcheckRun(languages, file, action, category) == Quiet
  {
    if file.Some? && action.Some? && file.value.content == action.value {
      ContainsItself(file.value.content);
    }
  }

  /**
   * A shellcheck check over `path`: with "Shell" among the languages, a read
   * of the workflow through the cache.
   */
  method CheckShellcheckAt(linter: Session.RepoLinter, path: string, category: string) returns (signal: Signal, file: Option<File>)
    modifies linter`filecache, linter`errors, linter`warnings, linter`fixes
    ensures "Shell" !in linter.repository.languages ==> file == None && linter.filecache == old(linter.filecache)
    ensures "Shell" in linter.repository.languages ==>
      Session.ReadAnswer(old(linter.filecache), linter.repository.contents, path, file) &&
      Session.CacheHolds(linter.filecache, path, file) && linter.filecache - {path} == old(linter.filecache) - {path}
    ensures var run := ShellcheckRun(linter.repository.languages, file, ShellcheckAction(linter.config), category);
      signal == run.signal &&
      Results(linter.errors, linter.warnings, linter.fixes) == Apply(old(Results(linter.errors, linter.warnings, linter.fixes)), run)
  {
    file := None;
    if "Shell" in linter.repository.languages {
      file := linter.CachedGetFile(path, false);
    }
    var run := ShellcheckRun(linter.repository.languages, file, ShellcheckAction(linter.config), category);
    linter.Perform(run);
    signal := run.signal;
  }

  /** `check_shellcheck` of this module: `.github/workflows/shellcheck.yml`. */
  method CheckShellcheck(linter: Session.RepoLinter) returns (signal: Signal, file: Option<File>)
    modifies linter`filecache, linter`errors, linter`warnings, linter`fixes
    ensures "Shell" !in linter.repository.languages ==> file == None && linter.filecache == old(linter.filecache)
    ensures "Shell" in linter.repository.languages ==>
      Session.ReadAnswer(old(linter.filecache), linter.repository.contents, ShellcheckWorkflow, file) &&
      Session.CacheHolds(linter.filecache, ShellcheckWorkflow, file)
    ensures var run := ShellcheckRun(linter.repository.languages, file, ShellcheckAction(linter.config), Category);
      signal == run.signal &&
      Results(linter.errors, linter.warnings, linter.fixes) == Apply(old(Results(linter.errors, linter.warnings, linter.fixes)), run)
  {
    signal, file := CheckShellcheckAt(linter, ShellcheckWorkflow, Category);
  }

  // The dependency review workflow.

  /** `repo.config[CATEGORY]["dependency_review"]`, or None where the lookup raises. */
  function DependencyReviewPath(config: map<string, Value>): Option<string>
  {
    if Category in config && config[Category].Dict? && "dependency_review" in config[Category].entries &&
       config[Category].entries["dependency_review"].Str?
    then Some(config[Category].entries["dependency_review"].s)
    else None
  }

  /** The workflow holds exactly the template's bytes. */
  predicate UpToDate(file: Option<File>, template: string)
  {
    file.Some? && file.value.content == template
  }

  function ReviewOutdated(path: string): string
  {
    "Dependency review action is missing or needs update " + path
  }

  function ReviewUpdated(written: Option<string>): string
  {
    "Updated dependency_review workflow commit URL: " + (if written.Some? then written.value else "None")
  }

  const ReviewCommitMessage := "github_actions - update dependency_review workflow"

  /** What `check_dependency_review_file` records. */
  function DependencyReviewRun(archived: bool, path: Option<string>, file: Option<File>, template: string): CommandRun
  {
    if archived then CommandRun([], [], [], SkipOnArchived)
    else if path.None? then CommandRun([], [], [], Raised)
    else if UpToDate(file, template) then Quiet
    else CommandRun(Filed(Category, [ReviewOutdated(path.value)]), [], [], Completed)
  }

  /** What `fix_dependency_review_file` records, given the write's answer. */
  function DependencyReviewFixRun(archived: bool, path: Option<string>, file: Option<File>, template: string,
                                  written: Option<string>): CommandRun
  {
    if archived then CommandRun([], [], [], SkipOnArchived)
    else if path.None? then CommandRun([], [], [], Raised)
    else if UpToDate(file, template) then Quiet
    else CommandRun([], [], Filed(Category, [ReviewUpdated(written)]), Completed)
  }

  /**
   * The check and the fix agree: on the same read, the fix records a fix
   * (and writes) exactly where the check records its error, and both are
   * silent for an archived repository.
   */
  lemma DependencyReviewAgree(archived: bool, path: Option<string>, file: Option<File>, template: string, written: Option<string>)
    ensures var check := DependencyReviewRun(archived, path, file, template);
      var fix := DependencyReviewFixRun(archived, path, file, template, written);
      check.signal == fix.signal && check.warnings == [] && fix.warnings == [] && fix.errors == [] && check.fixes == [] &&
      |check.errors| == |fix.fixes| <= 1 &&
      (check.errors != [] <==> !archived && path.Some? && !UpToDate(file, template))
  {
  }

  /** The read both dependency review commands make: none when archived or without a path. */
  predicate ReviewRead(before: map<string, Option<File>>, after: map<string, Option<File>>, contents: map<string, seq<File>>,
                       archived: bool, path: Option<string>, file: Option<File>)
  {
    (archived || path.None? ==> file == None && after == before) &&
    (!archived && path.Some? ==>
       Session.ReadAnswer(before, contents, path.value, file) && Session.CacheHolds(after, path.value, file) &&
       after - {path.value} == before - {path.value})
  }

  /** `check_dependency_review_file`; `template` is the bytes of the packaged `dependency_review.yml`. */
  method CheckDependencyReviewFile(linter: Session.RepoLinter, template: string) returns (signal: Signal, file: Option<File>)
    modifies linter`filecache, linter`errors, linter`warnings, linter`fixes
    ensures ReviewRead(old(linter.filecache), linter.filecache, linter.repository.contents, linter.repository.archived,
                       DependencyReviewPath(linter.config), file)
    ensures var run := DependencyReviewRun(linter.repository.archived, DependencyReviewPath(linter.config), file, template);
      signal == run.signal &&
      Results(linter.errors, linter.warnings, linter.fixes) == Apply(old(Results(linter.errors, linter.warnings, linter.fixes)), run)
  {
    file := None;
    var path := DependencyReviewPath(linter.config);
    var skip := linter.SkipOnArchived();
    if !skip && path.Some? {
      file := linter.CachedGetFile(path.value, false);
    }
    var run := DependencyReviewRun(skip, path, file, template);
    linter.Perform(run);
    signal := run.signal;
  }

  /**
   * `fix_dependency_review_file`: no write when the workflow already holds
   * the template; otherwise one write of the template, against the old
   * file's sha when there is one.
   */
  method FixDependencyReviewFile(linter: Session.RepoLinter, template: string)
    returns (signal: Signal, file: Option<File>, written: Option<string>)
    modifies linter`filecache, linter`errors, linter`warnings, linter`fixes, linter.repository`contents, linter.repository`commits
    ensures ReviewRead(old(linter.filecache), linter.filecache, old(linter.repository.contents), linter.repository.archived,
                       DependencyReviewPath(linter.config), file)
    ensures var path := DependencyReviewPath(linter.config);
      (linter.repository.archived || path.None? || UpToDate(file, template) ==>
         written == None && linter.repository.contents == old(linter.repository.contents) &&
         linter.repository.commits == old(linter.repository.commits)) &&
      (!linter.repository.archived && path.Some? && !UpToDate(file, template) ==>
         written.Some? &&
         linter.repository.commits == old(linter.repository.commits) +
           [Commit(path.value, ReviewCommitMessage, template, if file.Some? then file.value.sha else "")] &&
         exists sha :: linter.repository.contents == old(linter.repository.contents)[path.value := [File(path.value, path.value, template, sha)]])
    ensures var run := DependencyReviewFixRun(linter.repository.archived, DependencyReviewPath(linter.config), file, template, written);
      signal == run.signal &&
      Results(linter.errors, linter.warnings, linter.fixes) == Apply(old(Results(linter.errors, linter.warnings, linter.fixes)), run)
  {
    file, written := None, None;
    var path := DependencyReviewPath(linter.config);
    var skip := linter.SkipOnArchived();
    if !skip && path.Some? {
      file := linter.CachedGetFile(path.value, false);
      if !UpToDate(file, template) {
        written := linter.CreateOrUpdateFile(path.value, template, file, Some(ReviewCommitMessage));
      }
    }
    var run := DependencyReviewFixRun(skip, path, file, template, written);
    linter.Perform(run);
    signal := run.signal;
  }
}
