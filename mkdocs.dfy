// The MkDocs checks (github_linter/tests/mkdocs/__init__.py): a repository
// with an MkDocs config needs the MkDocs workflow, and the fix keeps that
// workflow equal to its template. The older github_linter/tests/mkdocs.py
// holds `needs_mkdocs_workflow`, `check_mkdocs_workflow_exists` and
// `fix_missing_mkdocs_workflow` word for word and no `check_github_metadata`;
// the members below model those three for both, and `Members` is the
// package's.
module Mkdocs {
  import opened Wrappers
  import opened Text
  import opened Config
  import opened Github
  import opened LintModules
  import opened Loaders
  import Session

  const Category := "mkdocs"

  const DefaultConfigValue: Value := Dict(map[
    "mkdocs_config_files" := List([Str("docs/mkdocs.yml"), Str("mkdocs.yml")]),
    "workflow_filepath" := Str(".github/workflows/mkdocs.yml")])

  const Members: seq<string> := [
    "BytesIO", "CATEGORY", "DEFAULT_CONFIG", "LANGUAGES", "RepoLinter", "YAML",
    "check_github_metadata", "check_mkdocs_workflow_exists", "fix_missing_mkdocs_workflow",
    "get_fix_file_path", "get_repo_pages_data", "json", "logger", "needs_mkdocs_workflow"
  ]

  const Module := LintModule(Category, Some(["all"]), MappingDefault(DefaultConfigValue), Members)

  /**
   * The paths `for filepath in repo.config[CATEGORY]["mkdocs_config_files"]`
   * visits: a list's strings, or a string's characters; None where the
   * lookup raises or the setting is something else.
   */
  function ConfigFiles(config: map<string, Value>): Option<seq<string>>
  {
    if Category in config && config[Category].Dict? && "mkdocs_config_files" in config[Category].entries
    then IteratedStrings(config[Category].entries["mkdocs_config_files"])
    else None
  }

  /** `repo.config[CATEGORY]["workflow_filepath"]`, or None where the lookup raises. */
  function WorkflowPath(config: map<string, Value>): Option<string>
  {
    if Category in config && config[Category].Dict? && "workflow_filepath" in config[Category].entries &&
       config[Category].entries["workflow_filepath"].Str?
    then Some(config[Category].entries["workflow_filepath"].s)
    else None
  }

  lemma DefaultPaths()
    ensures ConfigFiles(map[Category := DefaultConfigValue]) == Some(["docs/mkdocs.yml", "mkdocs.yml"])
    ensures WorkflowPath(map[Category := DefaultConfigValue]) == Some(".github/workflows/mkdocs.yml")
  {
    var items := DefaultConfigValue.entries["mkdocs_config_files"].items;
    var r := StringItems(items);
    assert r.Some? && |r.value| == 2 && items[0] == Str(r.value[0]) && items[1] == Str(r.value[1]);
    assert r.value == ["docs/mkdocs.yml", "mkdocs.yml"];
  }

  /**
   * A setting that is one string is iterated character by character: the
   * commands probe each one-character path, and those paths spell the
   * setting.
   */
  lemma StringSettingIsCharacters(config: map<string, Value>, setting: string)
    requires Category in config && config[Category] == Dict(map["mkdocs_config_files" := Str(setting)])
    ensures ConfigFiles(config).Some?
    ensures |ConfigFiles(config).value| == |setting|
    ensures forall k :: 0 <= k < |setting| ==> ConfigFiles(config).value[k] == [setting[k]]
    ensures Join(ConfigFiles(config).value, "") == setting
  {
    CharactersJoin(setting);
  }

  // needs_mkdocs_workflow

  /**
   * The forced reads of the config files, in order, stopping after the
   * first that found a file: each answer is the remote file or None (a
   * failed fetch).
   */
  predicate Probes(contents: map<string, seq<File>>, files: seq<string>, probes: seq<Option<File>>)
  {
    |probes| <= |files| &&
    (forall k :: 0 <= k < |probes| ==> probes[k] == None || probes[k] == FileAt(contents, files[k])) &&
    (forall k :: 0 <= k < |probes| - 1 ==> probes[k].None?) &&
    (|probes| < |files| ==> probes != [] && probes[|probes| - 1].Some?)
  }

  /** The workflow is needed iff one of the probes found a config file. */
  predicate Needed(probes: seq<Option<File>>)
  {
    exists k :: 0 <= k < |probes| && probes[k].Some?
  }

  /**
   * A needed workflow means some config file exists in the repository;
   * when none exists, none is found whatever the fetches do.
   */
  lemma {:induction false} NeededMeansConfigFile(contents: map<string, seq<File>>, files: seq<string>, probes: seq<Option<File>>)
    requires Probes(contents, files, probes)
    ensures Needed(probes) ==> exists k :: 0 <= k < |files| && FileAt(contents, files[k]).Some?
    ensures (forall k :: 0 <= k < |files| ==> FileAt(contents, files[k]).None?) ==> !Needed(probes) && probes == seq(|files|, k => None)
  {
    if Needed(probes) {
      var k :| 0 <= k < |probes| && probes[k].Some?;
      assert FileAt(contents, files[k]) == probes[k];
    }
    if forall k :: 0 <= k < |files| ==> FileAt(contents, files[k]).None? {
      assert forall k :: 0 <= k < |probes| ==> probes[k] == None;
      assert |probes| == |files|;
    }
  }

  /** `needs_mkdocs_workflow` over the configured files: each probe refetches. */
  method NeedsMkdocsWorkflow(linter: Session.RepoLinter, files: seq<string>) returns (needed: bool, probes: seq<Option<File>>)
    modifies linter`filecache
    ensures Probes(linter.repository.contents, files, probes)
    ensures needed == Needed(probes)
    ensures Session.CacheFrom(old(linter.filecache), linter.filecache, linter.repository.contents, {})
  {
    ghost var start := linter.filecache;
    probes := [];
    var i := 0;
    while i < |files|
      invariant 0 <= i <= |files| && |probes| == i
      invariant forall k :: 0 <= k < i ==> probes[k] == None
      invariant Session.CacheFrom(start, linter.filecache, linter.repository.contents, {})
    {
      ghost var before := linter.filecache;
      var file := linter.CachedGetFile(files[i], true);
      Session.CacheFromTrans(start, before, linter.filecache, linter.repository.contents, linter.repository.contents, {});
      probes := probes + [file];
      if file.Some? {
        assert probes[i].Some?;
        return true, probes;
      }
      i := i + 1;
    }
    assert !Needed(probes);
    return false, probes;
  }

  // check_mkdocs_workflow_exists

  const WorkflowMissing := "MKDocs github actions configuration missing."

  /** What `check_mkdocs_workflow_exists` records, given what it read. */
  function WorkflowExistsRun(files: Option<seq<string>>, needed: bool, path: Option<string>, workflow: Option<File>): (r: CommandRun)
    ensures r.warnings == [] && r.fixes == [] && |r.errors| <= 1
    ensures r.errors != [] <==> files.Some? && needed && path.Some? && workflow.None?
    ensures r.errors != [] ==> r.errors == [Message(Category, WorkflowMissing)]
    ensures r.signal == (if files.None? || (needed && path.None?) then Raised else Completed)
  {
    if files.None? then CommandRun([], [], [], Raised)
    else if !needed then Quiet
    else if path.None? then CommandRun([], [], [], Raised)
    else if workflow.None? then CommandRun(Filed(Category, [WorkflowMissing]), [], [], Completed)
    else Quiet
  }

  /** `check_mkdocs_workflow_exists`: the workflow is read, refetched, only where a config file was found. */
  method CheckMkdocsWorkflowExists(linter: Session.RepoLinter)
    returns (signal: Signal, probes: seq<Option<File>>, workflow: Option<File>)
    modifies linter`filecache, linter`errors, linter`warnings, linter`fixes
    ensures var files := ConfigFiles(linter.config);
      (files.None? ==> probes == [] && workflow == None) &&
      (files.Some? ==> Probes(linter.repository.contents, files.value, probes)) &&
      (workflow.Some? ==> Needed(probes) && WorkflowPath(linter.config).Some? &&
                          workflow == FileAt(linter.repository.contents, WorkflowPath(linter.config).value))
    ensures Session.CacheFrom(old(linter.filecache), linter.filecache, linter.repository.contents, {})
    ensures var run := WorkflowExistsRun(ConfigFiles(linter.config), Needed(probes), WorkflowPath(linter.config), workflow);
      signal == run.signal &&
      Results(linter.errors, linter.warnings, linter.fixes) == Apply(old(Results(linter.errors, linter.warnings, linter.fixes)), run)
  {
    probes, workflow := [], None;
    var files := ConfigFiles(linter.config);
    var needed := false;
    var path := WorkflowPath(linter.config);
    if files.Some? {
      ghost var start := linter.filecache;
      needed, probes := NeedsMkdocsWorkflow(linter, files.value);
      if needed && path.Some? {
        ghost var before := linter.filecache;
        workflow := linter.CachedGetFile(path.value, true);
        Session.CacheFromTrans(start, before, linter.filecache, linter.repository.contents, linter.repository.contents, {});
      }
    }
    var run := WorkflowExistsRun(files, needed, path, workflow);
    linter.Perform(run);
    signal := run.signal;
  }

  // fix_missing_mkdocs_workflow

  const CreatedMessage := "github-linter.mkdocs created MKDocs github actions configuration"
  const UpdatedMessage := "github-linter.mkdocs updated MKDocs github actions configuration"

  function Url(written: Option<string>): string
  {
    if written.Some? then written.value else "None"
  }

  function CreatedFix(written: Option<string>): string
  {
    "Created MKDocs github actions configuration: " + Url(written)
  }

  function UpdatedFix(written: Option<string>): string
  {
    "Updated MKDocs github actions configuration: " + Url(written)
  }

  /** The workflow holds exactly the template's bytes. */
  predicate UpToDate(workflow: Option<File>, template: string)
  {
    workflow.Some? && workflow.value.content == template
  }

  /** What `fix_missing_mkdocs_workflow` records, given what it read and what the write answered. */
  function MissingWorkflowFixRun(files: Option<seq<string>>, needed: bool, path: Option<string>, workflow: Option<File>,
                                 template: string, written: Option<string>): CommandRun
  {
    if files.None? then CommandRun([], [], [], Raised)
    else if !needed then Quiet
    else if path.None? then CommandRun([], [], [], Raised)
    else if workflow.None? then CommandRun([], [], Filed(Category, [CreatedFix(written)]), Completed)
    else if workflow.value.content == template then Quiet
    else CommandRun([], [], Filed(Category, [UpdatedFix(written)]), Completed)
  }

  /**
   * The fix records nothing but at most one fix, and records it exactly
   * when the workflow is needed and does not hold the template; on the same
   * reads it records a fix wherever the check records its error.
   */
  lemma MissingWorkflowFixes(files: Option<seq<string>>, needed: bool, path: Option<string>, workflow: Option<File>,
                             template: string, written: Option<string>)
    ensures var fix := MissingWorkflowFixRun(files, needed, path, workflow, template, written);
      fix.errors == [] && fix.warnings == [] && |fix.fixes| <= 1 &&
      (fix.fixes != [] <==> files.Some? && needed && path.Some? && !UpToDate(workflow, template)) &&
      (fix.fixes != [] && workflow.None? ==> fix.fixes == [Message(Category, CreatedFix(written))]) &&
      (fix.fixes != [] && workflow.Some? ==> fix.fixes == [Message(Category, UpdatedFix(written))]) &&
      fix.signal == WorkflowExistsRun(files, needed, path, workflow).signal
    ensures WorkflowExistsRun(files, needed, path, workflow).errors != [] ==>
      MissingWorkflowFixRun(files, needed, path, workflow, template, written).fixes != []
  {
  }

  /**
   * The fix leaves nothing to fix: once the workflow holds the template,
   * whatever sha the write gave it, a fix reading it records nothing.
   */
  lemma FixIsIdempotent(contents: map<string, seq<File>>, files: Option<seq<string>>, needed: bool, path: string,
                        template: string, sha: string, written: Option<string>)
    ensures var after := contents[path := [File(path, path, template, sha)]];
      UpToDate(FileAt(after, path), template) &&
      MissingWorkflowFixRun(files, needed, Some(path), FileAt(after, path), template, written).fixes == []
  {
  }

  /** What the fix wrote: a creation against no old file, an update against the old one, or nothing. */
  ghost predicate FixWrites(before: map<string, seq<File>>, after: map<string, seq<File>>, commits0: seq<Commit>, commits: seq<Commit>,
                      path: string, workflow: Option<File>, template: string, written: Option<string>)
  {
    (UpToDate(workflow, template) ==> written == None && after == before && commits == commits0) &&
    (!UpToDate(workflow, template) ==>
       written.Some? &&
       commits == commits0 + [if workflow.None? then Commit(path, CreatedMessage, template, "")
                              else Commit(path, UpdatedMessage, template, workflow.value.sha)] &&
       exists sha :: after == before[path := [File(path, path, template, sha)]])
  }

  /** The write of the fix: a creation when there is no workflow, an update when it differs from the template. */
  method WriteWorkflow(linter: Session.RepoLinter, path: string, workflow: Option<File>, template: string)
    returns (written: Option<string>)
    modifies linter.repository`contents, linter.repository`commits
    ensures FixWrites(old(linter.repository.contents), linter.repository.contents, old(linter.repository.commits),
                      linter.repository.commits, path, workflow, template, written)
  {
    written := None;
    if workflow.None? {
      written := linter.CreateOrUpdateFile(path, template, None, Some(CreatedMessage));
    } else if workflow.value.content != template {
      written := linter.CreateOrUpdateFile(path, template, workflow, Some(UpdatedMessage));
    }
  }

  /**
   * `fix_missing_mkdocs_workflow`; `template` is the bytes of the packaged
   * `mkdocs.yml`. The workflow is read through the cache (no refetch).
   */
  method FixMissingMkdocsWorkflow(linter: Session.RepoLinter, template: string)
    returns (signal: Signal, probes: seq<Option<File>>, workflow: Option<File>, written: Option<string>)
    modifies linter`filecache, linter`errors, linter`warnings, linter`fixes, linter.repository`contents, linter.repository`commits
    ensures var files := ConfigFiles(linter.config);
      var path := WorkflowPath(linter.config);
      (files.None? ==> probes == []) &&
      (files.Some? ==> Probes(old(linter.repository.contents), files.value, probes)) &&
      (files.None? || !Needed(probes) || path.None? ==>
         workflow == None && written == None && linter.repository.contents == old(linter.repository.contents) &&
         linter.repository.commits == old(linter.repository.commits)) &&
      (files.Some? && Needed(probes) && path.Some? ==>
         Session.Possible(old(linter.filecache), old(linter.repository.contents), path.value, workflow) &&
         FixWrites(old(linter.repository.contents), linter.repository.contents, old(linter.repository.commits),
                   linter.repository.commits, path.value, workflow, template, written))
    ensures var run := MissingWorkflowFixRun(ConfigFiles(linter.config), Needed(probes), WorkflowPath(linter.config),
                                             workflow, template, written);
      signal == run.signal &&
      Results(linter.errors, linter.warnings, linter.fixes) == Apply(old(Results(linter.errors, linter.warnings, linter.fixes)), run)
  {
    probes, workflow, written := [], None, None;
    var files := ConfigFiles(linter.config);
    var needed := false;
    var path := WorkflowPath(linter.config);
    if files.Some? {
      ghost var start := linter.filecache;
      needed, probes := NeedsMkdocsWorkflow(linter, files.value);
      if needed && path.Some? {
        ghost var before := linter.filecache;
        workflow := linter.CachedGetFile(path.value, false);
        Session.PossibleFrom(start, before, linter.repository.contents, linter.repository.contents, {}, path.value, workflow);
        written := WriteWorkflow(linter, path.value, workflow, template);
      }
    }
    var run := MissingWorkflowFixRun(files, needed, path, workflow, template, written);
    linter.Perform(run);
    signal := run.signal;
  }

  // check_github_metadata

  /** The last config file found among the reads: the loop keeps going after a hit. */
  function LastFound(answers: seq<Option<File>>): (r: Option<File>)
    ensures r.Some? ==> exists k :: 0 <= k < |answers| && answers[k] == r && forall j :: k < j < |answers| ==> answers[j].None?
    ensures r.None? ==> forall k :: 0 <= k < |answers| ==> answers[k].None?
    decreases |answers|
  {
    if answers == [] then None
    else if answers[|answers| - 1].Some? then answers[|answers| - 1]
    else LastFound(answers[..|answers| - 1])
  }

  /**
   * Whether `pagedata["html_url"]` can be read from what
   * `get_repo_pages_data` gives: None stands for a call that raised (the
   * login or the request failed, the reply was not of three parts, or its
   * body was null); a body without `html_url`, as for a repository without
   * Pages, makes the lookup raise `KeyError`.
   */
  predicate PagesReadable(pages: Option<Value>)
  {
    pages.Some? && pages.value.Dict? && "html_url" in pages.value.entries
  }

  /**
   * What `check_github_metadata` records: nothing, in every case. Once a
   * config file is found it raises unless that file loads as a YAML
   * mapping (an empty file loads as None, which cannot take the fields)
   * and the pages answer has an `html_url`.
   */
  function GithubMetadataRun(files: Option<seq<string>>, found: Option<File>, parser: YamlParser, pages: Option<Value>)
    : (r: CommandRun)
    ensures r.errors == [] && r.warnings == [] && r.fixes == []
    ensures r.signal == Completed <==>
      files.Some? &&
      (found.None? ||
       (found.value.content != "" && found.value.content in parser && parser[found.value.content].Dict? &&
        PagesReadable(pages)))
  {
    if files.None? then CommandRun([], [], [], Raised)
    else if found.None? then Quiet
    else if found.value.content !in parser then CommandRun([], [], [], Raised)
    else if !PagesReadable(pages) then CommandRun([], [], [], Raised)
    else if found.value.content != "" && parser[found.value.content].Dict? then Quiet
    else CommandRun([], [], [], Raised)
  }

  /**
   * `check_github_metadata` sorts before both workflow commands, so in a
   * sorted plan where it stops the run (a repository whose config file is
   * found but which has no Pages site, say), neither
   * `check_mkdocs_workflow_exists` nor `fix_missing_mkdocs_workflow` is
   * called.
   */
  lemma MetadataRaiseStopsWorkflowCommands(plan: seq<string>, commands: Commands, skipStops: bool)
    requires Sorted(plan) && "check_github_metadata" in plan
    requires Stops(commands, skipStops, "check_github_metadata")
    ensures "check_mkdocs_workflow_exists" !in UntilStopped(plan, commands, skipStops)
    ensures "fix_missing_mkdocs_workflow" !in UntilStopped(plan, commands, skipStops)
  {
    NotLessEqAt("check_mkdocs_workflow_exists", "check_github_metadata", 6);
    NotLessEqAt("fix_missing_mkdocs_workflow", "check_github_metadata", 0);
    SortedStopHidesLater(plan, commands, skipStops, "check_github_metadata", "check_mkdocs_workflow_exists");
    SortedStopHidesLater(plan, commands, skipStops, "check_github_metadata", "fix_missing_mkdocs_workflow");
  }

  /** The reads of `check_github_metadata`: each config file through the cache, read twice when found. */
  method ReadConfigFiles(linter: Session.RepoLinter, files: seq<string>) returns (answers: seq<Option<File>>, found: Option<File>)
    modifies linter`filecache
    ensures |answers| == |files| && found == LastFound(answers)
    ensures forall k :: 0 <= k < |files| ==> Session.Possible(old(linter.filecache), linter.repository.contents, files[k], answers[k])
    ensures Session.CacheFrom(old(linter.filecache), linter.filecache, linter.repository.contents, {})
  {
    ghost var start := linter.filecache;
    ghost var contents := linter.repository.contents;
    answers, found := [], None;
    var i := 0;
    while i < |files|
      invariant 0 <= i <= |files| && |answers| == i && found == LastFound(answers)
      invariant forall k :: 0 <= k < i ==> Session.Possible(start, contents, files[k], answers[k])
      invariant Session.CacheFrom(start, linter.filecache, contents, {})
    {
      ghost var before := linter.filecache;
      var file := linter.CachedGetFile(files[i], false);
      Session.PossibleFrom(start, before, contents, contents, {}, files[i], file);
      Session.CacheFromTrans(start, before, linter.filecache, contents, contents, {});
      if file.Some? {
        ghost var mid := linter.filecache;
        found := linter.CachedGetFile(files[i], false);
        assert found == file;
        Session.CacheFromTrans(start, mid, linter.filecache, contents, contents, {});
      }
      answers := answers + [file];
      assert answers[..i] == answers[..|answers| - 1];
      i := i + 1;
    }
  }

  /**
   * `check_github_metadata`: it reads the config files, asks for the pages
   * data (`pages` is the answer of `get_repo_pages_data`, which logs in
   * anew and calls the API), and overwrites the site fields of the YAML
   * document in memory, then drops it.
   */
  method CheckGithubMetadata(linter: Session.RepoLinter, parser: YamlParser, pages: Option<Value>)
    returns (signal: Signal, answers: seq<Option<File>>, found: Option<File>)
    modifies linter`filecache, linter`errors, linter`warnings, linter`fixes
    ensures var files := ConfigFiles(linter.config);
      (files.None? ==> answers == [] && found == None) &&
      (files.Some? ==>
         |answers| == |files.value| && found == LastFound(answers) &&
         forall k :: 0 <= k < |answers| ==>
           Session.Possible(old(linter.filecache), linter.repository.contents, files.value[k], answers[k]))
    ensures var run := GithubMetadataRun(ConfigFiles(linter.config), found, parser, pages);
      signal == run.signal &&
      Results(linter.errors, linter.warnings, linter.fixes) == Apply(old(Results(linter.errors, linter.warnings, linter.fixes)), run)
  {
    answers, found := [], None;
    var files := ConfigFiles(linter.config);
    if files.Some? {
      answers, found := ReadConfigFiles(linter, files.value);
    }
    var run := GithubMetadataRun(files, found, parser, pages);
    linter.Perform(run);
    signal := run.signal;
  }
}
