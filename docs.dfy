// The contributing guide check and fix (github_linter/tests/docs.py): the
// guide must exist, and the fix writes it from its template.
module Docs {
  import opened Wrappers
  import opened Text
  import opened Config
  import opened Github
  import opened LintModules
  import Session

  const Category := "docs"
  const DefaultPath := ".github/CONTRIBUTING.md"

  const DefaultConfigValue: Value := Dict(map["contributing_file" := Str(DefaultPath)])

  const Members: seq<string> := [
    "CATEGORY", "DEFAULT_CONFIG", "DefaultConfig", "Environment", "LANGUAGES", "PackageLoader", "RepoLinter",
    "TypedDict", "check_contributing_exists", "fix_contributing_exists", "jinja2", "logger", "select_autoescape"
  ]

  const Module := LintModule(Category, Some(["ALL"]), MappingDefault(DefaultConfigValue), Members)

  /** `repo.config[CATEGORY]["contributing_file"]`, or None where the lookup raises. */
  function ContributingPath(config: map<string, Value>): Option<string>
  {
    if Category in config && config[Category].Dict? && "contributing_file" in config[Category].entries &&
       config[Category].entries["contributing_file"].Str?
    then Some(config[Category].entries["contributing_file"].s)
    else None
  }

  lemma DefaultPathMerged(config: map<string, Value>)
    requires Category !in config
    ensures ContributingPath(LintModules.LoadModuleConfig(config, Module).config) == Some(DefaultPath)
  {
    AddFromDictFillsMissing(DefaultConfigValue, Dict(map[]));
  }

  // check_contributing_exists

  function Missing(path: string): (r: string)
    ensures Contains(r, path)
  {
    var prefix := "Couldn't find ";
    assert (prefix + path)[|prefix|..|prefix| + |path|] == path;
    ContainsPrefixOfSuffix(prefix + path, path, |prefix|);
    prefix + path
  }

  /** What `check_contributing_exists` records: one error, naming the path, when the guide is missing. */
  function ExistsRun(archived: bool, path: Option<string>, file: Option<File>): (r: CommandRun)
    ensures r.warnings == [] && r.fixes == [] && |r.errors| <= 1
    ensures r.errors != [] <==> !archived && path.Some? && file.None?
    ensures r.errors != [] ==> r.errors == [Message(Category, Missing(path.value))]
    ensures r.signal == (if archived then SkipOnArchived else if path.None? then Raised else Completed)
  {
    if archived then CommandRun([], [], [], SkipOnArchived)
    else if path.None? then CommandRun([], [], [], Raised)
    else if file.None? then CommandRun(Filed(Category, [Missing(path.value)]), [], [], Completed)
    else Quiet
  }

  /** `check_contributing_exists`: the archived skip, then a read through the cache. */
  method CheckContributingExists(linter: Session.RepoLinter) returns (signal: Signal, file: Option<File>)
    modifies linter`filecache, linter`errors, linter`warnings, linter`fixes
    ensures var path := ContributingPath(linter.config);
      (linter.repository.archived || path.None? ==> file == None && linter.filecache == old(linter.filecache)) &&
      (!linter.repository.archived && path.Some? ==>
         Session.ReadAnswer(old(linter.filecache), linter.repository.contents, path.value, file) &&
         Session.CacheHolds(linter.filecache, path.value, file))
    ensures var run := ExistsRun(linter.repository.archived, ContributingPath(linter.config), file);
      signal == run.signal &&
      Results(linter.errors, linter.warnings, linter.fixes) == Apply(old(Results(linter.errors, linter.warnings, linter.fixes)), run)
  {
    file := None;
    var skip := linter.SkipOnArchived();
    var path := ContributingPath(linter.config);
    if !skip && path.Some? {
      file := linter.CachedGetFile(path.value, false);
    }
    var run := ExistsRun(skip, path, file);
    linter.Perform(run);
    signal := run.signal;
  }

  // fix_contributing_exists

  function CommitMessageFor(path: string): string
  {
    "github-linter docs module creating " + path
  }

  function CreatedFix(path: string, url: string): string
  {
    "Created " + path + ", commit url: " + url
  }

  /**
   * What `fix_contributing_exists` records. `rendered` is the rendered
   * template, None when the template is not found; `written` the write's
   * answer.
   */
  function FixRun(rendered: Option<string>, path: Option<string>, written: Option<string>): (r: CommandRun)
    ensures r.errors == [] && r.warnings == [] && |r.fixes| <= 1
    ensures r.fixes != [] <==> rendered.Some? && path.Some?
    ensures r.fixes != [] ==> r.fixes == [Message(Category, CreatedFix(path.value, if written.Some? then written.value else "None"))]
    ensures r.signal == (if rendered.Some? && path.None? then Raised else Completed)
  {
    if rendered.None? then Quiet
    else if path.None? then CommandRun([], [], [], Raised)
    else CommandRun([], [], Filed(Category, [CreatedFix(path.value, if written.Some? then written.value else "None")]), Completed)
  }

  /**
   * The fix does what the check asks for: after it wrote the guide, a check
   * of the repository finds it (whatever sha the write gave it), so the
   * check records nothing.
   */
  lemma FixSatisfiesCheck(contents: map<string, seq<File>>, path: string, rendered: string, sha: string)
    ensures var after := contents[path := [File(path, path, rendered, sha)]];
      FileAt(after, path) == Some(File(path, path, rendered, sha)) &&
      ExistsRun(false, Some(path), FileAt(after, path)) == Quiet
  {
  }

  /**
   * `fix_contributing_exists`: with a rendered template, one write of it
   * against no old file, whether or not the guide exists and whether or not
   * the repository is archived; nothing is read.
   */
  method FixContributingExists(linter: Session.RepoLinter, rendered: Option<string>) returns (signal: Signal, written: Option<string>)
    modifies linter`errors, linter`warnings, linter`fixes, linter.repository`contents, linter.repository`commits
    ensures var path := ContributingPath(linter.config);
      (rendered.None? || path.None? ==>
         written == None && linter.repository.contents == old(linter.repository.contents) &&
         linter.repository.commits == old(linter.repository.commits)) &&
      (rendered.Some? && path.Some? ==>
         written.Some? &&
         linter.repository.commits ==
           old(linter.repository.commits) + [Commit(path.value, CommitMessageFor(path.value), rendered.value, "")] &&
         exists sha :: linter.repository.contents ==
           old(linter.repository.contents)[path.value := [File(path.value, path.value, rendered.value, sha)]])
    ensures var run := FixRun(rendered, ContributingPath(linter.config), written);
      signal == run.signal &&
      Results(linter.errors, linter.warnings, linter.fixes) == Apply(old(Results(linter.errors, linter.warnings, linter.fixes)), run)
  {
    written := None;
    var path := ContributingPath(linter.config);
    if rendered.Some? && path.Some? {
      written := linter.CreateOrUpdateFile(path.value, rendered.value, None, Some(CommitMessageFor(path.value)));
    }
    var run := FixRun(rendered, path, written);
    linter.Perform(run);
    signal := run.signal;
  }
}
