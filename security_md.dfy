// The SECURITY.MD check and fix (github_linter/tests/security_md.py): the
// file must exist, and the fix creates it from its template when it does not.
module SecurityMd {
  import opened Wrappers
  import opened Text
  import opened Config
  import opened Github
  import opened LintModules
  import Session

  const Category := "security_md"
  const DefaultFilename := "SECURITY.MD"

  const DefaultConfigValue: Value := Dict(map["security_md_filename" := Str(DefaultFilename)])

  const Members: seq<string> := [
    "CATEGORY", "DEFAULT_CONFIG", "DefaultConfig", "LANGUAGES", "RepoLinter", "TypedDict",
    "check_security_md_exists", "fix_create_security_md", "generate_jinja2_template_file", "logger"
  ]

  const Module := LintModule(Category, Some(["ALL"]), MappingDefault(DefaultConfigValue), Members)

  /** `repo.config[CATEGORY]["security_md_filename"]`, or None where the lookup raises. */
  function Filename(config: map<string, Value>): Option<string>
  {
    if Category in config && config[Category].Dict? && "security_md_filename" in config[Category].entries &&
       config[Category].entries["security_md_filename"].Str?
    then Some(config[Category].entries["security_md_filename"].s)
    else None
  }

  lemma DefaultFilenameMerged(config: map<string, Value>)
    requires Category !in config
    ensures Filename(LintModules.LoadModuleConfig(config, Module).config) == Some(DefaultFilename)
  {
    AddFromDictFillsMissing(DefaultConfigValue, Dict(map[]));
  }

  // check_security_md_exists

  const FileMissing := "File SECURITY.md is missing or empty"

  /** What `check_security_md_exists` records. */
  function ExistsRun(archived: bool, filename: Option<string>, file: Option<File>): (r: CommandRun)
    ensures r.warnings == [] && r.fixes == [] && |r.errors| <= 1
    ensures r.errors != [] <==> !archived && filename.Some? && file.None?
    ensures r.errors != [] ==> r.errors == [Message(Category, FileMissing)]
    ensures r.signal == (if archived then SkipOnArchived else if filename.None? then Raised else Completed)
  {
    if archived then CommandRun([], [], [], SkipOnArchived)
    else if filename.None? then CommandRun([], [], [], Raised)
    else if file.None? then CommandRun(Filed(Category, [FileMissing]), [], [], Completed)
    else Quiet
  }

  /** `check_security_md_exists`: the archived skip, then a read through the cache. */
  method CheckSecurityMdExists(linter: Session.RepoLinter) returns (signal: Signal, file: Option<File>)
    modifies linter`filecache, linter`errors, linter`warnings, linter`fixes
    ensures var name := Filename(linter.config);
      (linter.repository.archived || name.None? ==> file == None && linter.filecache == old(linter.filecache)) &&
      (!linter.repository.archived && name.Some? ==>
         Session.ReadAnswer(old(linter.filecache), linter.repository.contents, name.value, file) &&
         Session.CacheHolds(linter.filecache, name.value, file))
    ensures var run := ExistsRun(linter.repository.archived, Filename(linter.config), file);
      signal == run.signal &&
      Results(linter.errors, linter.warnings, linter.fixes) == Apply(old(Results(linter.errors, linter.warnings, linter.fixes)), run)
  {
    file := None;
    var skip := linter.SkipOnArchived();
    var name := Filename(linter.config);
    if !skip && name.Some? {
      file := linter.CachedGetFile(name.value, false);
    }
    var run := ExistsRun(skip, name, file);
    linter.Perform(run);
    signal := run.signal;
  }

  // fix_create_security_md

  /** The error as written: the message lacks the f prefix, so it never names the file. */
  function GenerateFailedAsWritten(filename: string): string
  {
    "Failed to generate {filename}"
  }

  /** The error as intended: it names the file that could not be generated. */
  function GenerateFailed(filename: string): (r: string)
    ensures Contains(r, filename)
  {
    var prefix := "Failed to generate ";
    assert (prefix + filename)[|prefix|..|prefix| + |filename|] == filename;
    ContainsPrefixOfSuffix(prefix + filename, filename, |prefix|);
    prefix + filename
  }

  /** As written, every filename gives the same text; the intended message tells the files apart. */
  lemma GenerateFailedNamesFile(a: string, b: string)
    ensures GenerateFailedAsWritten(a) == GenerateFailedAsWritten(b)
    ensures a != b ==> GenerateFailed(a) != GenerateFailed(b)
  {
    if a != b {
      assert GenerateFailed(a)[19..] == a;
      assert GenerateFailed(b)[19..] == b;
    }
  }

  function CreatedLabel(filename: string): string
  {
    "Created " + filename
  }

  function CommitMessageFor(filename: string): string
  {
    "dependabot - " + Category + " - " + CreatedLabel(filename)
  }

  function CreatedFix(filename: string, url: string): string
  {
    CreatedLabel(filename) + " - commit " + url
  }

  /**
   * What `fix_create_security_md` records. `generated` is the rendered
   * template, None when generation failed; `written` the write's answer.
   * A failed render records the message as written, which names no file.
   */
  function CreateRun(filename: Option<string>, archived: bool, file: Option<File>, generated: Option<string>,
                     written: Option<string>): (r: CommandRun)
    ensures r.warnings == [] && |r.errors| + |r.fixes| <= 1
    ensures r.errors != [] <==> filename.Some? && !archived && file.None? && generated.None?
    ensures r.errors != [] ==> r.errors == [Message(Category, GenerateFailedAsWritten(filename.value))]
    ensures r.fixes != [] <==> filename.Some? && !archived && file.None? && generated.Some? && written.Some?
    ensures r.fixes != [] ==> r.fixes == [Message(Category, CreatedFix(filename.value, written.value))]
    ensures r.signal == (if filename.None? then Raised else if archived then SkipOnArchived else Completed)
  {
    if filename.None? then CommandRun([], [], [], Raised)
    else if archived then CommandRun([], [], [], SkipOnArchived)
    else if file.Some? then Quiet
    else if generated.None? then CommandRun(Filed(Category, [GenerateFailedAsWritten(filename.value)]), [], [], Completed)
    else if written.Some? then CommandRun([], [], Filed(Category, [CreatedFix(filename.value, written.value)]), Completed)
    else Quiet
  }

  /**
   * The fix only ever creates: it writes nothing once the file exists, and
   * after its creation a later fix reading the created file does nothing.
   */
  lemma CreateOnlyOnce(contents: map<string, seq<File>>, filename: string, content: string, sha: string,
                       generated: Option<string>, written: Option<string>)
    ensures var after := contents[filename := [File(filename, filename, content, sha)]];
      CreateRun(Some(filename), false, FileAt(after, filename), generated, written) == Quiet
  {
  }

  /**
   * `fix_create_security_md`. The filename is looked up before the archived
   * skip; the write passes no old file, so it always happens.
   */
  method FixCreateSecurityMd(linter: Session.RepoLinter, generated: Option<string>)
    returns (signal: Signal, file: Option<File>, written: Option<string>)
    modifies linter`filecache, linter`errors, linter`warnings, linter`fixes, linter.repository`contents, linter.repository`commits
    ensures var name := Filename(linter.config);
      (name.None? || linter.repository.archived ==> file == None && linter.filecache == old(linter.filecache)) &&
      (name.Some? && !linter.repository.archived ==>
         Session.ReadAnswer(old(linter.filecache), old(linter.repository.contents), name.value, file) &&
         Session.CacheHolds(linter.filecache, name.value, file))
    ensures var name := Filename(linter.config);
      var writes := name.Some? && !linter.repository.archived && file.None? && generated.Some?;
      (!writes ==>
         written == None && linter.repository.contents == old(linter.repository.contents) &&
         linter.repository.commits == old(linter.repository.commits)) &&
      (writes ==>
         written.Some? &&
         linter.repository.commits ==
           old(linter.repository.commits) + [Commit(name.value, CommitMessageFor(name.value), generated.value, "")] &&
         exists sha :: linter.repository.contents ==
           old(linter.repository.contents)[name.value := [File(name.value, name.value, generated.value, sha)]])
    ensures var run := CreateRun(Filename(linter.config), linter.repository.archived, file, generated, written);
      signal == run.signal &&
      Results(linter.errors, linter.warnings, linter.fixes) == Apply(old(Results(linter.errors, linter.warnings, linter.fixes)), run)
  {
    file, written := None, None;
    var name := Filename(linter.config);
    var skip := false;
    if name.Some? {
      skip := linter.SkipOnArchived();
      if !skip {
        file := linter.CachedGetFile(name.value, false);
        if file.None? && generated.Some? {
          written := linter.CreateOrUpdateFile(name.value, generated.value, None, Some(CommitMessageFor(name.value)));
        }
      }
    }
    var run := CreateRun(name, linter.repository.archived, file, generated, written);
    linter.Perform(run);
    signal := run.signal;
  }
}
