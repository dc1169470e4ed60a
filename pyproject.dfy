// The pyproject.toml checks (github_linter/tests/pyproject.py): the
// project table's authors against the configured ones, its name against
// the repository's, its readme and its scripts, and the check that reads
// and parses the file. TOML parsing itself is abstract: `tomli.loads` is a
// function from the file's text to a document or a decode error.
module Pyproject {
  import opened Wrappers
  import opened Text
  import opened Config
  import opened Github
  import opened LintModules
  import opened ResultObjects
  import opened Toml
  import GithubLinters
  import Session

  const Category := "pyproject.toml"
  const PyprojectPath := "pyproject.toml"
  const DefaultReadme := "README.md"

  const Members: seq<string> := [
    "CATEGORY", "DICTLIST", "GithubLinter", "LANGUAGES", "RepositoryNotSet", "add_result", "check_pyproject_toml",
    "json", "logger", "tomli", "validate_project_name", "validate_pyproject_authors", "validate_readme_configured",
    "validate_scripts"
  ]

  const Module := LintModule("pyproject", Some(["python"]), NoDefaultConfig, Members)

  const RaisedRun := CommandRun([], [], [], Raised)

  /** A validator's results and the bool it returns; one that raises returns nothing, shown as false. */
  datatype Validated = Validated(run: CommandRun, ok: bool)

  /** Run `b` after `a`, unless `a` raised. */
  function Then(a: CommandRun, b: CommandRun): CommandRun
  {
    if a.signal != Completed then a else CommandRun(a.errors + b.errors, a.warnings + b.warnings, a.fixes + b.fixes, b.signal)
  }

  // validate_pyproject_authors

  const NoAuthors := "No authors in project definition."

  function Unexpected(author: Toml): string
  {
    "Project author not expected: " + Show(author)
  }

  function CheckAuthor(author: Toml): string
  {
    "Check author is expected: " + Show(author)
  }

  function AuthorChecks(authors: seq<Toml>): (r: seq<string>)
    ensures |r| == |authors| && forall i :: 0 <= i < |authors| ==> r[i] == CheckAuthor(authors[i])
  {
    seq(|authors|, i requires 0 <= i < |authors| => CheckAuthor(authors[i]))
  }

  /** `github_object.config.get("pyproject.toml")`, None as Null. */
  function Expected(config: map<string, Value>): Value
  {
    if Category in config then config[Category] else Null
  }

  /**
   * The loop over the authors against the configured list: an error for
   * each author the list does not hold, in order, up to an author whose
   * membership test raises.
   */
  function UnexpectedAuthors(authors: seq<Toml>, expected: Value): (r: CommandRun)
    ensures r.warnings == [] && r.fixes == [] && |r.errors| <= |authors|
    ensures r.signal == Raised <==> exists i :: 0 <= i < |authors| && InValue(authors[i], expected).None?
    ensures r.signal == Completed <==> forall i :: 0 <= i < |authors| ==> InValue(authors[i], expected).Some?
    ensures forall m :: m in r.errors ==>
      exists i :: 0 <= i < |authors| && InValue(authors[i], expected) == Some(false) && m == Message(Category, Unexpected(authors[i]))
    ensures (forall i :: 0 <= i < |authors| ==> InValue(authors[i], expected) == Some(true)) ==> r == Quiet
    decreases |authors|
  {
    if authors == [] then Quiet
    else
      var rest := UnexpectedAuthors(authors[1..], expected);
      assert forall i :: 1 <= i < |authors| ==> authors[1..][i - 1] == authors[i];
      match InValue(authors[0], expected)
      case None => RaisedRun
      case Some(true) => rest
      case Some(false) => rest.(errors := [Message(Category, Unexpected(authors[0]))] + rest.errors)
  }

  /** A prefix of a non-empty sequence is its head followed by a prefix of its tail. */
  lemma SliceCons<T>(s: seq<T>, k: nat)
    requires k < |s|
    ensures s[..k + 1] == [s[0]] + s[1..][..k]
    ensures s == [s[0]] + s[1..]
  {
  }

  lemma ConsInit<T>(a: T, rest: seq<T>)
    requires rest != []
    ensures ([a] + rest)[..|rest|] == [a] + rest[..|rest| - 1]
    ensures ([a] + rest)[|rest|] == rest[|rest| - 1]
    ensures |[a] + rest| - 1 == |rest|
  {
  }

  /** The errors for the authors a configured list does not hold, in order: an independent filter. */
  function NotExpected(authors: seq<Toml>, expected: Value): seq<Message>
    decreases |authors|
  {
    if authors == [] then []
    else
      var last := authors[|authors| - 1];
      NotExpected(authors[..|authors| - 1], expected) +
      (if InValue(last, expected) == Some(false) then [Message(Category, Unexpected(last))] else [])
  }

  /** The filter of one author followed by more. */
  lemma {:induction false} NotExpectedCons(a: Toml, rest: seq<Toml>, expected: Value)
    ensures NotExpected([a] + rest, expected) ==
      (if InValue(a, expected) == Some(false) then [Message(Category, Unexpected(a))] else []) + NotExpected(rest, expected)
    decreases |rest|
  {
    if rest == [] {
      assert ([a] + rest)[..0] == [];
    } else {
      var init := rest[..|rest| - 1];
      ConsInit(a, rest);
      NotExpectedCons(a, init, expected);
    }
  }

  /** The position of the first author whose membership test raises, or the number of authors. */
  function FirstUntestable(authors: seq<Toml>, expected: Value): (k: nat)
    ensures k <= |authors|
    ensures forall i :: 0 <= i < k ==> InValue(authors[i], expected).Some?
    ensures k < |authors| ==> InValue(authors[k], expected).None?
    decreases |authors|
  {
    if authors == [] || InValue(authors[0], expected).None? then 0
    else
      var k := FirstUntestable(authors[1..], expected);
      assert forall i :: 1 <= i < k + 1 ==> authors[1..][i - 1] == authors[i];
      1 + k
  }

  /** One author whose membership test answers, followed by the rest. */
  lemma UnexpectedAuthorsStep(authors: seq<Toml>, expected: Value)
    requires authors != [] && InValue(authors[0], expected).Some?
    ensures UnexpectedAuthors(authors, expected).errors ==
      (if InValue(authors[0], expected) == Some(false) then [Message(Category, Unexpected(authors[0]))] else []) +
      UnexpectedAuthors(authors[1..], expected).errors
  {
  }

  /**
   * The loop records one error per unexpected author, in order, up to the
   * first author whose membership test raises.
   */
  lemma {:induction false} UnexpectedAuthorsInOrder(authors: seq<Toml>, expected: Value)
    ensures UnexpectedAuthors(authors, expected).errors == NotExpected(authors[..FirstUntestable(authors, expected)], expected)
    decreases |authors|
  {
    if authors == [] || InValue(authors[0], expected).None? {
      assert authors[..0] == [];
    } else {
      var rest := authors[1..];
      UnexpectedAuthorsInOrder(rest, expected);
      UnexpectedAuthorsStep(authors, expected);
      var k := FirstUntestable(rest, expected);
      assert FirstUntestable(authors, expected) == k + 1;
      SliceCons(authors, k);
      NotExpectedCons(authors[0], rest[..k], expected);
    }
  }

  /** When no membership test raises, the loop records one error for each unexpected author, in order. */
  lemma UnexpectedAuthorsComplete(authors: seq<Toml>, expected: Value)
    requires UnexpectedAuthors(authors, expected).signal == Completed
    ensures UnexpectedAuthors(authors, expected).errors == NotExpected(authors, expected)
  {
    UnexpectedAuthorsInOrder(authors, expected);
    assert FirstUntestable(authors, expected) == |authors|;
    assert authors[..|authors|] == authors;
  }

  /**
   * What `validate_pyproject_authors` records: an error without authors;
   * against a configured list, an error per unexpected author; otherwise a
   * warning per author. It never records both errors and warnings.
   */
  function AuthorsRun(config: map<string, Value>, project: Toml): (r: CommandRun)
    ensures r.fixes == [] && (r.errors == [] || r.warnings == [])
    ensures THasKey(project, "authors") == Some(false) ==> r == CommandRun([Message(Category, NoAuthors)], [], [], Completed)
    ensures r.warnings != [] ==> !Truthy(Expected(config)) || !Truthy(GetOr(Expected(config), "authors", Null))
  {
    match THasKey(project, "authors")
    case None => RaisedRun
    case Some(false) => CommandRun([Message(Category, NoAuthors)], [], [], Completed)
    case Some(true) =>
      var expected := Expected(config);
      if Truthy(expected) && !expected.Dict? then RaisedRun
      else
        var listed := Index(project, TStr("authors"));
        if listed.None? || Iterate(listed.value).None? then RaisedRun
        else
          var authors := Iterate(listed.value).value;
          if Truthy(expected) && Truthy(GetOr(expected, "authors", Null)) then UnexpectedAuthors(authors, GetOr(expected, "authors", Null))
          else CommandRun([], Filed(Category, AuthorChecks(authors)), [], Completed)
  }

  /**
   * Without configured authors every listed author is a warning, in order;
   * with a configured list holding every author, nothing is recorded.
   */
  lemma AuthorsAgainstConfig(config: map<string, Value>, authors: seq<Toml>, entries: seq<(string, Toml)>)
    requires TLookup(entries, "authors") == Some(TArray(authors))
    ensures !Truthy(Expected(config)) ==>
      AuthorsRun(config, TTable(entries)) == CommandRun([], Filed(Category, AuthorChecks(authors)), [], Completed)
    ensures Category in config && config[Category].Dict? && "authors" in config[Category].entries &&
            Truthy(config[Category].entries["authors"]) &&
            (forall i :: 0 <= i < |authors| ==> InValue(authors[i], config[Category].entries["authors"]) == Some(true)) ==>
      AuthorsRun(config, TTable(entries)) == Quiet
  {
    assert THasKey(TTable(entries), "authors") == Some(true);
  }

  // validate_project_name

  const NoName := "No 'name' field in [project] section of config"

  function NameMismatch(repoName: string, shown: string): string
  {
    "Project name doesn't match repo name repo: " + repoName + " project: " + shown + "."
  }

  /**
   * What `validate_project_name` records and returns: true exactly when the
   * project's name is the repository's; otherwise one error, unless the
   * lookup raises.
   */
  function NameRun(repo: Option<Github.Repository>, project: Toml): (r: Validated)
    ensures r.run.warnings == [] && r.run.fixes == [] && |r.run.errors| <= 1
    ensures r.ok <==> repo.Some? && Index(project, TStr("name")) == Some(TStr(repo.value.name))
    ensures r.ok ==> r.run == Quiet
    ensures r.run.signal == Raised <==>
      repo.None? || THasKey(project, "name").None? || (THasKey(project, "name") == Some(true) && Index(project, TStr("name")).None?)
    ensures r.run.errors != [] <==> !r.ok && r.run.signal == Completed
  {
    if repo.None? then Validated(RaisedRun, false)
    else match THasKey(project, "name")
      case None => Validated(RaisedRun, false)
      case Some(false) =>
        assert Index(project, TStr("name")).None?;
        Validated(CommandRun([Message(Category, NoName)], [], [], Completed), false)
      case Some(true) =>
        var name := Index(project, TStr("name"));
        if name.None? then Validated(RaisedRun, false)
        else if name.value != TStr(repo.value.name) then
          Validated(CommandRun([Message(Category, NameMismatch(repo.value.name, Show(name.value)))], [], [], Completed), false)
        else Validated(Quiet, true)
  }

  // validate_readme_configured

  const NoReadme := "No 'readme' field in [project] section of config"

  function ReadmeInvalid(expected: string, found: string): string
  {
    "Readme invalid - should be " + expected + ", is " + found
  }

  /** The readme the configuration expects under `key`, "README.md" without one, None where the lookup raises. */
  function ExpectedReadme(config: map<string, Value>, key: string): Option<Value>
  {
    if key !in config then Some(Str(DefaultReadme))
    else match HasKey(config[key], "readme")
      case None => None
      case Some(false) => Some(Str(DefaultReadme))
      case Some(true) => if config[key].Dict? then Some(config[key].entries["readme"]) else None
  }

  /** `validate_readme_configured`, reading its setting from the configuration under `key`. */
  ghost function ReadmeAt(config: map<string, Value>, key: string, project: Toml): (r: Validated)
    ensures r.run.warnings == [] && r.run.fixes == [] && |r.run.errors| <= 1
    ensures r.ok <==> THasKey(project, "readme") == Some(true) && ExpectedReadme(config, key).Some? &&
                      Index(project, TStr("readme")).Some? &&
                      SameAs(Index(project, TStr("readme")).value, ExpectedReadme(config, key).value)
    ensures r.ok ==> r.run == Quiet
    ensures THasKey(project, "readme") == Some(false) ==> r.run.errors == [Message(Category, NoReadme)]
  {
    match THasKey(project, "readme")
    case None => Validated(RaisedRun, false)
    case Some(false) => Validated(CommandRun([Message(Category, NoReadme)], [], [], Completed), false)
    case Some(true) =>
      var expected := ExpectedReadme(config, key);
      var found := Index(project, TStr("readme"));
      if expected.None? || found.None? then Validated(RaisedRun, false)
      else if !SameAs(found.value, expected.value) then
        Validated(CommandRun([Message(Category, ReadmeInvalid(ValueShow(expected.value), Show(found.value)))], [], [], Completed), false)
      else Validated(Quiet, true)
  }

  /** `validate_readme_configured` as written: its setting is read under "pyproject". */
  ghost function ReadmeRunAsWritten(config: map<string, Value>, project: Toml): Validated
  {
    ReadmeAt(config, "pyproject", project)
  }

  /** `validate_readme_configured` reading its setting under the module's own category, "pyproject.toml". */
  ghost function ReadmeRun(config: map<string, Value>, project: Toml): Validated
  {
    ReadmeAt(config, Category, project)
  }

  /**
   * A readme configured under "pyproject.toml", where every other setting
   * of the module lives, is ignored as written: a project that uses it is
   * told to use README.md instead.
   */
  lemma ReadmeSettingIgnored()
    ensures var config := map[Category := Dict(map["readme" := Str("docs/README.md")])];
      var project := TTable([("readme", TStr("docs/README.md"))]);
      !ReadmeRunAsWritten(config, project).ok && ReadmeRun(config, project).ok
  {
    var config := map[Category := Dict(map["readme" := Str("docs/README.md")])];
    var project := TTable([("readme", TStr("docs/README.md"))]);
    assert TableKeys(project.entries) == ["readme"];
    assert ExpectedReadme(config, "pyproject") == Some(Str(DefaultReadme));
  }

  /** Read under its category, the configured readme is the one accepted, and README.md is without one. */
  lemma {:induction false} ReadmeFollowsConfig(config: map<string, Value>, entries: seq<(string, Toml)>, readme: string)
    requires TLookup(entries, "readme") == Some(TStr(readme))
    ensures Category in config && config[Category] == Dict(map["readme" := Str(readme)]) ==> ReadmeRun(config, TTable(entries)).ok
    ensures Category !in config ==> (ReadmeRun(config, TTable(entries)).ok <==> readme == DefaultReadme)
  {
    assert THasKey(TTable(entries), "readme") == Some(true);
  }

  // validate_scripts

  function InvalidModule(repoName: string, moduleName: string): string
  {
    "Script has invalid module: expected " + repoName + ", found " + moduleName
  }

  /** How `project_object["scripts"]` is found: absent, raising, or a value and what iterating it gives. */
  datatype ScriptsLookup = NoScripts | ScriptsFail | ScriptsFound(table: Toml, names: seq<Toml>)

  function FindScripts(project: Toml): ScriptsLookup
  {
    match THasKey(project, "scripts")
    case None => ScriptsFail
    case Some(false) => NoScripts
    case Some(true) =>
      var table := Index(project, TStr("scripts"));
      if table.None? || Iterate(table.value).None? then ScriptsFail
      else ScriptsFound(table.value, Iterate(table.value).value)
  }

  /** `project_object["scripts"][script]`, where `split` then works on it. */
  function ScriptDef(table: Toml, script: Toml): Option<string>
  {
    var d := Index(table, script);
    if d.Some? && d.value.TStr? then Some(d.value.s) else None
  }

  /** The module part of a script definition: `script_def.split(".")[0]`. */
  function ScriptModule(def: string): (r: string)
    ensures '.' !in r && StartsWith(def, r)
  {
    BeforeFirst(def, '.')
  }

  /**
   * `validate_scripts` as written: with a script, line 131 compares a list
   * with an int, which raises a TypeError, so only the first script is
   * checked (its module error, if any, is recorded first) and the
   * validator returns only for a project without scripts, or with an empty
   * scripts table, where it returns true.
   */
  function ScriptsRunAsWritten(repo: Option<Github.Repository>, project: Toml): (r: Validated)
    ensures r.run.warnings == [] && r.run.fixes == [] && |r.run.errors| <= 1
    ensures r.ok <==> repo.Some? && FindScripts(project).ScriptsFound? && FindScripts(project).names == []
    ensures r.run.signal == Completed <==>
      repo.Some? && (FindScripts(project).NoScripts? || (FindScripts(project).ScriptsFound? && FindScripts(project).names == []))
    ensures repo.Some? && FindScripts(project).ScriptsFound? && FindScripts(project).names != [] ==>
      r.run.errors == ScriptErrors(FindScripts(project).table, FindScripts(project).names[..1], repo.value.name).errors
  {
    if repo.None? then Validated(RaisedRun, false)
    else match FindScripts(project)
      case NoScripts => Validated(Quiet, false)
      case ScriptsFail => Validated(RaisedRun, false)
      case ScriptsFound(table, names) =>
        if names == [] then Validated(Quiet, true)
        else
          var def := ScriptDef(table, names[0]);
          if def.None? then Validated(RaisedRun, false)
          else
            var moduleName := ScriptModule(def.value);
            var errs := if moduleName != repo.value.name then [Message(Category, InvalidModule(repo.value.name, moduleName))] else [];
            Validated(CommandRun(errs, [], [], Raised), false)
  }

  /** Any project with at least one script makes `validate_scripts` raise as written. */
  lemma ScriptsComparisonRaises(repo: Github.Repository, project: Toml)
    requires FindScripts(project).ScriptsFound? && FindScripts(project).names != []
    ensures ScriptsRunAsWritten(Some(repo), project).run.signal == Raised
    ensures !ScriptsRunAsWritten(Some(repo), project).ok
  {
  }

  /** The loop over the scripts with the comparison parenthesised as `len(...) > 1`: module errors, up to a script that raises. */
  function ScriptErrors(table: Toml, names: seq<Toml>, repoName: string): (r: CommandRun)
    ensures r.warnings == [] && r.fixes == [] && |r.errors| <= |names|
    ensures r.signal == Raised <==> exists i :: 0 <= i < |names| && ScriptDef(table, names[i]).None?
    ensures r.signal != SkipOnArchived
    ensures (forall i :: 0 <= i < |names| ==> ScriptDef(table, names[i]).Some? && ScriptModule(ScriptDef(table, names[i]).value) == repoName) ==>
      r == Quiet
    ensures forall m :: m in r.errors ==>
      (exists i :: 0 <= i < |names| && ScriptDef(table, names[i]).Some? &&
        ScriptModule(ScriptDef(table, names[i]).value) != repoName &&
        m == Message(Category, InvalidModule(repoName, ScriptModule(ScriptDef(table, names[i]).value))))
    decreases |names|
  {
    if names == [] then Quiet
    else
      var rest := ScriptErrors(table, names[1..], repoName);
      assert forall i :: 1 <= i < |names| ==> names[1..][i - 1] == names[i];
      var def := ScriptDef(table, names[0]);
      if def.None? then RaisedRun
      else if ScriptModule(def.value) != repoName then
        rest.(errors := [Message(Category, InvalidModule(repoName, ScriptModule(def.value)))] + rest.errors)
      else rest
  }

  /** The errors for the scripts whose module is not the repository's, in order: an independent filter. */
  function Mismatching(table: Toml, names: seq<Toml>, repoName: string): seq<Message>
    decreases |names|
  {
    if names == [] then []
    else
      var def := ScriptDef(table, names[|names| - 1]);
      Mismatching(table, names[..|names| - 1], repoName) +
      (if def.Some? && ScriptModule(def.value) != repoName then [Message(Category, InvalidModule(repoName, ScriptModule(def.value)))] else [])
  }

  lemma {:induction false} MismatchingCons(table: Toml, n: Toml, rest: seq<Toml>, repoName: string)
    ensures var def := ScriptDef(table, n);
      Mismatching(table, [n] + rest, repoName) ==
      (if def.Some? && ScriptModule(def.value) != repoName then [Message(Category, InvalidModule(repoName, ScriptModule(def.value)))] else []) +
      Mismatching(table, rest, repoName)
    decreases |rest|
  {
    if rest == [] {
      assert ([n] + rest)[..0] == [];
    } else {
      var init := rest[..|rest| - 1];
      ConsInit(n, rest);
      MismatchingCons(table, n, init, repoName);
    }
  }

  /** The position of the first script whose definition cannot be split, or the number of scripts. */
  function FirstUndefined(table: Toml, names: seq<Toml>): (k: nat)
    ensures k <= |names|
    ensures forall i :: 0 <= i < k ==> ScriptDef(table, names[i]).Some?
    ensures k < |names| ==> ScriptDef(table, names[k]).None?
    decreases |names|
  {
    if names == [] || ScriptDef(table, names[0]).None? then 0
    else
      var k := FirstUndefined(table, names[1..]);
      assert forall i :: 1 <= i < k + 1 ==> names[1..][i - 1] == names[i];
      1 + k
  }

  /** One script whose definition splits, followed by the rest. */
  lemma ScriptErrorsStep(table: Toml, names: seq<Toml>, repoName: string)
    requires names != [] && ScriptDef(table, names[0]).Some?
    ensures var def := ScriptDef(table, names[0]).value;
      var head := if ScriptModule(def) != repoName then [Message(Category, InvalidModule(repoName, ScriptModule(def)))] else [];
      ScriptErrors(table, names, repoName).errors == head + ScriptErrors(table, names[1..], repoName).errors &&
      ScriptErrors(table, names, repoName).signal == ScriptErrors(table, names[1..], repoName).signal
  {
  }

  /**
   * The loop records one error per script whose module is not the
   * repository's, in order, up to the first script that raises.
   */
  lemma {:induction false} ScriptErrorsInOrder(table: Toml, names: seq<Toml>, repoName: string)
    ensures ScriptErrors(table, names, repoName).errors == Mismatching(table, names[..FirstUndefined(table, names)], repoName)
    decreases |names|
  {
    if names == [] || ScriptDef(table, names[0]).None? {
      assert names[..0] == [];
    } else {
      var rest := names[1..];
      ScriptErrorsInOrder(table, rest, repoName);
      ScriptErrorsStep(table, names, repoName);
      var k := FirstUndefined(table, rest);
      assert FirstUndefined(table, names) == k + 1;
      SliceCons(names, k);
      MismatchingCons(table, names[0], rest[..k], repoName);
    }
  }

  /** When no script raises, the loop records one error for each script whose module is not the repository's, in order. */
  lemma ScriptErrorsComplete(table: Toml, names: seq<Toml>, repoName: string)
    requires ScriptErrors(table, names, repoName).signal == Completed
    ensures ScriptErrors(table, names, repoName).errors == Mismatching(table, names, repoName)
  {
    ScriptErrorsInOrder(table, names, repoName);
    assert FirstUndefined(table, names) == |names|;
    assert names[..|names|] == names;
  }

  /**
   * `validate_scripts` with the comparison parenthesised as intended:
   * every script's module is checked against the repository's name. The
   * module part holds no ".", so the `__main__` test after it never fires
   * and the validator returns true whenever it returns.
   */
  function ScriptsRun(repo: Option<Github.Repository>, project: Toml): (r: Validated)
    ensures r.ok <==> repo.Some? && FindScripts(project).ScriptsFound? && r.run.signal == Completed
    ensures repo.Some? && FindScripts(project).ScriptsFound? ==>
      r.run == ScriptErrors(FindScripts(project).table, FindScripts(project).names, repo.value.name)
  {
    if repo.None? then Validated(RaisedRun, false)
    else match FindScripts(project)
      case NoScripts => Validated(Quiet, false)
      case ScriptsFail => Validated(RaisedRun, false)
      case ScriptsFound(table, names) =>
        var run := ScriptErrors(table, names, repo.value.name);
        Validated(run, run.signal == Completed)
  }

  // check_pyproject_toml

  const NoProject := "No Project Section in file?"

  function ParseFailed(message: string): string
  {
    "Failed to parse pyproject.toml: " + message
  }

  /** The closing loop over `project.get(key)`, with `missing` the outcome when the table lacks the key. */
  function UrlsAt(project: Toml, missing: Signal): Signal
  {
    match TGet(project, "urls")
    case None => Raised
    case Some(None) => missing
    case Some(Some(urls)) =>
      var elems := Iterate(urls);
      if elems.None? then Raised
      else if exists i :: 0 <= i < |elems.value| && Index(urls, elems.value[i]).None? then Raised
      else Completed
  }

  /** The urls loop as written: iterating `project.get("urls")` raises when the project has no urls. */
  function UrlsLoggedAsWritten(project: Toml): Signal
  {
    UrlsAt(project, Raised)
  }

  /** The urls loop over `project.get("urls", {})`: a project without urls logs nothing. */
  function UrlsLogged(project: Toml): Signal
  {
    UrlsAt(project, Completed)
  }

  /** A project table without urls makes the check raise as written, and passes with the default. */
  lemma UrlsMissingRaises(entries: seq<(string, Toml)>)
    requires "urls" !in TableKeys(entries)
    ensures UrlsLoggedAsWritten(TTable(entries)) == Raised
    ensures UrlsLogged(TTable(entries)) == Completed
  {
  }

  /**
   * The urls loop with the default: a project without urls or with a urls
   * table logs its entries and completes, and wherever the table has urls
   * it does what the loop as written does.
   */
  lemma UrlsLoggedCompletes(entries: seq<(string, Toml)>, urls: seq<(string, Toml)>)
    ensures TLookup(entries, "urls") == None ==> UrlsLogged(TTable(entries)) == Completed
    ensures TLookup(entries, "urls") == Some(TTable(urls)) ==>
      UrlsLogged(TTable(entries)) == Completed && UrlsLoggedAsWritten(TTable(entries)) == Completed
    ensures TLookup(entries, "urls").Some? ==> UrlsLogged(TTable(entries)) == UrlsLoggedAsWritten(TTable(entries))
  {
    forall i | 0 <= i < |urls|
      ensures Index(TTable(urls), KeyValues(urls)[i]).Some?
    {
      assert TableKeys(urls)[i] == urls[i].0;
    }
  }

  /**
   * What `check_pyproject_toml` records, given the read of the file and
   * the parser: nothing without the file; one error when it does not parse
   * or has no project table; otherwise the authors and name validators in
   * turn, and the urls loop.
   */
  function CheckRun(config: map<string, Value>, repo: Option<Github.Repository>, read: Remote<Option<File>>,
                    parse: string -> TomlParse): (r: CommandRun)
    ensures r.fixes == []
    ensures repo.None? || read.Failed? ==> r == RaisedRun
    ensures repo.Some? && read == Ok(None) ==> r == Quiet
    ensures repo.Some? && read.Ok? && read.value.Some? && parse(read.value.value.content).DecodeError? ==>
      r == CommandRun([Message(Category, ParseFailed(parse(read.value.value.content).message))], [], [], Completed)
  {
    if repo.None? || read.Failed? then RaisedRun
    else if read.value.None? then Quiet
    else match parse(read.value.value.content)
      case DecodeError(message) => CommandRun([Message(Category, ParseFailed(message))], [], [], Completed)
      case Parsed(doc) =>
        match TGet(doc, "project")
        case None => RaisedRun
        case Some(project) =>
          if project.None? || !TTruthy(project.value) then CommandRun([Message(Category, NoProject)], [], [], Completed)
          else Validators(config, repo, project.value)
  }

  /**
   * The validators `check_pyproject_toml` runs on such a project table, in
   * turn, and the urls loop over `project.get("urls")` as written.
   */
  function Validators(config: map<string, Value>, repo: Option<Github.Repository>, project: Toml): CommandRun
  {
    Then(AuthorsRun(config, project), Then(NameRun(repo, project).run, CommandRun([], [], [], UrlsLoggedAsWritten(project))))
  }

  /**
   * For any parsed file with a project table: the authors' records, then,
   * unless the authors validator raised, the name's; the check ends as the
   * first validator that raises does, and otherwise as the urls loop does.
   */
  lemma CheckRunParsed(config: map<string, Value>, repo: Github.Repository, file: File, parse: string -> TomlParse,
                       project: Toml)
    requires parse(file.content).Parsed? && TGet(parse(file.content).doc, "project") == Some(Some(project))
    requires TTruthy(project)
    ensures var a := AuthorsRun(config, project);
      var n := NameRun(Some(repo), project).run;
      var r := CheckRun(config, Some(repo), Ok(Some(file)), parse);
      r.errors == a.errors + (if a.signal == Completed then n.errors else []) &&
      r.warnings == a.warnings && r.fixes == [] &&
      r.signal == (if a.signal != Completed then a.signal
                   else if n.signal != Completed then n.signal
                   else UrlsLoggedAsWritten(project))
  {
    var a := AuthorsRun(config, project);
    var n := NameRun(Some(repo), project).run;
    assert n.warnings == [] && n.fixes == [];
    if a.signal == Completed {
      assert a.errors + n.errors + [] == a.errors + n.errors;
      assert a.warnings + [] + [] == a.warnings;
    }
  }

  /**
   * A named project table without urls makes the check raise, as written,
   * once the authors and the name have been checked: whatever they
   * recorded is kept.
   */
  lemma ProjectWithoutUrlsRaises(config: map<string, Value>, repo: Github.Repository, file: File, parse: string -> TomlParse,
                                 entries: seq<(string, Toml)>)
    requires parse(file.content).Parsed? && TGet(parse(file.content).doc, "project") == Some(Some(TTable(entries)))
    requires "urls" !in TableKeys(entries) && "name" in TableKeys(entries)
    ensures var a := AuthorsRun(config, TTable(entries));
      var r := CheckRun(config, Some(repo), Ok(Some(file)), parse);
      r.signal == Raised &&
      r.errors == a.errors + (if a.signal == Completed then NameRun(Some(repo), TTable(entries)).run.errors else [])
  {
    assert TTruthy(TTable(entries));
    CheckRunParsed(config, repo, file, parse, TTable(entries));
    UrlsMissingRaises(entries);
    assert THasKey(TTable(entries), "name") == Some(true);
  }

  /** With no authors configured, an empty authors list and an empty urls table record nothing. */
  lemma NoAuthorsNoUrls(config: map<string, Value>, entries: seq<(string, Toml)>)
    requires Category !in config
    requires TLookup(entries, "authors") == Some(TArray([]))
    requires TLookup(entries, "urls") == Some(TTable([]))
    ensures AuthorsRun(config, TTable(entries)) == Quiet
    ensures UrlsLoggedAsWritten(TTable(entries)) == Completed
  {
    AuthorsAgainstConfig(config, [], entries);
    assert AuthorChecks([]) == [];
  }

  /**
   * A project table with a name, no authors and a urls table passes the
   * validators when no authors are configured and the name is the
   * repository's; named otherwise, it gets exactly the name error.
   */
  lemma NamedTablePasses(config: map<string, Value>, repo: Github.Repository, entries: seq<(string, Toml)>, name: string)
    requires Category !in config
    requires TLookup(entries, "name") == Some(TStr(name))
    requires TLookup(entries, "authors") == Some(TArray([]))
    requires TLookup(entries, "urls") == Some(TTable([]))
    ensures Validators(config, Some(repo), TTable(entries)) ==
      if name == repo.name then Quiet else CommandRun([Message(Category, NameMismatch(repo.name, name))], [], [], Completed)
  {
    var project := TTable(entries);
    NoAuthorsNoUrls(config, entries);
    assert THasKey(project, "name") == Some(true);
    var run := NameRun(Some(repo), project).run;
    assert run == if name == repo.name then Quiet else CommandRun([Message(Category, NameMismatch(repo.name, name))], [], [], Completed);
    assert run.errors + [] == run.errors && run.warnings + [] == run.warnings && run.fixes + [] == run.fixes;
  }

  /** Parsed from the file, such a project is what the check reports on. */
  lemma NamedProjectPasses(config: map<string, Value>, repo: Github.Repository, file: File, parse: string -> TomlParse,
                           entries: seq<(string, Toml)>, name: string)
    requires Category !in config
    requires parse(file.content) == Parsed(TTable([("project", TTable(entries))]))
    requires TLookup(entries, "name") == Some(TStr(name))
    requires TLookup(entries, "authors") == Some(TArray([]))
    requires TLookup(entries, "urls") == Some(TTable([]))
    ensures name == repo.name ==> CheckRun(config, Some(repo), Ok(Some(file)), parse) == Quiet
    ensures name != repo.name ==>
      CheckRun(config, Some(repo), Ok(Some(file)), parse) == CommandRun([Message(Category, NameMismatch(repo.name, name))], [], [], Completed)
  {
    var project := TTable(entries);
    assert TGet(TTable([("project", project)]), "project") == Some(Some(project));
    assert TTruthy(project);
    NamedTablePasses(config, repo, entries, name);
  }

  /** `check_pyproject_toml`: one read of the file through the older cache, then the parse and the validators. */
  method CheckPyprojectToml(github: GithubLinters.GithubLinter, parse: string -> TomlParse, errors: ResultObject, warnings: ResultObject)
    returns (signal: Signal, read: Remote<Option<File>>)
    modifies github`filecache, errors, warnings
    ensures github.currentRepo.None? ==> github.filecache == old(github.filecache)
    ensures github.currentRepo.Some? ==>
      var key := github.currentRepo.value.fullName;
      GithubLinters.OlderPossible(GithubLinters.RepoCache(old(github.filecache), key), github.currentRepo.value.contents, PyprojectPath, read) &&
      Session.CacheFrom(GithubLinters.RepoCache(old(github.filecache), key), GithubLinters.RepoCache(github.filecache, key),
                        github.currentRepo.value.contents, {})
    ensures var run := CheckRun(github.config, github.currentRepo, read, parse);
      signal == run.signal && Delivered(run, old(errors.sink), old(warnings.sink), errors, warnings)
  {
    read := Failed;
    if github.currentRepo.Some? {
      read := github.CachedGetFile(PyprojectPath);
    }
    var run := CheckRun(github.config, github.currentRepo, read, parse);
    Deliver(run, errors, warnings);
    signal := run.signal;
  }
}
