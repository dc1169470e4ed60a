// The older per-repository session `RepoLinter` (github_linter/__init__.py:283-399),
// which `GithubLinter.handle_repo` drives: no config merge, no fixes sink, a
// file cache without invalidation, and a dispatcher that catches nothing.
module LegacySession {
  import opened Wrappers
  import opened Text
  import opened Sinks
  import opened Config
  import opened Github
  import opened Filter
  import Languages
  import opened LintModules

  /** The older language gate: any `LANGUAGES` attribute is checked, "ALL" included. */
  predicate Gated(m: LintModule, repoLanguages: seq<string>)
  {
    m.languages.Some? && !Languages.Applies(m.languages.value, repoLanguages)
  }

  /** The calls of the older `run_module` once its gate has passed: `check_` names only, repeats kept. */
  function LegacyPlan(m: LintModule, filter: seq<string>): seq<string>
  {
    Plan(if filter == [] then m.members else FilteredChecks(m.members, filter), false)
  }

  /** How the older `run_module` ends: False from the gate, True, or an exception. */
  datatype RunResult = GateClosed | Ran | Aborted

  class RepoLinter {
    var config: map<string, Value>
    const repository: Repository
    var errors: Sink
    var warnings: Sink
    var filecache: map<string, Option<File>>

    constructor (repository: Repository, loaded: map<string, Value>)
      ensures this.repository == repository && config == loaded
      ensures errors == [] && warnings == [] && filecache == map[]
    {
      this.repository := repository;
      config := loaded;
      errors := [];
      warnings := [];
      filecache := map[];
    }

    /**
     * `get_file`: the first file of the listing, None for a 404 or an empty
     * answer; any other API failure propagates (`Failed`).
     */
    method GetFile(path: string) returns (r: Remote<Option<File>>)
      ensures r == Failed || r == Ok(FileAt(repository.contents, path))
    {
      var answer := repository.GetContents(path);
      match answer
      case ApiError => r := Failed;
      case NotFound => r := Ok(None);
      case Listing(items) => r := Ok(if items == [] then None else Some(items[0]));
    }

    /**
     * `cached_get_file`: memoised with no invalidation. A failure propagates
     * and caches nothing.
     */
    method CachedGetFile(path: string) returns (r: Remote<Option<File>>)
      modifies this`filecache
      ensures path in old(filecache) ==> r == Ok(old(filecache)[path]) && filecache == old(filecache)
      ensures path !in old(filecache) ==>
        (r == Failed && filecache == old(filecache)) ||
        (r == Ok(FileAt(repository.contents, path)) && filecache == old(filecache)[path := FileAt(repository.contents, path)])
    {
      if path in filecache {
        return Ok(filecache[path]);
      }
      r := GetFile(path);
      if r.Ok? {
        filecache := filecache[path := r.value];
      }
    }

    method ModuleLanguageCheck(m: LintModule) returns (ok: bool)
      requires m.languages.Some?
      ensures ok == Languages.Applies(m.languages.value, repository.languages)
    {
      ok := Languages.ModuleLanguageCheck(m.languages.value, repository.languages);
    }

    method AddError(category: string, value: string)
      modifies this`errors
      ensures errors == Added(old(errors), category, value)
    {
      errors := Added(errors, category, value);
    }

    method AddWarning(category: string, value: string)
      modifies this`warnings
      ensures warnings == Added(old(warnings), category, value)
    {
      warnings := Added(warnings, category, value);
    }

    /**
     * The older `run_module`: the language gate, then every `check_` name of
     * `get_filtered_checks`, in that order and as often as it is listed.
     * Nothing is caught: `SkipOnArchived` ends the run like any exception.
     */
    method RunModule(m: LintModule, filter: seq<string>, commands: Commands)
      returns (result: RunResult, called: seq<string>)
      modifies this`errors, this`warnings
      ensures Gated(m, repository.languages) ==> result == GateClosed && called == []
      ensures !Gated(m, repository.languages) ==>
        called == UntilStopped(LegacyPlan(m, filter), commands, true) &&
        result == (if called != [] && Stops(commands, true, called[|called| - 1]) then Aborted else Ran)
      ensures errors == ApplyAll(Results(old(errors), old(warnings), []), called, commands).errors
      ensures warnings == ApplyAll(Results(old(errors), old(warnings), []), called, commands).warnings
    {
      if m.languages.Some? {
        var applies := ModuleLanguageCheck(m);
        if !applies {
          return GateClosed, [];
        }
      }
      var names := GetFilteredChecks(m.members, filter);
      var raised;
      called, raised := CallChecks(names, commands);
      result := if raised then Aborted else Ran;
    }

    /**
     * The loop of the older `run_module`, which catches nothing, so
     * `SkipOnArchived` ends it too. The results are stored when the loop
     * ends: the commands of this model cannot observe the sinks in between.
     */
    method CallChecks(names: seq<string>, commands: Commands) returns (called: seq<string>, raised: bool)
      modifies this`errors, this`warnings
      ensures called == UntilStopped(Plan(names, false), commands, true)
      ensures raised == (called != [] && Stops(commands, true, called[|called| - 1]))
      ensures errors == ApplyAll(Results(old(errors), old(warnings), []), called, commands).errors
      ensures warnings == ApplyAll(Results(old(errors), old(warnings), []), called, commands).warnings
    {
      var results;
      called, raised, results := CallEach(names, false, commands, true, Results(errors, warnings, []));
      errors, warnings := results.errors, results.warnings;
    }
  }
}
