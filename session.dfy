// The per-repository lint session `RepoLinter` (github_linter/repolinter.py:53-313):
// the loaded config, the repository, the three result sinks and the file cache.
module Session {
  import opened Wrappers
  import opened Text
  import opened Sinks
  import opened Config
  import opened Github
  import opened Filter
  import Languages
  import opened LintModules

  const DefaultCommitPrefix := "github-linter updating file: "
  const UnknownCommitUrl := "Unkown Commit URL"

  /** The commit message `create_or_update_file` uses: the given one, or a default naming the path. */
  function CommitMessage(path: string, message: Option<string>): (r: string)
    ensures message.Some? && message.value != "" ==> r == message.value
    ensures message.None? || message.value == "" ==> StartsWith(r, DefaultCommitPrefix) && EndsWith(r, path)
  {
    if message.Some? && message.value != "" then message.value
    else
      assert (DefaultCommitPrefix + path)[..|DefaultCommitPrefix|] == DefaultCommitPrefix;
      DefaultCommitPrefix + path
  }

  /**
   * The language gate of `run_module` is closed when the module lists
   * languages, none of them is the literal "ALL", and
   * `module_language_check` fails.
   */
  predicate Gated(m: LintModule, repoLanguages: seq<string>)
  {
    m.languages.Some? && "ALL" !in m.languages.value && !Languages.Applies(m.languages.value, repoLanguages)
  }

  /**
   * What a cached read of `path` may answer: the cached answer when there
   * is one, and otherwise the remote file or, when the fetch failed, None.
   */
  predicate ReadAnswer(cache: map<string, Option<File>>, contents: map<string, seq<File>>, path: string, r: Option<File>)
  {
    if path in cache then r == cache[path] else r == FileAt(contents, path) || r == None
  }

  /** After a read of `path` answering `r`, the cache holds `r` for it or nothing (and then `r` is None). */
  predicate CacheHolds(cache: map<string, Option<File>>, path: string, r: Option<File>)
  {
    (path in cache ==> cache[path] == r) && (path !in cache ==> r == None)
  }

  /**
   * A read answer that the cache as it stood before a command, or the
   * repository, can give: nothing, the remote file, or the entry cached
   * before.
   */
  predicate Possible(before: map<string, Option<File>>, contents: map<string, seq<File>>, path: string, r: Option<File>)
  {
    r == None || r == FileAt(contents, path) || (path in before && r == before[path])
  }

  /**
   * Every entry of `after` outside `written` was either kept from `before`
   * or fetched from `contents`; `written` holds the paths a command has
   * changed on the remote side since it started.
   */
  predicate CacheFrom(before: map<string, Option<File>>, after: map<string, Option<File>>,
                      contents: map<string, seq<File>>, written: set<string>)
  {
    forall p :: p in after && p !in written ==>
      (p in before && after[p] == before[p]) || after[p] == FileAt(contents, p)
  }

  /** Two steps of cache provenance compose, when the remote files outside `written` stayed as they were. */
  lemma CacheFromTrans(a: map<string, Option<File>>, b: map<string, Option<File>>, c: map<string, Option<File>>,
                       contents: map<string, seq<File>>, now: map<string, seq<File>>, written: set<string>)
    requires CacheFrom(a, b, contents, written) && CacheFrom(b, c, now, {})
    requires forall p :: p !in written ==> FileAt(now, p) == FileAt(contents, p)
    ensures CacheFrom(a, c, contents, written)
  {
  }

  /** A read against a cache of known provenance is a possible read of the state before. */
  lemma PossibleFrom(a: map<string, Option<File>>, b: map<string, Option<File>>, contents: map<string, seq<File>>,
                     now: map<string, seq<File>>, written: set<string>, path: string, r: Option<File>)
    requires CacheFrom(a, b, contents, written) && Possible(b, now, path, r) && path !in written
    requires FileAt(now, path) == FileAt(contents, path)
    ensures Possible(a, contents, path, r)
  {
  }

  /** How `run_module` ends: False from the language gate, True, or an exception. */
  datatype RunResult = GateClosed | Ran | Aborted

  class RepoLinter {
    var config: map<string, Value>
    const repository: Repository
    var errors: Sink
    var warnings: Sink
    var fixes: Sink
    /** Path to the file last fetched for it; `None` records that it was absent. */
    var filecache: map<string, Option<File>>

    /** `loaded` is what `load_config` returned, `{}` when it found nothing. */
    constructor (repository: Repository, loaded: map<string, Value>)
      ensures this.repository == repository && config == loaded
      ensures errors == [] && warnings == [] && fixes == [] && filecache == map[]
    {
      this.repository := repository;
      config := loaded;
      errors := [];
      warnings := [];
      fixes := [];
      filecache := map[];
    }

    /** `clear_file_cache`: true iff the path was cached; it no longer is. */
    method ClearFileCache(path: string) returns (was: bool)
      modifies this`filecache
      ensures was == (path in old(filecache))
      ensures filecache == old(filecache) - {path}
    {
      was := path in filecache;
      if was {
        filecache := filecache - {path};
      }
    }

    /**
     * `get_files`: the listing at `path`, None for a 404 or an empty answer,
     * or `Failed` when the API raises anything else.
     */
    method GetFiles(path: string) returns (r: Remote<Option<seq<File>>>)
      ensures r == Failed ||
              r == Ok(if path in repository.contents && repository.contents[path] != [] then Some(repository.contents[path]) else None)
    {
      var answer := repository.GetContents(path);
      match answer
      case ApiError => r := Failed;
      case NotFound => r := Ok(None);
      case Listing(items) => r := Ok(if items == [] then None else Some(items));
    }

    /** `get_file`: the first file of the listing, if any. */
    method GetFile(path: string) returns (r: Remote<Option<File>>)
      ensures r == Failed || r == Ok(FileAt(repository.contents, path))
    {
      var files := GetFiles(path);
      match files
      case Failed => r := Failed;
      case Ok(listing) => r := Ok(if listing.Some? then Some(listing.value[0]) else None);
    }

    /**
     * `cached_get_file`: a cached answer (an absent file included) is
     * returned without a fetch unless `clearCache` is set; otherwise the
     * path is fetched and the answer cached. A failed fetch returns None and
     * leaves the path uncached, so the next call fetches again.
     */
    method CachedGetFile(path: string, clearCache: bool) returns (r: Option<File>)
      modifies this`filecache
      ensures !clearCache && path in old(filecache) ==> r == old(filecache[path]) && filecache == old(filecache)
      ensures clearCache || path !in old(filecache) ==>
        (r == FileAt(repository.contents, path) && filecache == old(filecache)[path := r]) ||
        (r == None && filecache == old(filecache) - {path})
      ensures !clearCache ==> ReadAnswer(old(filecache), repository.contents, path, r)
      ensures CacheHolds(filecache, path, r) && filecache - {path} == old(filecache) - {path}
      ensures Possible(old(filecache), repository.contents, path, r)
      ensures CacheFrom(old(filecache), filecache, repository.contents, {})
    {
      if clearCache {
        var _ := ClearFileCache(path);
      } else if path in filecache {
        return filecache[path];
      }
      var fetched := GetFile(path);
      if fetched.Failed? {
        return None;
      }
      filecache := filecache[path := fetched.value];
      r := filecache[path];
    }

    /**
     * `create_or_update_file`: no write, and None, when the old file already
     * holds exactly `content`; otherwise one commit, against the old file's
     * sha or "" when there is none, returning the commit url.
     */
    method CreateOrUpdateFile(path: string, content: string, oldfile: Option<File>, message: Option<string>)
      returns (r: Option<string>)
      modifies repository`contents, repository`commits
      ensures oldfile.Some? && oldfile.value.content == content ==>
        r == None && repository.contents == old(repository.contents) && repository.commits == old(repository.commits)
      ensures !(oldfile.Some? && oldfile.value.content == content) ==>
        r.Some? &&
        repository.commits == old(repository.commits) +
          [Commit(path, CommitMessage(path, message), content, if oldfile.Some? then oldfile.value.sha else "")] &&
        exists sha :: repository.contents == old(repository.contents)[path := [File(path, path, content, sha)]]
    {
      var msg := CommitMessage(path, message);
      var blobsha := "";
      if oldfile.Some? {
        if oldfile.value.content == content {
          return None;
        }
        blobsha := oldfile.value.sha;
      }
      var result := repository.UpdateFile(path, msg, content, blobsha);
      r := Some(if result.CommitUrl? then result.url else UnknownCommitUrl);
    }

    /** `module_language_check` against the repository's languages. */
    method ModuleLanguageCheck(m: LintModule) returns (ok: bool)
      requires m.languages.Some?
      ensures ok == Languages.Applies(m.languages.value, repository.languages)
    {
      ok := Languages.ModuleLanguageCheck(m.languages.value, repository.languages);
    }

    /** `error`: files the message under its category in the errors sink only. */
    method Error(category: string, value: string)
      modifies this`errors
      ensures errors == Added(old(errors), category, value)
    {
      errors := Added(errors, category, value);
    }

    method Warning(category: string, value: string)
      modifies this`warnings
      ensures warnings == Added(old(warnings), category, value)
    {
      warnings := Added(warnings, category, value);
    }

    method Fix(category: string, value: string)
      modifies this`fixes
      ensures fixes == Added(old(fixes), category, value)
    {
      fixes := Added(fixes, category, value);
    }

    /** Records what one command call records, in its order within each sink. */
    method Perform(run: CommandRun)
      modifies this`errors, this`warnings, this`fixes
      ensures Results(errors, warnings, fixes) == Apply(old(Results(errors, warnings, fixes)), run)
    {
      errors := Record(errors, run.errors);
      warnings := Record(warnings, run.warnings);
      fixes := Record(fixes, run.fixes);
    }

    /** `load_module_config`; false where the merge raises. */
    method LoadModuleConfig(m: LintModule) returns (ok: bool)
      modifies this`config
      ensures Loaded(config, ok) == LintModules.LoadModuleConfig(old(config), m)
    {
      var loaded := LintModules.LoadModuleConfig(config, m);
      config := loaded.config;
      ok := loaded.ok;
    }

    /** `skip_on_archived`: true where it raises `SkipOnArchived`. */
    method SkipOnArchived() returns (skip: bool)
      ensures skip == repository.archived
    {
      skip := repository.archived;
    }

    /**
     * `run_module`: merge the module's defaults, apply the language gate,
     * then call the selected names in sorted order.
     */
    method RunModule(m: LintModule, filter: seq<string>, wildcard: Wildcard, doFixes: bool, commands: Commands)
      returns (result: RunResult, called: seq<string>)
      modifies this`config, this`errors, this`warnings, this`fixes
      ensures var loaded := LintModules.LoadModuleConfig(old(config), m);
        config == loaded.config &&
        (!loaded.ok ==> result == Aborted && called == []) &&
        (loaded.ok && Gated(m, repository.languages) ==> result == GateClosed && called == []) &&
        (loaded.ok && !Gated(m, repository.languages) ==>
           called == UntilStopped(RunPlan(m, filter, wildcard, doFixes), commands, false) &&
           result == (if called != [] && Stops(commands, false, called[|called| - 1]) then Aborted else Ran))
      ensures Results(errors, warnings, fixes) == ApplyAll(Results(old(errors), old(warnings), old(fixes)), called, commands)
    {
      var ok := LoadModuleConfig(m);
      if !ok {
        return Aborted, [];
      }
      if m.languages.Some? && "ALL" !in m.languages.value {
        var applies := ModuleLanguageCheck(m);
        if !applies {
          return GateClosed, [];
        }
      }
      result, called := RunSelected(m, filter, wildcard, doFixes, commands);
    }

    /** The part of `run_module` after both gates: select, sort and call. */
    method RunSelected(m: LintModule, filter: seq<string>, wildcard: Wildcard, doFixes: bool, commands: Commands)
      returns (result: RunResult, called: seq<string>)
      modifies this`errors, this`warnings, this`fixes
      ensures called == UntilStopped(RunPlan(m, filter, wildcard, doFixes), commands, false)
      ensures result == (if called != [] && Stops(commands, false, called[|called| - 1]) then Aborted else Ran)
      ensures Results(errors, warnings, fixes) == ApplyAll(Results(old(errors), old(warnings), old(fixes)), called, commands)
    {
      var filtered := GetFilteredCommands(m.members, filter, wildcard);
      var names := Sort(filtered);
      var raised;
      called, raised := CallAll(names, doFixes, commands);
      result := if raised then Aborted else Ran;
    }

    /**
     * The loop of `run_module` over sorted names. `SkipOnArchived` is
     * swallowed; any other exception ends the loop. The results are stored
     * when the loop ends: the commands of this model cannot observe the
     * sinks in between.
     */
    method CallAll(names: seq<string>, doFixes: bool, commands: Commands) returns (called: seq<string>, raised: bool)
      modifies this`errors, this`warnings, this`fixes
      ensures called == UntilStopped(Plan(names, doFixes), commands, false)
      ensures raised == (called != [] && Stops(commands, false, called[|called| - 1]))
      ensures Results(errors, warnings, fixes) == ApplyAll(Results(old(errors), old(warnings), old(fixes)), called, commands)
    {
      var results;
      called, raised, results := CallEach(names, doFixes, commands, false, Results(errors, warnings, fixes));
      errors, warnings, fixes := results.errors, results.warnings, results.fixes;
    }
  }
}
