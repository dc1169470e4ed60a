// The top-level driver `GithubLinter` (github_linter/__init__.py:44-201): the
// module registry, the per-repository report, the rate-limit wait and the
// report printout.
module GithubLinters {
  import opened Wrappers
  import opened PyDict
  import opened Sinks
  import opened Config
  import opened Github
  import opened LintModules
  import LegacySession
  import Session

  // Rate limits.

  /** One limiter of `get_rate_limit()`: calls left, and its reset time minus now, in whole seconds. */
  datatype RateLimit = RateLimit(remaining: int, resetIn: int)

  /** `RATELIMIT_TYPES`, in its order: each limiter's name and floor. */
  const RateLimitTypes: seq<(string, int)> := [("core", 50), ("graphql", 5), ("search", 1)]

  /** `timedelta.seconds`: the seconds part of a normalised timedelta, whose days part may be negative. */
  function TimedeltaSeconds(delta: int): (r: nat)
    ensures r < 86400
    ensures 0 <= delta < 86400 ==> r == delta
  {
    delta % 86400
  }

  /** A limiter is waited for when it is present and at or below its floor. */
  predicate Triggered(limits: map<string, RateLimit>, t: (string, int))
  {
    t.0 in limits && t.1 >= limits[t.0].remaining
  }

  /** The sleep `check_rate_limits` settles on: the largest wait among the triggered limiters, or 0. */
  function SleepFor(limits: map<string, RateLimit>, types: seq<(string, int)>, wait: int -> nat): nat
    decreases |types|
  {
    if types == [] then 0
    else
      var prior := SleepFor(limits, types[..|types| - 1], wait);
      var t := types[|types| - 1];
      if Triggered(limits, t) && wait(limits[t.0].resetIn) > prior then wait(limits[t.0].resetIn) else prior
  }

  /** The sleep bounds every triggered limiter's wait and is one of them, or 0. */
  lemma {:induction false} SleepForIsMax(limits: map<string, RateLimit>, types: seq<(string, int)>, wait: int -> nat)
    ensures forall i :: 0 <= i < |types| && Triggered(limits, types[i]) ==>
      wait(limits[types[i].0].resetIn) <= SleepFor(limits, types, wait)
    ensures SleepFor(limits, types, wait) == 0 ||
      exists i :: 0 <= i < |types| && Triggered(limits, types[i]) && wait(limits[types[i].0].resetIn) == SleepFor(limits, types, wait)
    decreases |types|
  {
    if types != [] {
      var init := types[..|types| - 1];
      SleepForIsMax(limits, init, wait);
      var prior := SleepFor(limits, init, wait);
      if SleepFor(limits, types, wait) == prior && prior != 0 {
        var i :| 0 <= i < |init| && Triggered(limits, init[i]) && wait(limits[init[i].0].resetIn) == prior;
        assert types[i] == init[i];
      }
      forall i | 0 <= i < |types| && Triggered(limits, types[i])
        ensures wait(limits[types[i].0].resetIn) <= SleepFor(limits, types, wait)
      {
        if i < |init| {
          assert types[i] == init[i];
        }
      }
    }
  }

  /** No limiter at or below its floor means no wait. */
  lemma {:induction false} SleepForUntriggered(limits: map<string, RateLimit>, types: seq<(string, int)>, wait: int -> nat)
    requires forall i :: 0 <= i < |types| ==> !Triggered(limits, types[i])
    ensures SleepFor(limits, types, wait) == 0
  {
    SleepForIsMax(limits, types, wait);
  }

  /**
   * `check_rate_limits`, over the limiters `get_rate_limit()` returned: each
   * wait is `(reset - now).seconds`, as written.
   */
  method CheckRateLimits(limits: map<string, RateLimit>) returns (sleepTime: nat)
    ensures sleepTime == SleepFor(limits, RateLimitTypes, TimedeltaSeconds)
  {
    sleepTime := 0;
    var i := 0;
    while i < |RateLimitTypes|
      invariant 0 <= i <= |RateLimitTypes|
      invariant sleepTime == SleepFor(limits, RateLimitTypes[..i], TimedeltaSeconds)
    {
      var (rateType, minlimit) := RateLimitTypes[i];
      assert RateLimitTypes[..i + 1][..i] == RateLimitTypes[..i];
      if rateType in limits {
        var remaining := limits[rateType].remaining;
        if minlimit >= remaining {
          var waitTime := TimedeltaSeconds(limits[rateType].resetIn);
          if waitTime > sleepTime {
            sleepTime := waitTime;
          }
        }
      }
      i := i + 1;
    }
    assert RateLimitTypes[..i] == RateLimitTypes;
  }

  /** A core limit that was exhausted and reset ten seconds ago makes the driver sleep almost a day. */
  lemma SleepAfterPassedReset()
    ensures SleepFor(map["core" := RateLimit(0, -10)], RateLimitTypes, TimedeltaSeconds) == 86390
  {
    var limits := map["core" := RateLimit(0, -10)];
    assert RateLimitTypes[..1] == [("core", 50)];
    assert RateLimitTypes[..2] == RateLimitTypes[..1] + [("graphql", 5)];
    assert RateLimitTypes[..2][..1] == RateLimitTypes[..1];
    assert [("core", 50)][..0] == [];
  }

  /** The wait evidently intended: the whole time until the reset, none once it has passed. */
  function UntilReset(delta: int): (r: nat)
    ensures delta <= 0 ==> r == 0
    ensures delta > 0 ==> r == delta
  {
    if delta < 0 then 0 else delta
  }

  /** With the intended wait, the driver never sleeps past the latest reset of a triggered limiter. */
  lemma IntendedSleepBounded(limits: map<string, RateLimit>, types: seq<(string, int)>)
    ensures forall i :: 0 <= i < |types| && Triggered(limits, types[i]) ==>
      UntilReset(limits[types[i].0].resetIn) <= SleepFor(limits, types, UntilReset)
    ensures SleepFor(limits, types, UntilReset) == 0 ||
      exists i :: 0 <= i < |types| && Triggered(limits, types[i]) &&
                  SleepFor(limits, types, UntilReset) == limits[types[i].0].resetIn
  {
    SleepForIsMax(limits, types, UntilReset);
  }

  /** With the intended wait, a passed reset means no sleep. */
  lemma IntendedSleepAfterPassedReset()
    ensures SleepFor(map["core" := RateLimit(0, -10)], RateLimitTypes, UntilReset) == 0
  {
    var limits := map["core" := RateLimit(0, -10)];
    forall i | 0 <= i < |RateLimitTypes| && Triggered(limits, RateLimitTypes[i])
      ensures UntilReset(limits[RateLimitTypes[i].0].resetIn) == 0
    {
    }
    IntendedSleepBounded(limits, RateLimitTypes);
  }

  // The report.

  /** What `handle_repo` stores under a repository's full name. */
  datatype RepoReport = RepoReport(errors: Sink, warnings: Sink)

  datatype LogLine = Info(text: string) | ErrorLine(text: string) | WarningLine(text: string)

  /** `f"{category} - {message}"` for each message of one category. */
  function CategoryLines(category: string, messages: seq<string>): (r: seq<string>)
    ensures |r| == |messages|
    ensures forall j :: 0 <= j < |messages| ==> r[j] == category + " - " + messages[j]
  {
    seq(|messages|, j requires 0 <= j < |messages| => category + " - " + messages[j])
  }

  /** The lines for every message of a sink, category by category. */
  function SinkLines(s: Sink): seq<string>
    decreases |s|
  {
    if s == [] then [] else SinkLines(s[..|s| - 1]) + CategoryLines(s[|s| - 1].key, s[|s| - 1].value)
  }

  /** A sink prints no line exactly when every category's list is empty. */
  lemma {:induction false} SinkLinesEmpty(s: Sink)
    ensures SinkLines(s) == [] <==> forall i :: 0 <= i < |s| ==> s[i].value == []
    decreases |s|
  {
    if s != [] {
      SinkLinesEmpty(s[..|s| - 1]);
      assert forall i :: 0 <= i < |s| - 1 ==> s[..|s| - 1][i] == s[i];
    }
  }

  /** Every message of every category is printed. */
  lemma {:induction false} SinkLinesHasMessage(s: Sink, i: nat, j: nat)
    requires i < |s| && j < |s[i].value|
    ensures s[i].key + " - " + s[i].value[j] in SinkLines(s)
    decreases |s|
  {
    if i < |s| - 1 {
      SinkLinesHasMessage(s[..|s| - 1], i, j);
    } else {
      assert CategoryLines(s[i].key, s[i].value)[j] == s[i].key + " - " + s[i].value[j];
    }
  }

  function ErrorLines(lines: seq<string>): (r: seq<LogLine>)
    ensures |r| == |lines| && forall i :: 0 <= i < |lines| ==> r[i] == ErrorLine(lines[i])
  {
    seq(|lines|, i requires 0 <= i < |lines| => ErrorLine(lines[i]))
  }

  function WarningLines(lines: seq<string>): (r: seq<LogLine>)
    ensures |r| == |lines| && forall i :: 0 <= i < |lines| ==> r[i] == WarningLine(lines[i])
  {
    seq(|lines|, i requires 0 <= i < |lines| => WarningLine(lines[i]))
  }

  /** What `display_report` logs for one repository. */
  function ReportLines(name: string, r: RepoReport): seq<LogLine>
  {
    var errors := SinkLines(r.errors);
    var warnings := SinkLines(r.warnings);
    if errors != [] || warnings != [] then
      [Info("Report for " + name)] + ErrorLines(errors) + WarningLines(warnings)
    else
      [Info("Repository " + name + " checks out OK")]
  }

  /**
   * A repository "checks out OK" exactly when none of its categories holds
   * an error or a warning; otherwise one line per error and per warning
   * follows the heading.
   */
  lemma ReportLinesOk(name: string, r: RepoReport)
    ensures ReportLines(name, r) == [Info("Repository " + name + " checks out OK")] <==>
      (forall i :: 0 <= i < |r.errors| ==> r.errors[i].value == []) &&
      (forall i :: 0 <= i < |r.warnings| ==> r.warnings[i].value == [])
    ensures |ReportLines(name, r)| ==
      if SinkLines(r.errors) == [] && SinkLines(r.warnings) == [] then 1
      else 1 + |SinkLines(r.errors)| + |SinkLines(r.warnings)|
  {
    SinkLinesEmpty(r.errors);
    SinkLinesEmpty(r.warnings);
  }

  /** The lines for every repository of the report, in insertion order. */
  function AllReportLines(report: Dict<RepoReport>): seq<LogLine>
    decreases |report|
  {
    if report == [] then []
    else AllReportLines(report[..|report| - 1]) + ReportLines(report[|report| - 1].key, report[|report| - 1].value)
  }

  /** The cache map of the repository named `key`; a repository not seen yet has none. */
  function RepoCache(filecache: map<string, map<string, Option<File>>>, key: string): map<string, Option<File>>
  {
    if key in filecache then filecache[key] else map[]
  }

  /**
   * What a read through the older cache may answer, given the repository's
   * cache as a command found it: a failure, the remote file, or the entry
   * cached before.
   */
  predicate OlderPossible(before: map<string, Option<File>>, contents: map<string, seq<File>>, path: string, r: Remote<Option<File>>)
  {
    r == Failed || r == Ok(FileAt(contents, path)) || (path in before && r == Ok(before[path]))
  }

  /** A read against a repository cache of known provenance is a possible read of the cache before. */
  lemma OlderPossibleFrom(a: map<string, Option<File>>, b: map<string, Option<File>>, contents: map<string, seq<File>>,
                          path: string, r: Remote<Option<File>>)
    requires Session.CacheFrom(a, b, contents, {}) && OlderPossible(b, contents, path, r)
    ensures OlderPossible(a, contents, path, r)
  {
  }

  /** One read through a repository's cache keeps its provenance: the answer is possible and every entry is kept or fetched. */
  lemma OlderReadFacts(before: map<string, Option<File>>, contents: map<string, seq<File>>, path: string,
                       r: Remote<Option<File>>, after: map<string, Option<File>>)
    requires path in before ==> r == Ok(before[path]) && after == before
    requires path !in before ==>
      (r == Failed && after == before) || (r == Ok(FileAt(contents, path)) && after == before[path := FileAt(contents, path)])
    ensures OlderPossible(before, contents, path, r) && Session.CacheFrom(before, after, contents, {})
  {
  }

  // The module runs of `handle_repo`.

  /** The effects of the commands of the module registered as `name`; an unknown name has none. */
  function ModuleCommands(commands: map<string, Commands>, name: string): Commands
  {
    if name in commands then commands[name] else map[]
  }

  /** The calls one older `run_module` makes: none behind a closed gate, else its plan up to the first raise. */
  function ModuleCalls(m: LintModule, filter: seq<string>, commands: Commands, repoLanguages: seq<string>): seq<string>
  {
    if LegacySession.Gated(m, repoLanguages) then [] else UntilStopped(LegacySession.LegacyPlan(m, filter), commands, true)
  }

  /** One older `run_module` raises: its last call raised (`SkipOnArchived` included). */
  predicate ModuleAborts(m: LintModule, filter: seq<string>, commands: Commands, repoLanguages: seq<string>)
  {
    var called := ModuleCalls(m, filter, commands, repoLanguages);
    called != [] && Stops(commands, true, called[|called| - 1])
  }

  /** The session's sinks after a stretch of registered modules, and whether one of them raised. */
  datatype Progress = Progress(results: Results, aborted: bool)

  /**
   * The modules of `handle_repo`'s loop run in registration order against
   * one session; the first module that raises ends the loop, and with it
   * `handle_repo`.
   */
  function ModulesRun(start: Results, modules: Dict<LintModule>, filter: seq<string>,
                      commands: map<string, Commands>, repoLanguages: seq<string>): Progress
    decreases |modules|
  {
    if modules == [] then Progress(start, false)
    else
      var prior := ModulesRun(start, modules[..|modules| - 1], filter, commands, repoLanguages);
      var last := modules[|modules| - 1];
      var cmds := ModuleCommands(commands, last.key);
      if prior.aborted then prior
      else
        Progress(ApplyAll(Results(prior.results.errors, prior.results.warnings, []),
                          ModuleCalls(last.value, filter, cmds, repoLanguages), cmds),
                 ModuleAborts(last.value, filter, cmds, repoLanguages))
  }

  /** `handle_repo` stops exactly when some registered module's run raises. */
  lemma {:induction false} ModulesRunAborted(start: Results, modules: Dict<LintModule>, filter: seq<string>,
                                             commands: map<string, Commands>, repoLanguages: seq<string>)
    ensures ModulesRun(start, modules, filter, commands, repoLanguages).aborted <==>
      exists i :: 0 <= i < |modules| &&
        ModuleAborts(modules[i].value, filter, ModuleCommands(commands, modules[i].key), repoLanguages)
    decreases |modules|
  {
    if modules != [] {
      var init := modules[..|modules| - 1];
      var last := modules[|modules| - 1];
      ModulesRunAborted(start, init, filter, commands, repoLanguages);
      var prior := ModulesRun(start, init, filter, commands, repoLanguages);
      var here := ModuleAborts(last.value, filter, ModuleCommands(commands, last.key), repoLanguages);
      assert ModulesRun(start, modules, filter, commands, repoLanguages).aborted == (prior.aborted || here);
      if prior.aborted {
        var i :| 0 <= i < |init| && ModuleAborts(init[i].value, filter, ModuleCommands(commands, init[i].key), repoLanguages);
        assert modules[i] == init[i];
      } else if !here {
        forall i | 0 <= i < |modules|
          ensures !ModuleAborts(modules[i].value, filter, ModuleCommands(commands, modules[i].key), repoLanguages)
        {
          if i < |init| {
            assert modules[i] == init[i];
          }
        }
      }
    }
  }

  /** One more module after a stretch that did not raise. */
  lemma ModulesRunSnoc(start: Results, done: Dict<LintModule>, entry: Entry<LintModule>, filter: seq<string>,
                       commands: map<string, Commands>, repoLanguages: seq<string>)
    requires !ModulesRun(start, done, filter, commands, repoLanguages).aborted
    ensures var prior := ModulesRun(start, done, filter, commands, repoLanguages).results;
      var cmds := ModuleCommands(commands, entry.key);
      ModulesRun(start, done + [entry], filter, commands, repoLanguages) ==
        Progress(ApplyAll(Results(prior.errors, prior.warnings, []), ModuleCalls(entry.value, filter, cmds, repoLanguages), cmds),
                 ModuleAborts(entry.value, filter, cmds, repoLanguages))
  {
    assert (done + [entry])[..|done|] == done;
  }

  /** Once a module has raised, the modules registered after it change nothing. */
  lemma {:induction false} ModulesRunStopped(start: Results, done: Dict<LintModule>, rest: Dict<LintModule>, filter: seq<string>,
                                             commands: map<string, Commands>, repoLanguages: seq<string>)
    requires ModulesRun(start, done, filter, commands, repoLanguages).aborted
    ensures ModulesRun(start, done + rest, filter, commands, repoLanguages) == ModulesRun(start, done, filter, commands, repoLanguages)
    decreases |rest|
  {
    if rest != [] {
      var init := rest[..|rest| - 1];
      ModulesRunStopped(start, done, init, filter, commands, repoLanguages);
      assert (done + rest)[..|done + rest| - 1] == done + init;
    } else {
      assert done + rest == done;
    }
  }

  /** A loop over the modules that ran them all, or stopped at a raise, has the outcome of running all of them. */
  lemma ModulesRunEnded(start: Results, modules: Dict<LintModule>, i: nat, filter: seq<string>,
                        commands: map<string, Commands>, repoLanguages: seq<string>)
    requires i <= |modules|
    requires i == |modules| || ModulesRun(start, modules[..i], filter, commands, repoLanguages).aborted
    ensures ModulesRun(start, modules, filter, commands, repoLanguages) == ModulesRun(start, modules[..i], filter, commands, repoLanguages)
  {
    if i < |modules| {
      assert modules[..i] + modules[i..] == modules;
      ModulesRunStopped(start, modules[..i], modules[i..], filter, commands, repoLanguages);
    } else {
      assert modules[..i] == modules;
    }
  }

  /** Calls that record no error and no warning leave those sinks as they were. */
  lemma {:induction false} ApplyAllSilent(r: Results, called: seq<string>, commands: Commands)
    requires forall name :: name in commands ==> commands[name].errors == [] && commands[name].warnings == []
    ensures ApplyAll(r, called, commands).errors == r.errors
    ensures ApplyAll(r, called, commands).warnings == r.warnings
    decreases |called|
  {
    if called != [] {
      ApplyAllSilent(r, called[..|called| - 1], commands);
    }
  }

  /**
   * When no registered command records an error or a warning, the
   * repository's report holds the sinks it started with: a fresh session
   * "checks out OK".
   */
  lemma {:induction false} ModulesRunSilent(start: Results, modules: Dict<LintModule>, filter: seq<string>,
                                            commands: map<string, Commands>, repoLanguages: seq<string>)
    requires forall key, name :: key in commands && name in commands[key] ==>
      commands[key][name].errors == [] && commands[key][name].warnings == []
    ensures ModulesRun(start, modules, filter, commands, repoLanguages).results.errors == start.errors
    ensures ModulesRun(start, modules, filter, commands, repoLanguages).results.warnings == start.warnings
    decreases |modules|
  {
    if modules != [] {
      var init := modules[..|modules| - 1];
      ModulesRunSilent(start, init, filter, commands, repoLanguages);
      var prior := ModulesRun(start, init, filter, commands, repoLanguages);
      var last := modules[|modules| - 1];
      var cmds := ModuleCommands(commands, last.key);
      ApplyAllSilent(Results(prior.results.errors, prior.results.warnings, []),
                     ModuleCalls(last.value, filter, cmds, repoLanguages), cmds);
    }
  }

  /** The session holds the sinks of a stretch of module runs, and `aborted` says whether one of them raised. */
  ghost predicate Holds(linter: LegacySession.RepoLinter, run: Progress, aborted: bool)
    reads linter
  {
    aborted == run.aborted && linter.errors == run.results.errors && linter.warnings == run.results.warnings
  }

  /**
   * The older `run_module` of the module registered at position `i`, after
   * the modules before it ran without raising; the sinks and the answer
   * follow `ModulesRun` over one more module.
   */
  method RunRegistered(linter: LegacySession.RepoLinter, modules: Dict<LintModule>, i: nat,
                       filter: seq<string>, commands: map<string, Commands>)
    returns (aborted: bool)
    requires i < |modules|
    requires Holds(linter, ModulesRun(Results([], [], []), modules[..i], filter, commands, linter.repository.languages), false)
    modifies linter`errors, linter`warnings
    ensures Holds(linter, ModulesRun(Results([], [], []), modules[..i + 1], filter, commands, linter.repository.languages), aborted)
  {
    assert modules[..i + 1] == modules[..i] + [modules[i]];
    ModulesRunSnoc(Results([], [], []), modules[..i], modules[i], filter, commands, linter.repository.languages);
    var result, called := linter.RunModule(modules[i].value, filter, ModuleCommands(commands, modules[i].key));
    aborted := result == LegacySession.Aborted;
  }

  /** The loop of `handle_repo`: each registered module in order, until one raises. */
  method RunModules(linter: LegacySession.RepoLinter, modules: Dict<LintModule>, filter: seq<string>,
                    commands: map<string, Commands>)
    returns (aborted: bool)
    requires linter.errors == [] && linter.warnings == []
    modifies linter`errors, linter`warnings
    ensures Holds(linter, ModulesRun(Results([], [], []), modules, filter, commands, linter.repository.languages), aborted)
  {
    aborted := false;
    var i := 0;
    assert modules[..0] == [];
    while i < |modules| && !aborted
      invariant i <= |modules|
      invariant Holds(linter, ModulesRun(Results([], [], []), modules[..i], filter, commands, linter.repository.languages), aborted)
    {
      aborted := RunRegistered(linter, modules, i, filter, commands);
      i := i + 1;
    }
    ModulesRunEnded(Results([], [], []), modules, i, filter, commands, linter.repository.languages);
  }

  class GithubLinter {
    var config: map<string, Value>
    var currentRepo: Option<Repository>
    var report: Dict<RepoReport>
    var modules: Dict<LintModule>
    /** Per repository full name, the answers of earlier reads by path. */
    var filecache: map<string, map<string, Option<File>>>

    /** `loaded` is what `load_config` returned; the login is not modelled. */
    constructor (loaded: map<string, Value>)
      ensures config == loaded && currentRepo == None && report == [] && modules == [] && filecache == map[]
    {
      config := loaded;
      currentRepo := None;
      report := [];
      modules := [];
      filecache := map[];
    }

    /**
     * The `cached_get_file` that the older check modules call on this
     * object (kept in the source only as a comment): no current repository
     * raises `RepositoryNotSet`; otherwise the repository's own cache map is
     * created when missing, and a path is fetched once, with no
     * invalidation. The fetch answers the first file of the listing, None
     * for a 404, and raises on any other API failure, caching nothing.
     */
    method CachedGetFile(path: string) returns (r: Remote<Option<File>>)
      modifies this`filecache
      ensures currentRepo.None? ==> r == Failed && filecache == old(filecache)
      ensures currentRepo.Some? ==>
        var key := currentRepo.value.fullName;
        var before := if key in old(filecache) then old(filecache)[key] else map[];
        (path in before ==> r == Ok(before[path]) && filecache == old(filecache)[key := before]) &&
        (path !in before ==>
           (r == Failed && filecache == old(filecache)[key := before]) ||
           (r == Ok(FileAt(currentRepo.value.contents, path)) &&
            filecache == old(filecache)[key := before[path := FileAt(currentRepo.value.contents, path)]]))
      ensures currentRepo.Some? ==>
        var key := currentRepo.value.fullName;
        OlderPossible(RepoCache(old(filecache), key), currentRepo.value.contents, path, r) &&
        Session.CacheFrom(RepoCache(old(filecache), key), RepoCache(filecache, key), currentRepo.value.contents, {}) &&
        key in filecache && filecache - {key} == old(filecache) - {key}
    {
      if currentRepo.None? {
        return Failed;
      }
      var repo := currentRepo.value;
      var repoCache := RepoCache(filecache, repo.fullName);
      var after;
      if path in repoCache {
        r, after := Ok(repoCache[path]), repoCache;
      } else {
        var answer := repo.GetContents(path);
        match answer {
          case ApiError => r := Failed;
          case NotFound => r := Ok(None);
          case Listing(items) => r := Ok(if items == [] then None else Some(items[0]));
        }
        after := if r.Ok? then repoCache[path := r.value] else repoCache;
      }
      filecache := filecache[repo.fullName := after];
      OlderReadFacts(repoCache, repo.contents, path, r, after);
    }

    /** `add_module`: registering a name again replaces its module in place. */
    method AddModule(name: string, m: LintModule)
      modifies this`modules
      ensures modules == Put(old(modules), name, m)
    {
      modules := Put(modules, name, m);
    }

    /** `display_report`: the lines it logs, repository by repository. */
    method DisplayReport() returns (log: seq<LogLine>)
      ensures log == AllReportLines(report)
    {
      var entries := report;
      log := [];
      var i := 0;
      while i < |entries|
        invariant 0 <= i <= |entries|
        invariant log == AllReportLines(entries[..i])
      {
        assert entries[..i + 1][..i] == entries[..i];
        log := log + ReportLines(entries[i].key, entries[i].value);
        i := i + 1;
      }
      assert entries[..i] == entries;
    }

    /**
     * `handle_repo`: a fresh older session, holding `loaded` (what its own
     * `load_config` call returned), runs every registered module in
     * registration order; `commands` gives each module's command effects by
     * its registered name. The session's sinks are those `ModulesRun`
     * computes. When every run returns, its errors and warnings replace any
     * earlier report for the repository and the rate-limit wait is computed
     * as `check_rate_limits` does; an exception from a run leaves the report
     * as it was.
     */
    method HandleRepo(repo: Repository, filter: seq<string>, loaded: map<string, Value>,
                      commands: map<string, Commands>, limits: map<string, RateLimit>)
      returns (ok: bool, sleep: nat, linter: LegacySession.RepoLinter)
      modifies this`currentRepo, this`report
      ensures fresh(linter) && linter.repository == repo && linter.config == loaded
      ensures currentRepo == Some(repo)
      ensures var run := ModulesRun(Results([], [], []), modules, filter, commands, repo.languages);
        ok == !run.aborted && linter.errors == run.results.errors && linter.warnings == run.results.warnings
      ensures ok ==> report == Put(old(report), repo.fullName, RepoReport(linter.errors, linter.warnings))
      ensures ok ==> sleep == SleepFor(limits, RateLimitTypes, TimedeltaSeconds)
      ensures !ok ==> report == old(report)
    {
      linter := new LegacySession.RepoLinter(repo, loaded);
      currentRepo := Some(repo);
      var aborted := RunModules(linter, modules, filter, commands);
      if aborted {
        return false, 0, linter;
      }
      report := Put(report, repo.fullName, RepoReport(linter.errors, linter.warnings));
      ok := true;
      sleep := CheckRateLimits(limits);
    }
  }
}
