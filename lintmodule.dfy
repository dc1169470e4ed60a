// What the dispatchers see of a check module (`dir(module)`, `LANGUAGES`,
// `DEFAULT_CONFIG`), and what running one of its commands leaves behind.
module LintModules {
  import opened Wrappers
  import opened Config
  import opened Sinks
  import opened Text
  import opened Filter

  /**
   * A module's `DEFAULT_CONFIG`: absent, a mapping, or (as in
   * branch_protection) a pydantic model object with the given field names.
   */
  datatype DefaultConfig = NoDefaultConfig | MappingDefault(value: Value) | ModelDefault(fields: seq<string>)

  /** `name` is the last dotted part of `module.__name__`; `members` is `dir(module)`. */
  datatype LintModule = LintModule(name: string, languages: Option<seq<string>>,
                                   defaultConfig: DefaultConfig, members: seq<string>)

  datatype Message = Message(category: string, text: string)

  /** How a command call ends: normally, by `SkipOnArchived`, or by any other exception. */
  datatype Signal = Completed | SkipOnArchived | Raised

  /** The results one command call records, and how it ends. */
  datatype CommandRun = CommandRun(errors: seq<Message>, warnings: seq<Message>, fixes: seq<Message>, signal: Signal)

  /** A call that records nothing and returns normally. */
  const Quiet := CommandRun([], [], [], Completed)

  /** The given texts as messages under one category, in order. */
  function Filed(category: string, texts: seq<string>): (r: seq<Message>)
    ensures |r| == |texts| && forall i :: 0 <= i < |texts| ==> r[i] == Message(category, texts[i])
  {
    seq(|texts|, i requires 0 <= i < |texts| => Message(category, texts[i]))
  }

  /**
   * The effect of calling each command of a module, by name; a name the map
   * lacks records nothing and returns normally.
   */
  type Commands = map<string, CommandRun>

  function RunOf(commands: Commands, name: string): CommandRun
  {
    if name in commands then commands[name] else CommandRun([], [], [], Completed)
  }

  /** Each message through `add_result`, in order. */
  function Record(s: Sink, messages: seq<Message>): Sink
    decreases |messages|
  {
    if messages == [] then s
    else Added(Record(s, messages[..|messages| - 1]), messages[|messages| - 1].category, messages[|messages| - 1].text)
  }

  /** The three sinks of a session. */
  datatype Results = Results(errors: Sink, warnings: Sink, fixes: Sink)

  function Apply(r: Results, run: CommandRun): Results
  {
    Results(Record(r.errors, run.errors), Record(r.warnings, run.warnings), Record(r.fixes, run.fixes))
  }

  /** The sinks after calling each of `called`, in order. */
  function ApplyAll(r: Results, called: seq<string>, commands: Commands): Results
    decreases |called|
  {
    if called == [] then r
    else Apply(ApplyAll(r, called[..|called| - 1], commands), RunOf(commands, called[|called| - 1]))
  }

  lemma ApplyAllSnoc(r: Results, called: seq<string>, name: string, commands: Commands)
    ensures ApplyAll(r, called + [name], commands) == Apply(ApplyAll(r, called, commands), RunOf(commands, name))
  {
    assert (called + [name])[..|called|] == called;
  }

  /**
   * The result of merging a module's defaults into the session config: the
   * module's entry is created as `{}` when missing, then `add_from_dict`
   * runs; `ok` is false where it raises.
   */
  datatype Loaded = Loaded(config: map<string, Value>, ok: bool)

  /** `load_module_config`. */
  function LoadModuleConfig(config: map<string, Value>, m: LintModule): (r: Loaded)
    ensures m.defaultConfig.NoDefaultConfig? ==> r == Loaded(config, true)
    ensures forall k :: k in config && k != m.name ==> k in r.config && r.config[k] == config[k]
    ensures r.config.Keys == config.Keys || (m.name !in config && r.config.Keys == config.Keys + {m.name})
  {
    match m.defaultConfig
    case NoDefaultConfig => Loaded(config, true)
    case MappingDefault(source) =>
      var dest := if m.name in config then config[m.name] else Dict(map[]);
      var merged := AddFromDict(source, dest);
      if merged.Some? then Loaded(config[m.name := merged.value], true)
      else Loaded(config[m.name := dest], false)
    case ModelDefault(fields) =>
      // Iterating a pydantic model yields (name, value) pairs, and indexing
      // the model with such a pair raises TypeError before anything is stored.
      var dest := if m.name in config then config[m.name] else Dict(map[]);
      Loaded(config[m.name := dest], fields == [])
  }

  /** A pydantic default with fields always makes the merge raise. */
  lemma ModelDefaultRaises(config: map<string, Value>, m: LintModule)
    requires m.defaultConfig.ModelDefault? && m.defaultConfig.fields != []
    ensures !LoadModuleConfig(config, m).ok
    ensures m.name !in config ==> LoadModuleConfig(config, m).config == config[m.name := Dict(map[])]
  {
  }

  /** Loading a mapping default twice leaves the config as loading it once. */
  lemma {:induction false} LoadModuleConfigIdempotent(config: map<string, Value>, m: LintModule)
    requires m.defaultConfig.MappingDefault? && LoadModuleConfig(config, m).ok
    ensures LoadModuleConfig(LoadModuleConfig(config, m).config, m) == LoadModuleConfig(config, m)
  {
    var source := m.defaultConfig.value;
    var dest := if m.name in config then config[m.name] else Dict(map[]);
    AddFromDictIdempotent(source, dest);
    var once := LoadModuleConfig(config, m).config;
    assert once[m.name] == AddFromDict(source, dest).value;
    assert once[m.name := AddFromDict(source, dest).value] == once;
  }

  // The calls `run_module` makes (github_linter/repolinter.py:294-309).

  /** The selection `get_filtered_commands` makes, as a function. */
  function Selected(checklist: seq<string>, filter: seq<string>, wildcard: Wildcard): seq<string>
  {
    if filter == [] then checklist else FilteredCommands(checklist, filter, wildcard)
  }

  /** The calls made for one name: a `check_` name always, a `fix_` name only with fixes on. */
  function Calls(name: string, doFixes: bool): seq<string>
  {
    (if StartsWith(name, "check_") then [name] else []) +
    (if doFixes && StartsWith(name, "fix_") then [name] else [])
  }

  /** The calls made for each name of `names`, in order. */
  function Plan(names: seq<string>, doFixes: bool): seq<string>
    decreases |names|
  {
    if names == [] then [] else Plan(names[..|names| - 1], doFixes) + Calls(names[|names| - 1], doFixes)
  }

  /** The calls of `run_module` once its two gates have passed. */
  function RunPlan(m: LintModule, filter: seq<string>, wildcard: Wildcard, doFixes: bool): seq<string>
  {
    Plan(Sort(Selected(m.members, filter, wildcard)), doFixes)
  }

  lemma NotBothPrefixes(name: string)
    ensures !(StartsWith(name, "check_") && StartsWith(name, "fix_"))
  {
    if StartsWith(name, "check_") {
      assert name[0] == name[..6][0] == 'c';
      assert name[..4][0] == 'c';
    }
  }

  /** A name is called exactly when it is listed and is a check, or a fix with fixes on. */
  lemma {:induction false} PlanMembers(names: seq<string>, doFixes: bool, x: string)
    ensures x in Plan(names, doFixes) <==>
      x in names && (StartsWith(x, "check_") || (doFixes && StartsWith(x, "fix_")))
    decreases |names|
  {
    if names != [] {
      var init := names[..|names| - 1];
      PlanMembers(init, doFixes, x);
      assert names == init + [names[|names| - 1]];
    }
  }

  lemma PlanStep(names: seq<string>, doFixes: bool, i: nat)
    requires i < |names|
    ensures Plan(names[..i + 1], doFixes) ==
      Plan(names[..i], doFixes) +
      (if StartsWith(names[i], "check_") || (doFixes && StartsWith(names[i], "fix_")) then [names[i]] else [])
  {
    assert names[..i + 1][..i] == names[..i];
    NotBothPrefixes(names[i]);
  }

  /** The calls of a prefix of the names are a prefix of the calls. */
  lemma {:induction false} PlanPrefix(names: seq<string>, doFixes: bool, i: nat)
    requires i <= |names|
    ensures Plan(names[..i], doFixes) <= Plan(names, doFixes)
    decreases |names| - i
  {
    if i < |names| {
      PlanPrefix(names, doFixes, i + 1);
      assert names[..i + 1][..i] == names[..i];
    } else {
      assert names[..i] == names;
    }
  }

  /** Calls made from a sorted list are made in sorted order. */
  lemma {:induction false} PlanSorted(names: seq<string>, doFixes: bool)
    requires Sorted(names)
    ensures Sorted(Plan(names, doFixes))
    decreases |names|
  {
    if names != [] {
      var init := names[..|names| - 1];
      var last := names[|names| - 1];
      assert Sorted(init);
      PlanSorted(init, doFixes);
      var p := Plan(init, doFixes);
      var r := Plan(names, doFixes);
      forall i, j | 0 <= i < j < |r| ensures LessEq(r[i], r[j]) {
        if j >= |p| {
          assert r[j] == last;
          if i < |p| {
            PlanMembers(init, doFixes, p[i]);
            var k :| 0 <= k < |init| && init[k] == p[i];
            assert LessEq(names[k], names[|names| - 1]);
          } else {
            LessEqTotal(last, last);
          }
        }
      }
    }
  }

  /** Every `check_` call comes before every `fix_` call. */
  lemma ChecksRunBeforeFixes(names: seq<string>, doFixes: bool, i: int, j: int)
    requires Sorted(names)
    requires 0 <= i < |Plan(names, doFixes)| && 0 <= j < |Plan(names, doFixes)|
    requires StartsWith(Plan(names, doFixes)[i], "check_") && StartsWith(Plan(names, doFixes)[j], "fix_")
    ensures i < j
  {
    PlanSorted(names, doFixes);
    ChecksSortBeforeFixes(Plan(names, doFixes), i, j);
  }

  /**
   * A call ends the run: any exception other than `SkipOnArchived` does,
   * and with `skipStops` (the older dispatcher, which catches nothing) so
   * does `SkipOnArchived`.
   */
  predicate Stops(commands: Commands, skipStops: bool, name: string)
  {
    RunOf(commands, name).signal == Raised || (skipStops && RunOf(commands, name).signal == SkipOnArchived)
  }

  /** A call that did not stop the run may be followed by another: no call before the last stops it. */
  lemma ClearSnoc(commands: Commands, skipStops: bool, called: seq<string>, next: string)
    requires forall k :: 0 <= k < |called| - 1 ==> !Stops(commands, skipStops, called[k])
    requires !(called != [] && Stops(commands, skipStops, called[|called| - 1]))
    ensures forall k :: 0 <= k < |called + [next]| - 1 ==> !Stops(commands, skipStops, (called + [next])[k])
  {
  }

  /** The calls actually made: the plan up to and including the first call that stops the run. */
  function UntilStopped(plan: seq<string>, commands: Commands, skipStops: bool): (r: seq<string>)
    ensures r <= plan
    ensures forall i :: 0 <= i < |r| - 1 ==> !Stops(commands, skipStops, r[i])
    ensures r == plan || (r != [] && Stops(commands, skipStops, r[|r| - 1]))
  {
    if plan == [] then []
    else if Stops(commands, skipStops, plan[0]) then [plan[0]]
    else [plan[0]] + UntilStopped(plan[1..], commands, skipStops)
  }

  /** When no call stops the run, every planned call is made. */
  lemma UntilStoppedAll(plan: seq<string>, commands: Commands, skipStops: bool)
    requires forall i :: 0 <= i < |plan| ==> !Stops(commands, skipStops, plan[i])
    ensures UntilStopped(plan, commands, skipStops) == plan
  {
  }

  /** The first call that stops the run is the last one made. */
  lemma {:induction false} UntilStoppedAt(plan: seq<string>, p: seq<string>, x: string, commands: Commands, skipStops: bool)
    requires p + [x] <= plan
    requires forall i :: 0 <= i < |p| ==> !Stops(commands, skipStops, p[i])
    requires Stops(commands, skipStops, x)
    ensures UntilStopped(plan, commands, skipStops) == p + [x]
    decreases |p|
  {
    if p != [] {
      assert plan[0] == p[0];
      assert p[1..] + [x] <= plan[1..];
      UntilStoppedAt(plan[1..], p[1..], x, commands, skipStops);
    }
  }

  /** No call after one that stops the run is made. */
  lemma UntilStoppedBy(plan: seq<string>, commands: Commands, skipStops: bool, i: nat)
    requires i < |plan| && Stops(commands, skipStops, plan[i])
    ensures |UntilStopped(plan, commands, skipStops)| <= i + 1
  {
    var r := UntilStopped(plan, commands, skipStops);
    assert i < |r| ==> r[i] == plan[i];
  }
  /** In a sorted plan, no name sorting after one that stops the run is called. */
  lemma SortedStopHidesLater(plan: seq<string>, commands: Commands, skipStops: bool, stopper: string, w: string)
    requires Sorted(plan) && stopper in plan && Stops(commands, skipStops, stopper) && !LessEq(w, stopper)
    ensures w !in UntilStopped(plan, commands, skipStops)
  {
    var i :| 0 <= i < |plan| && plan[i] == stopper;
    SortedNoneBefore(plan, i, w);
    UntilStoppedBy(plan, commands, skipStops, i);
    assert UntilStopped(plan, commands, skipStops) <= plan[..i + 1];
  }


  /** The calls of the names up to the first that stops the run are the calls actually made. */
  lemma UntilStoppedOfPlan(names: seq<string>, doFixes: bool, i: nat, p: seq<string>, raised: bool, commands: Commands, skipStops: bool)
    requires i <= |names| && p == Plan(names[..i], doFixes)
    requires forall k :: 0 <= k < |p| - 1 ==> !Stops(commands, skipStops, p[k])
    requires raised == (p != [] && Stops(commands, skipStops, p[|p| - 1]))
    requires !raised ==> i == |names|
    ensures UntilStopped(Plan(names, doFixes), commands, skipStops) == p
  {
    PlanPrefix(names, doFixes, i);
    if raised {
      assert p[..|p| - 1] + [p[|p| - 1]] == p;
      UntilStoppedAt(Plan(names, doFixes), p[..|p| - 1], p[|p| - 1], commands, skipStops);
    } else {
      assert names[..i] == names;
      UntilStoppedAll(p, commands, skipStops);
    }
  }

  /** One name of the loop: the calls so far grow by that name exactly when it is called, and none but the last stops the run. */
  lemma CallStep(names: seq<string>, doFixes: bool, commands: Commands, skipStops: bool, i: nat, called: seq<string>)
    requires i < |names| && called == Plan(names[..i], doFixes)
    requires forall k :: 0 <= k < |called| - 1 ==> !Stops(commands, skipStops, called[k])
    requires !(called != [] && Stops(commands, skipStops, called[|called| - 1]))
    ensures var next := if StartsWith(names[i], "check_") || (doFixes && StartsWith(names[i], "fix_")) then called + [names[i]] else called;
      next == Plan(names[..i + 1], doFixes) && forall k :: 0 <= k < |next| - 1 ==> !Stops(commands, skipStops, next[k])
  {
    PlanStep(names, doFixes, i);
    ClearSnoc(commands, skipStops, called, names[i]);
  }

  /**
   * The loop over sorted names shared by both dispatchers: a `check_` name
   * is always called, a `fix_` name only with `doFixes` (no name is both),
   * until a call stops the run. Results are gathered from `start`.
   */
  method CallEach(names: seq<string>, doFixes: bool, commands: Commands, skipStops: bool, start: Results)
    returns (called: seq<string>, raised: bool, results: Results)
    ensures called == UntilStopped(Plan(names, doFixes), commands, skipStops)
    ensures raised == (called != [] && Stops(commands, skipStops, called[|called| - 1]))
    ensures results == ApplyAll(start, called, commands)
  {
    results := start;
    called, raised := [], false;
    var i := 0;
    assert names[..0] == [];
    while i < |names| && !raised
      invariant 0 <= i <= |names|
      invariant called == Plan(names[..i], doFixes)
      invariant forall k :: 0 <= k < |called| - 1 ==> !Stops(commands, skipStops, called[k])
      invariant raised == (called != [] && Stops(commands, skipStops, called[|called| - 1]))
      invariant results == ApplyAll(start, called, commands)
    {
      var check := names[i];
      CallStep(names, doFixes, commands, skipStops, i, called);
      ghost var next := if StartsWith(check, "check_") || (doFixes && StartsWith(check, "fix_")) then called + [check] else called;
      if StartsWith(check, "check_") || (doFixes && StartsWith(check, "fix_")) {
        ApplyAllSnoc(start, called, check, commands);
        results := Apply(results, RunOf(commands, check));
        called := called + [check];
        raised := Stops(commands, skipStops, check);
      }
      assert called == next == Plan(names[..i + 1], doFixes);
      i := i + 1;
    }
    UntilStoppedOfPlan(names, doFixes, i, called, raised, commands, skipStops);
  }
}
