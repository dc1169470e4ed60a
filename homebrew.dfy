// The homebrew file check (github_linter/tests/homebrew.py): both update
// helpers of a tap must exist.
module Homebrew {
  import opened Wrappers
  import opened Text
  import opened Github
  import opened LintModules
  import Session

  const Category := "homebrew"

  /** The files `check_update_files_exist` looks for, in its order. */
  const UpdateFiles: seq<string> := ["homebrew_check_latest_release.sh", ".github/workflows/homebrew_check_updates.yml"]

  const Members: seq<string> := ["CATEGORY", "LANGUAGES", "RepoLinter", "check_update_files_exist"]

  const Module := LintModule(Category, Some(["Ruby"]), NoDefaultConfig, Members)

  function MissingFile(path: string): (r: string)
    ensures Contains(r, path)
  {
    var prefix := "Missing homebrew file file: ";
    assert (prefix + path)[|prefix|..|prefix| + |path|] == path;
    ContainsPrefixOfSuffix(prefix + path, path, |prefix|);
    prefix + path
  }

  /** The paths whose read answered nothing, in order. */
  function MissingPaths(paths: seq<string>, answers: seq<Option<File>>): (r: seq<string>)
    requires |answers| == |paths|
    ensures |r| <= |paths|
    ensures r == [] <==> forall i :: 0 <= i < |paths| ==> answers[i].Some?
    ensures forall j :: 0 <= j < |r| ==> exists i :: 0 <= i < |paths| && paths[i] == r[j] && answers[i].None?
    ensures forall i :: 0 <= i < |paths| && answers[i].None? ==> paths[i] in r
    decreases |paths|
  {
    if paths == [] then []
    else
      var prior := MissingPaths(paths[..|paths| - 1], answers[..|answers| - 1]);
      if answers[|answers| - 1].None? then prior + [paths[|paths| - 1]] else prior
  }

  /** The missing paths of two stretches of reads are those of the first, then those of the second. */
  lemma {:induction false} MissingPathsAppend(p1: seq<string>, a1: seq<Option<File>>, p2: seq<string>, a2: seq<Option<File>>)
    requires |a1| == |p1| && |a2| == |p2|
    ensures MissingPaths(p1 + p2, a1 + a2) == MissingPaths(p1, a1) + MissingPaths(p2, a2)
    decreases |p2|
  {
    if p2 == [] {
      assert p1 + p2 == p1 && a1 + a2 == a1;
    } else {
      assert (p1 + p2)[..|p1 + p2| - 1] == p1 + p2[..|p2| - 1];
      assert (a1 + a2)[..|a1 + a2| - 1] == a1 + a2[..|a2| - 1];
      MissingPathsAppend(p1, a1, p2[..|p2| - 1], a2[..|a2| - 1]);
    }
  }

  function MissingTexts(paths: seq<string>): (r: seq<string>)
    ensures |r| == |paths| && forall i :: 0 <= i < |paths| ==> r[i] == MissingFile(paths[i])
  {
    seq(|paths|, i requires 0 <= i < |paths| => MissingFile(paths[i]))
  }

  lemma MissingFiled(paths: seq<string>)
    ensures forall p :: p in paths ==> Message(Category, MissingFile(p)) in Filed(Category, MissingTexts(paths))
  {
    forall p | p in paths
      ensures Message(Category, MissingFile(p)) in Filed(Category, MissingTexts(paths))
    {
      var j :| 0 <= j < |paths| && paths[j] == p;
      assert Filed(Category, MissingTexts(paths))[j] == Message(Category, MissingFile(p));
    }
  }

  /**
   * What `check_update_files_exist` records, given the read answers for
   * `UpdateFiles`: one error per missing file, in order.
   */
  function UpdateFilesRun(answers: seq<Option<File>>): (r: CommandRun)
    requires |answers| == |UpdateFiles|
    ensures r.warnings == [] && r.fixes == [] && r.signal == Completed && |r.errors| <= 2
    ensures r.errors == [] <==> answers[0].Some? && answers[1].Some?
    ensures answers[0].None? ==> Message(Category, MissingFile(UpdateFiles[0])) in r.errors
    ensures answers[1].None? ==> Message(Category, MissingFile(UpdateFiles[1])) in r.errors
    ensures forall m :: m in r.errors ==> m.category == Category
  {
    var missing := MissingPaths(UpdateFiles, answers);
    var texts := MissingTexts(missing);
    MissingFiled(missing);
    CommandRun(Filed(Category, texts), [], [], Completed)
  }

  /** The two missing-file errors come in the order of `UpdateFiles`. */
  lemma UpdateFilesRunInOrder(answers: seq<Option<File>>)
    requires |answers| == |UpdateFiles|
    ensures UpdateFilesRun(answers).errors ==
      Filed(Category, (if answers[0].None? then [MissingFile(UpdateFiles[0])] else []) +
                      (if answers[1].None? then [MissingFile(UpdateFiles[1])] else []))
  {
    MissingPathsPair(UpdateFiles, answers);
  }

  lemma MissingPathsPair(paths: seq<string>, answers: seq<Option<File>>)
    requires |paths| == |answers| == 2
    ensures MissingPaths(paths, answers) ==
      (if answers[0].None? then [paths[0]] else []) + (if answers[1].None? then [paths[1]] else [])
  {
    assert paths == [paths[0]] + [paths[1]] && answers == [answers[0]] + [answers[1]];
    MissingPathsAppend([paths[0]], [answers[0]], [paths[1]], [answers[1]]);
  }

  /**
   * A tap whose two helpers are present, as the repository holds them,
   * passes: the check records nothing.
   */
  lemma PresentFilesPass(contents: map<string, seq<File>>)
    requires FileAt(contents, UpdateFiles[0]).Some? && FileAt(contents, UpdateFiles[1]).Some?
    ensures UpdateFilesRun([FileAt(contents, UpdateFiles[0]), FileAt(contents, UpdateFiles[1])]) == Quiet
  {
  }

  /**
   * `check_update_files_exist`: a cached read of each update helper, in
   * order, then one error per missing one.
   */
  method CheckUpdateFilesExist(linter: Session.RepoLinter) returns (signal: Signal, answers: seq<Option<File>>)
    modifies linter`filecache, linter`errors, linter`warnings, linter`fixes
    ensures |answers| == |UpdateFiles|
    ensures forall i :: 0 <= i < |UpdateFiles| ==>
      Session.Possible(old(linter.filecache), linter.repository.contents, UpdateFiles[i], answers[i])
    ensures Session.CacheFrom(old(linter.filecache), linter.filecache, linter.repository.contents, {})
    ensures var run := UpdateFilesRun(answers);
      signal == run.signal &&
      Results(linter.errors, linter.warnings, linter.fixes) == Apply(old(Results(linter.errors, linter.warnings, linter.fixes)), run)
  {
    answers := ReadAll(linter, UpdateFiles);
    var run := UpdateFilesRun(answers);
    linter.Perform(run);
    signal := run.signal;
  }

  /** Cached reads of `paths`, in order. */
  method ReadAll(linter: Session.RepoLinter, paths: seq<string>) returns (answers: seq<Option<File>>)
    modifies linter`filecache
    ensures |answers| == |paths|
    ensures forall i :: 0 <= i < |paths| ==> Session.Possible(old(linter.filecache), linter.repository.contents, paths[i], answers[i])
    ensures Session.CacheFrom(old(linter.filecache), linter.filecache, linter.repository.contents, {})
  {
    answers := [];
    var i := 0;
    while i < |paths|
      invariant 0 <= i <= |paths| && |answers| == i
      invariant forall k :: 0 <= k < i ==> Session.Possible(old(linter.filecache), linter.repository.contents, paths[k], answers[k])
      invariant Session.CacheFrom(old(linter.filecache), linter.filecache, linter.repository.contents, {})
    {
      ghost var before := linter.filecache;
      var r := linter.CachedGetFile(paths[i], false);
      Session.PossibleFrom(old(linter.filecache), before, linter.repository.contents, linter.repository.contents, {}, paths[i], r);
      Session.CacheFromTrans(old(linter.filecache), before, linter.filecache, linter.repository.contents, linter.repository.contents, {});
      answers := answers + [r];
      i := i + 1;
    }
  }
}
