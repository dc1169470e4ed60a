// The leftover-file check (github_linter/tests/generic.py): every entry at
// the top of the repository whose name the configuration lists under
// "files_to_remove" is an error.
module Generic {
  import opened Wrappers
  import opened Text
  import opened Config
  import opened Github
  import opened LintModules
  import opened ResultObjects
  import GithubLinters

  const Category := "generic"

  function RemovalNeeded(name: string, fullName: string): (r: string)
    ensures Contains(r, name)
  {
    var prefix := "File '";
    var text := prefix + name + "' needs to be removed from " + fullName + ".";
    assert text[|prefix|..|prefix| + |name|] == name;
    ContainsPrefixOfSuffix(text, name, |prefix|);
    text
  }

  /**
   * `name in config.get("files_to_remove")`: None where it raises a
   * TypeError, which the missing key (`get` gives None) does too.
   */
  function Listed(config: map<string, Value>, name: string): (r: Option<bool>)
    ensures r.None? <==> "files_to_remove" !in config || HasKey(config["files_to_remove"], name).None?
    ensures r == Some(true) && config["files_to_remove"].List? ==> Str(name) in config["files_to_remove"].items
  {
    if "files_to_remove" in config then HasKey(config["files_to_remove"], name) else None
  }

  /** The names among `names` that the configuration lists, in order. */
  function ToRemove(config: map<string, Value>, names: seq<string>): (r: seq<string>)
    ensures forall n :: n in r <==> n in names && Listed(config, n) == Some(true)
    decreases |names|
  {
    if names == [] then []
    else
      var prior := ToRemove(config, names[..|names| - 1]);
      var last := names[|names| - 1];
      assert names == names[..|names| - 1] + [last];
      if Listed(config, last) == Some(true) then prior + [last] else prior
  }

  function Names(items: seq<File>): (r: seq<string>)
    ensures |r| == |items| && forall i :: 0 <= i < |items| ==> r[i] == items[i].name
  {
    seq(|items|, i requires 0 <= i < |items| => items[i].name)
  }

  function RemovalTexts(names: seq<string>, fullName: string): (r: seq<string>)
    ensures |r| == |names| && forall i :: 0 <= i < |names| ==> r[i] == RemovalNeeded(names[i], fullName)
  {
    seq(|names|, i requires 0 <= i < |names| => RemovalNeeded(names[i], fullName))
  }

  /**
   * What `check_files_to_remove` records, given the current repository and
   * the answer to `get_contents("")`: no repository or a failed listing
   * raises; an empty listing records nothing; otherwise the membership test
   * raises for every entry alike, or there is one error per listed entry.
   */
  function FilesToRemoveRun(config: map<string, Value>, repo: Option<Github.Repository>, root: Lookup): (r: CommandRun)
    ensures r.warnings == [] && r.fixes == []
    ensures r.signal == Raised <==>
      repo.None? || !root.Listing? || (root.items != [] && Listed(config, root.items[0].name).None?)
    ensures r.signal == Raised ==> r.errors == []
    ensures repo.Some? && root.Listing? && r.signal == Completed ==>
      r.errors == Filed(Category, RemovalTexts(ToRemove(config, Names(root.items)), repo.value.fullName))
  {
    if repo.None? || !root.Listing? then CommandRun([], [], [], Raised)
    else if root.items == [] then Quiet
    else if Listed(config, root.items[0].name).None? then CommandRun([], [], [], Raised)
    else CommandRun(Filed(Category, RemovalTexts(ToRemove(config, Names(root.items)), repo.value.fullName)), [], [], Completed)
  }

  /**
   * An entry the configuration lists, in a listing whose membership test
   * does not raise, is reported; a listing with no listed entry passes.
   */
  lemma ListedEntriesReported(config: map<string, Value>, repo: Github.Repository, items: seq<File>, i: nat)
    requires i < |items| && Listed(config, items[0].name).Some?
    ensures Listed(config, items[i].name) == Some(true) ==>
      Message(Category, RemovalNeeded(items[i].name, repo.fullName)) in FilesToRemoveRun(config, Some(repo), Listing(items)).errors
    ensures (forall j :: 0 <= j < |items| ==> Listed(config, items[j].name) != Some(true)) ==>
      FilesToRemoveRun(config, Some(repo), Listing(items)) == Quiet
  {
    var names := Names(items);
    var removed := ToRemove(config, names);
    var run := FilesToRemoveRun(config, Some(repo), Listing(items));
    if forall j :: 0 <= j < |items| ==> Listed(config, items[j].name) != Some(true) {
      if removed != [] {
        assert removed[0] in names;
      }
    } else if Listed(config, items[i].name) == Some(true) {
      assert names[i] in removed;
      var k :| 0 <= k < |removed| && removed[k] == names[i];
      assert run.errors[k] == Message(Category, RemovalNeeded(items[i].name, repo.fullName));
    }
  }

  /** `check_files_to_remove`: the root listing of the current repository, then one error per listed entry. */
  method CheckFilesToRemove(github: GithubLinters.GithubLinter, errors: ResultObject, warnings: ResultObject)
    returns (signal: Signal, root: Lookup)
    modifies errors, warnings
    ensures github.currentRepo.Some? ==>
      root == ApiError || root == (if "" in github.currentRepo.value.contents then Listing(github.currentRepo.value.contents[""]) else NotFound)
    ensures var run := FilesToRemoveRun(github.config, github.currentRepo, root);
      signal == run.signal && Delivered(run, old(errors.sink), old(warnings.sink), errors, warnings)
  {
    root := NotFound;
    if github.currentRepo.Some? {
      root := github.currentRepo.value.GetContents("");
    }
    var run := FilesToRemoveRun(github.config, github.currentRepo, root);
    Deliver(run, errors, warnings);
    signal := run.signal;
  }
}
