// The terraform provider checks (github_linter/tests/terraform.py): some
// providers file must exist, and the files that exist must configure
// providers under `terraform.required_providers`. HCL parsing itself is
// abstract: `hcl2.loads` is a table from a file's text to the document it
// gives, and a text the table lacks makes it raise.
module Terraform {
  import opened Wrappers
  import opened Text
  import opened Config
  import opened Github
  import opened LintModules
  import opened ResultObjects
  import GithubLinters
  import Session

  const Category := "terraform"

  /** `PROVIDER_FILE_LIST`, in its order. */
  const ProviderFiles: seq<string> := ["providers.tf", "terraform/providers.tf", "terraform.tf", "terraform/terraform.tf"]

  type HclParser = map<string, Value>

  /**
   * `load_hclfile` given the read of the file: an empty mapping for a
   * missing or empty file, the parsed document otherwise, and None where
   * the read or the parse raises.
   */
  function LoadHcl(read: Remote<Option<File>>, parser: HclParser): (r: Option<Value>)
    ensures read.Ok? && (read.value.None? || read.value.value.content == "") ==> r == Some(Dict(map[]))
    ensures r.Some? && Truthy(r.value) ==> read.Ok? && read.value.Some? && read.value.value.content in parser
  {
    match read
    case Failed => None
    case Ok(file) =>
      if file.None? || file.value.content == "" then Some(Dict(map[]))
      else if file.value.content in parser then Some(parser[file.value.content])
      else None
  }

  /** `load_hclfile`: one read of `path` through the older cache. */
  method LoadHclFile(github: GithubLinters.GithubLinter, parser: HclParser, path: string)
    returns (read: Remote<Option<File>>, doc: Option<Value>)
    modifies github`filecache
    ensures doc == LoadHcl(read, parser)
    ensures github.currentRepo.None? ==> read == Failed && github.filecache == old(github.filecache)
    ensures github.currentRepo.Some? ==>
      var key := github.currentRepo.value.fullName;
      GithubLinters.OlderPossible(GithubLinters.RepoCache(old(github.filecache), key), github.currentRepo.value.contents, path, read) &&
      Session.CacheFrom(GithubLinters.RepoCache(old(github.filecache), key), GithubLinters.RepoCache(github.filecache, key),
                        github.currentRepo.value.contents, {})
  {
    read := github.CachedGetFile(path);
    doc := LoadHcl(read, parser);
  }

  /** Every load of `docs` came from a read of its path, against the cache as it stood before. */
  ghost predicate ReadsFrom(before: map<string, Option<File>>, contents: map<string, seq<File>>, paths: seq<string>,
                            answers: seq<Remote<Option<File>>>, docs: seq<Option<Value>>, parser: HclParser)
  {
    |answers| == |docs| <= |paths| &&
    forall k :: 0 <= k < |docs| ==> GithubLinters.OlderPossible(before, contents, paths[k], answers[k]) && docs[k] == LoadHcl(answers[k], parser)
  }

  /** One more load extends a read trace of known provenance. */
  lemma ReadsFromSnoc(a: map<string, Option<File>>, b: map<string, Option<File>>, c: map<string, Option<File>>,
                      contents: map<string, seq<File>>, paths: seq<string>,
                      answers: seq<Remote<Option<File>>>, docs: seq<Option<Value>>, parser: HclParser,
                      read: Remote<Option<File>>, doc: Option<Value>)
    requires ReadsFrom(a, contents, paths, answers, docs, parser) && |docs| < |paths|
    requires Session.CacheFrom(a, b, contents, {}) && GithubLinters.OlderPossible(b, contents, paths[|docs|], read)
    requires Session.CacheFrom(b, c, contents, {}) && doc == LoadHcl(read, parser)
    ensures ReadsFrom(a, contents, paths, answers + [read], docs + [doc], parser)
    ensures Session.CacheFrom(a, c, contents, {})
  {
    GithubLinters.OlderPossibleFrom(a, b, contents, paths[|docs|], read);
    Session.CacheFromTrans(a, b, c, contents, contents, {});
  }

  // check_providers_tf_exists

  function NoProvidersFile(): (r: string)
    ensures Contains(r, Join(ProviderFiles, ","))
  {
    var prefix := "Couldn't find a providers.tf file, looked in ";
    var text := prefix + Join(ProviderFiles, ",");
    assert text[|prefix|..|prefix| + |Join(ProviderFiles, ",")|] == Join(ProviderFiles, ",");
    ContainsPrefixOfSuffix(text, Join(ProviderFiles, ","), |prefix|);
    text
  }

  /** Where the search of `check_providers_tf_exists` ends: a failed load, or a non-empty document. */
  predicate Hit(doc: Option<Value>)
  {
    doc.None? || Truthy(doc.value)
  }

  /** The loads of a search that stops at its first `Hit`, or loads every file. */
  predicate SearchTrace(paths: seq<string>, docs: seq<Option<Value>>)
  {
    |docs| <= |paths| &&
    (forall k :: 0 <= k < |docs| - 1 ==> !Hit(docs[k])) &&
    (|docs| < |paths| ==> docs != [] && Hit(docs[|docs| - 1]))
  }

  /**
   * What `check_providers_tf_exists` records, given the loads it made in
   * order: nothing when it stopped at a non-empty document, and one error
   * when every load was empty.
   */
  function ProvidersTfExistsRun(repo: Option<Github.Repository>, docs: seq<Option<Value>>): (r: CommandRun)
    ensures r.warnings == [] && r.fixes == [] && |r.errors| <= 1
    ensures r.signal == Raised <==> repo.None? || (docs != [] && docs[|docs| - 1].None?)
    ensures r.errors != [] ==> r.errors == [Message(Category, NoProvidersFile())]
  {
    if repo.None? || (docs != [] && docs[|docs| - 1].None?) then CommandRun([], [], [], Raised)
    else if docs != [] && Truthy(docs[|docs| - 1].value) then Quiet
    else CommandRun(Filed(Category, [NoProvidersFile()]), [], [], Completed)
  }

  /**
   * Over a complete search of the provider files, the error is recorded
   * exactly when every file loaded as empty, and a non-empty one passes.
   */
  lemma {:induction false} ProvidersTfExistsErrors(repo: Github.Repository, docs: seq<Option<Value>>)
    requires SearchTrace(ProviderFiles, docs)
    ensures ProvidersTfExistsRun(Some(repo), docs).errors != [] <==>
      |docs| == |ProviderFiles| && forall k :: 0 <= k < |docs| ==> docs[k].Some? && !Truthy(docs[k].value)
    ensures (exists k :: 0 <= k < |docs| && docs[k].Some? && Truthy(docs[k].value)) ==>
      ProvidersTfExistsRun(Some(repo), docs) == Quiet
  {
    if docs != [] && docs[|docs| - 1].Some? && !Truthy(docs[|docs| - 1].value) {
      assert |docs| == |ProviderFiles|;
    }
  }

  /** `check_providers_tf_exists`: the provider files in order, up to the first non-empty one. */
  method CheckProvidersTfExists(github: GithubLinters.GithubLinter, parser: HclParser, errors: ResultObject, warnings: ResultObject)
    returns (signal: Signal, answers: seq<Remote<Option<File>>>, docs: seq<Option<Value>>)
    modifies github`filecache, errors, warnings
    ensures github.currentRepo.None? ==> docs == [] && github.filecache == old(github.filecache)
    ensures github.currentRepo.Some? ==>
      var key := github.currentRepo.value.fullName;
      SearchTrace(ProviderFiles, docs) &&
      ReadsFrom(GithubLinters.RepoCache(old(github.filecache), key), github.currentRepo.value.contents, ProviderFiles, answers, docs, parser) &&
      Session.CacheFrom(GithubLinters.RepoCache(old(github.filecache), key), GithubLinters.RepoCache(github.filecache, key),
                        github.currentRepo.value.contents, {})
    ensures var run := ProvidersTfExistsRun(github.currentRepo, docs);
      signal == run.signal && Delivered(run, old(errors.sink), old(warnings.sink), errors, warnings)
  {
    answers, docs := [], [];
    if github.currentRepo.Some? {
      answers, docs := SearchProviderFiles(github, parser);
    }
    var run := ProvidersTfExistsRun(github.currentRepo, docs);
    Deliver(run, errors, warnings);
    signal := run.signal;
  }

  /** The loop of `check_providers_tf_exists`. */
  method SearchProviderFiles(github: GithubLinters.GithubLinter, parser: HclParser)
    returns (answers: seq<Remote<Option<File>>>, docs: seq<Option<Value>>)
    requires github.currentRepo.Some?
    modifies github`filecache
    ensures var key := github.currentRepo.value.fullName;
      SearchTrace(ProviderFiles, docs) &&
      ReadsFrom(GithubLinters.RepoCache(old(github.filecache), key), github.currentRepo.value.contents, ProviderFiles, answers, docs, parser) &&
      Session.CacheFrom(GithubLinters.RepoCache(old(github.filecache), key), GithubLinters.RepoCache(github.filecache, key),
                        github.currentRepo.value.contents, {})
  {
    ghost var key := github.currentRepo.value.fullName;
    ghost var contents := github.currentRepo.value.contents;
    answers, docs := [], [];
    var i := 0;
    while i < |ProviderFiles|
      invariant 0 <= i <= |ProviderFiles| && |docs| == i
      invariant forall k :: 0 <= k < i ==> !Hit(docs[k])
      invariant ReadsFrom(GithubLinters.RepoCache(old(github.filecache), key), contents, ProviderFiles, answers, docs, parser)
      invariant Session.CacheFrom(GithubLinters.RepoCache(old(github.filecache), key), GithubLinters.RepoCache(github.filecache, key), contents, {})
    {
      ghost var before := GithubLinters.RepoCache(github.filecache, key);
      var read, doc := LoadHclFile(github, parser, ProviderFiles[i]);
      ReadsFromSnoc(GithubLinters.RepoCache(old(github.filecache), key), before, GithubLinters.RepoCache(github.filecache, key),
                    contents, ProviderFiles, answers, docs, parser, read, doc);
      answers, docs := answers + [read], docs + [doc];
      if Hit(doc) {
        return;
      }
      i := i + 1;
    }
  }

  // check_providers_for_modules

  function NoTerraformSection(path: string): string
  {
    "Couldn't find 'terraform' section in " + path + "..."
  }

  function NoRequiredProviders(path: string): string
  {
    "Couldn't find 'terraform.required_providers' section in " + path + "..."
  }

  function NoProviderConfig(found: seq<string>): string
  {
    "Found providers.tf files but no provider configuration was found. Files to check: " + Join(found, ",")
  }

  /**
   * The loop over `hclfile["terraform"]`: the `required_providers` value of
   * the first entry that has one, an empty mapping when none has, and None
   * where the membership test or the subscript raises.
   */
  function FirstRequired(entries: seq<Value>): Option<Value>
    decreases |entries|
  {
    if entries == [] then Some(Dict(map[]))
    else match HasKey(entries[0], "required_providers")
      case None => None
      case Some(false) => FirstRequired(entries[1..])
      case Some(true) => if entries[0].Dict? then Some(entries[0].entries["required_providers"]) else None
  }

  /**
   * The same loop over any value: the entries of a list in order; a
   * string's entries are single characters, too short to hold the key; a
   * mapping's entries are its keys, and a key holding the name as a
   * substring raises when subscripted.
   */
  function RequiredProviders(terraform: Value): Option<Value>
  {
    match terraform
    case List(items) => FirstRequired(items)
    case Str(_) => Some(Dict(map[]))
    case Dict(entries) => if exists k :: k in entries && Contains(k, "required_providers") then None else Some(Dict(map[]))
    case _ => None
  }

  /** Python can iterate the value. */
  predicate Iterable(v: Value)
  {
    v.List? || v.Dict? || v.Str?
  }

  /**
   * Whether the nested loop over a truthy `required_providers` value adds
   * any name to `provider_list`, or None where it raises: each provider is
   * iterated in turn, and a provider that cannot be iterated raises.
   */
  function AddsProviders(providers: Value): Option<bool>
  {
    match providers
    case List(items) =>
      if exists i :: 0 <= i < |items| && !Iterable(items[i]) then None
      else Some(exists i :: 0 <= i < |items| && Truthy(items[i]))
    case Dict(entries) => Some(exists k :: k in entries && k != "")
    case Str(s) => Some(s != "")
    case _ => None
  }

  /** What one provider file contributes to `check_providers_for_modules`. */
  datatype Outcome = Skipped | Warned(text: string) | Listed(providers: bool) | Fails

  /** The loop body of `check_providers_for_modules` for a loaded document. */
  function Examine(path: string, doc: Value): (r: Outcome)
    ensures r == Skipped <==> !Truthy(doc)
    ensures r.Warned? ==> r.text == NoTerraformSection(path) || r.text == NoRequiredProviders(path)
  {
    if !Truthy(doc) then Skipped
    else match HasKey(doc, "terraform")
      case None => Fails
      case Some(false) => Warned(NoTerraformSection(path))
      case Some(true) =>
        if !doc.Dict? then Fails
        else match RequiredProviders(doc.entries["terraform"])
          case None => Fails
          case Some(required) =>
            if !Truthy(required) then Warned(NoRequiredProviders(path))
            else match AddsProviders(required)
              case None => Fails
              case Some(b) => Listed(b)
  }

  /** Where the loop of `check_providers_for_modules` ends early: a failed load, or a body that raises. */
  predicate Halts(path: string, doc: Option<Value>)
  {
    doc.None? || Examine(path, doc.value) == Fails
  }

  /** The loads of a loop that stops at its first `Halts`, or loads every file. */
  predicate ModulesTrace(paths: seq<string>, docs: seq<Option<Value>>)
  {
    |docs| <= |paths| &&
    (forall k :: 0 <= k < |docs| - 1 ==> !Halts(paths[k], docs[k])) &&
    (|docs| < |paths| ==> docs != [] && Halts(paths[|docs| - 1], docs[|docs| - 1]))
  }

  /** The loop's state once it is done: warnings, `found_files`, whether a provider was listed, and whether it raised. */
  datatype Tally = Tally(warnings: seq<string>, found: seq<string>, providers: bool, raised: bool)

  function Fold(paths: seq<string>, docs: seq<Option<Value>>): (t: Tally)
    requires |docs| <= |paths|
    ensures |t.warnings| + |t.found| <= |docs|
    ensures forall f :: f in t.found ==> f in paths
    ensures t.providers ==> exists k :: 0 <= k < |docs| && docs[k].Some? && Truthy(docs[k].value)
    ensures (exists k :: 0 <= k < |docs| && Halts(paths[k], docs[k])) <==> t.raised
    decreases |docs|
  {
    if docs == [] then Tally([], [], false, false)
    else if Halts(paths[0], docs[0]) then Tally([], [], false, true)
    else
      var rest := Fold(paths[1..], docs[1..]);
      assert forall k :: 1 <= k < |docs| ==> docs[k] == docs[1..][k - 1] && paths[k] == paths[1..][k - 1];
      assert forall f :: f in rest.found ==> f in paths;
      match Examine(paths[0], docs[0].value)
      case Skipped => rest
      case Warned(text) => rest.(warnings := [text] + rest.warnings)
      case Listed(b) =>
        assert Truthy(docs[0].value);
        rest.(found := [paths[0]] + rest.found, providers := b || rest.providers)
  }

  /**
   * What `check_providers_for_modules` records, given the loads it made in
   * order: its warnings as they came, then, unless it raised or listed a
   * provider, one error naming the files it found.
   */
  function ProvidersForModulesRun(paths: seq<string>, docs: seq<Option<Value>>): (r: CommandRun)
    requires |docs| <= |paths|
    ensures r.fixes == [] && |r.errors| <= 1 && |r.warnings| <= |docs|
    ensures r.signal == Raised <==> exists k :: 0 <= k < |docs| && Halts(paths[k], docs[k])
    ensures r.signal == Raised ==> r.errors == []
    ensures r.errors == [] && r.signal == Completed ==> exists k :: 0 <= k < |docs| && docs[k].Some? && Truthy(docs[k].value)
  {
    var t := Fold(paths, docs);
    var warned := Filed(Category, t.warnings);
    if t.raised then CommandRun([], warned, [], Raised)
    else if !t.providers then CommandRun(Filed(Category, [NoProviderConfig(t.found)]), warned, [], Completed)
    else CommandRun([], warned, [], Completed)
  }

  /** The prefix of `docs` that the search of `check_providers_tf_exists` loads. */
  function SearchPrefix(docs: seq<Option<Value>>): (r: seq<Option<Value>>)
    ensures |r| <= |docs| && r == docs[..|r|]
    ensures r != [] ==> forall k :: 0 <= k < |r| - 1 ==> !Hit(docs[k])
    ensures |r| < |docs| ==> r != [] && Hit(r[|r| - 1])
    ensures r == docs ==> forall k :: 0 <= k < |r| - 1 ==> !Hit(docs[k])
    decreases |docs|
  {
    if docs == [] then []
    else if Hit(docs[0]) then [docs[0]]
    else [docs[0]] + SearchPrefix(docs[1..])
  }

  /**
   * The two checks agree: both load the same files through the same cache,
   * so when `check_providers_for_modules` lists a provider and returns, the
   * search of `check_providers_tf_exists` over the same loads passes.
   */
  lemma {:induction false} ProvidersMeanProvidersFile(repo: Github.Repository, docs: seq<Option<Value>>)
    requires |docs| == |ProviderFiles|
    requires ProvidersForModulesRun(ProviderFiles, docs).errors == []
    requires ProvidersForModulesRun(ProviderFiles, docs).signal == Completed
    ensures SearchTrace(ProviderFiles, SearchPrefix(docs))
    ensures ProvidersTfExistsRun(Some(repo), SearchPrefix(docs)) == Quiet
  {
    var k :| 0 <= k < |docs| && docs[k].Some? && Truthy(docs[k].value);
    var p := SearchPrefix(docs);
    FirstHitWithin(docs, k);
    assert p != [] && Hit(p[|p| - 1]);
    assert p[|p| - 1] == docs[|p| - 1];
  }

  /** The search stops no later than the first non-empty document. */
  lemma {:induction false} FirstHitWithin(docs: seq<Option<Value>>, k: nat)
    requires k < |docs| && docs[k].Some? && Truthy(docs[k].value)
    ensures |SearchPrefix(docs)| <= k + 1
    ensures SearchPrefix(docs) != [] && Hit(SearchPrefix(docs)[|SearchPrefix(docs)| - 1])
    decreases |docs|
  {
    if Hit(docs[0]) {
    } else {
      assert k > 0 && docs[1..][k - 1] == docs[k];
      FirstHitWithin(docs[1..], k - 1);
    }
  }

  /** `check_providers_for_modules`: every provider file in order, with no repository check before the answers. */
  method CheckProvidersForModules(github: GithubLinters.GithubLinter, parser: HclParser, errors: ResultObject, warnings: ResultObject)
    returns (signal: Signal, answers: seq<Remote<Option<File>>>, docs: seq<Option<Value>>)
    modifies github`filecache, errors, warnings
    ensures github.currentRepo.None? ==> docs == [None] && github.filecache == old(github.filecache)
    ensures github.currentRepo.Some? ==>
      var key := github.currentRepo.value.fullName;
      ModulesTrace(ProviderFiles, docs) &&
      ReadsFrom(GithubLinters.RepoCache(old(github.filecache), key), github.currentRepo.value.contents, ProviderFiles, answers, docs, parser) &&
      Session.CacheFrom(GithubLinters.RepoCache(old(github.filecache), key), GithubLinters.RepoCache(github.filecache, key),
                        github.currentRepo.value.contents, {})
    ensures |docs| <= |ProviderFiles|
    ensures var run := ProvidersForModulesRun(ProviderFiles, docs);
      signal == run.signal && Delivered(run, old(errors.sink), old(warnings.sink), errors, warnings)
  {
    if github.currentRepo.None? {
      var read, doc := LoadHclFile(github, parser, ProviderFiles[0]);
      answers, docs := [read], [doc];
    } else {
      answers, docs := LoadProviderFiles(github, parser);
    }
    var run := ProvidersForModulesRun(ProviderFiles, docs);
    Deliver(run, errors, warnings);
    signal := run.signal;
  }

  /** The loads of `check_providers_for_modules`, up to the first that raises. */
  method LoadProviderFiles(github: GithubLinters.GithubLinter, parser: HclParser)
    returns (answers: seq<Remote<Option<File>>>, docs: seq<Option<Value>>)
    requires github.currentRepo.Some?
    modifies github`filecache
    ensures var key := github.currentRepo.value.fullName;
      ModulesTrace(ProviderFiles, docs) &&
      ReadsFrom(GithubLinters.RepoCache(old(github.filecache), key), github.currentRepo.value.contents, ProviderFiles, answers, docs, parser) &&
      Session.CacheFrom(GithubLinters.RepoCache(old(github.filecache), key), GithubLinters.RepoCache(github.filecache, key),
                        github.currentRepo.value.contents, {})
  {
    ghost var key := github.currentRepo.value.fullName;
    ghost var contents := github.currentRepo.value.contents;
    answers, docs := [], [];
    var i := 0;
    while i < |ProviderFiles|
      invariant 0 <= i <= |ProviderFiles| && |docs| == i
      invariant forall k :: 0 <= k < i ==> !Halts(ProviderFiles[k], docs[k])
      invariant ReadsFrom(GithubLinters.RepoCache(old(github.filecache), key), contents, ProviderFiles, answers, docs, parser)
      invariant Session.CacheFrom(GithubLinters.RepoCache(old(github.filecache), key), GithubLinters.RepoCache(github.filecache, key), contents, {})
    {
      ghost var before := GithubLinters.RepoCache(github.filecache, key);
      var read, doc := LoadHclFile(github, parser, ProviderFiles[i]);
      ReadsFromSnoc(GithubLinters.RepoCache(old(github.filecache), key), before, GithubLinters.RepoCache(github.filecache, key),
                    contents, ProviderFiles, answers, docs, parser, read, doc);
      answers, docs := answers + [read], docs + [doc];
      if Halts(ProviderFiles[i], doc) {
        return;
      }
      i := i + 1;
    }
  }
}
