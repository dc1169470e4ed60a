// The CODEOWNERS check and fix (github_linter/tests/codeowners.py): the file
// must exist, and the fix writes one built from the configured owners.
module Codeowners {
  import opened Wrappers
  import opened Text
  import opened Config
  import opened Github
  import opened LintModules
  import Session

  /** Results are filed under the empty category. */
  const Category := ""
  /** The key `load_module_config` merges the defaults under: the module's own name. */
  const ModuleName := "codeowners"
  const CodeownersPath := "CODEOWNERS"

  const DefaultConfigValue: Value := Dict(map["codeowners" := Null])

  const Members: seq<string> := [
    "CATEGORY", "DEFAULT_CONFIG", "DefaultConfig", "Dict", "LANGUAGES", "List", "Optional", "RepoLinter",
    "TypedDict", "Union", "check_codeowners_exists", "fix_codeowners_exists", "logger"
  ]

  /** `LANGUAGES = ["ALL"]`: the literal "ALL" opens the gate of `run_module`. */
  const Module := LintModule(ModuleName, Some(["ALL"]), MappingDefault(DefaultConfigValue), Members)

  /** `repo.config[key]["codeowners"]`, or None where the lookup raises. */
  function OwnersAt(config: map<string, Value>, key: string): Option<Value>
  {
    if key in config && config[key].Dict? && "codeowners" in config[key].entries
    then Some(config[key].entries["codeowners"])
    else None
  }

  /** The lookup as written: under `CATEGORY`, the empty string. */
  function OwnersAsWritten(config: map<string, Value>): Option<Value>
  {
    OwnersAt(config, Category)
  }

  /** The lookup the module's defaults were merged for: under its own name. */
  function Owners(config: map<string, Value>): Option<Value>
  {
    OwnersAt(config, ModuleName)
  }

  /**
   * As written, both commands raise on any configuration without a ""
   * section, the merged defaults included: `load_module_config` stores them
   * under "codeowners", never under "". The check then records nothing, and
   * the fix builds nothing and records nothing.
   */
  lemma CategoryLookupRaises(config: map<string, Value>, file: Option<File>, order: seq<string>, written: Option<string>)
    requires Category !in config
    ensures OwnersAsWritten(LintModules.LoadModuleConfig(config, Module).config) == None
    ensures ExistsRun(OwnersAsWritten(LintModules.LoadModuleConfig(config, Module).config), file) ==
      CommandRun([], [], [], Raised)
    ensures FixRun(OwnersAsWritten(LintModules.LoadModuleConfig(config, Module).config), None, file, written) ==
      CommandRun([], [], [], Raised)
  {
  }

  /**
   * Looked up under the module's name, the merged defaults answer `None`
   * (no owners configured) where the configuration has no section of its
   * own, and a configured section keeps its owners.
   */
  lemma ModuleLookupDefault(config: map<string, Value>, owners: Value)
    ensures ModuleName !in config ==> Owners(LintModules.LoadModuleConfig(config, Module).config) == Some(Null)
    ensures Owners(LintModules.LoadModuleConfig(map[ModuleName := Dict(map["codeowners" := owners])], Module).config) ==
      Some(owners)
  {
    var single := map[ModuleName := Dict(map["codeowners" := owners])];
    var dest := Dict(map["codeowners" := owners]);
    if owners.Dict? {
      var merged := AddFromDict(DefaultConfigValue, dest);
      assert merged.Some?;
    }
    if owners.Dict? {
      assert AddFromDict(Null, owners) == Some(owners);
    } else {
      AddFromDictKeepsExisting(DefaultConfigValue, dest);
    }
    if ModuleName !in config {
      AddFromDictFillsMissing(DefaultConfigValue, Dict(map[]));
    }
  }

  // check_codeowners_exists

  const FileMissing := "CODEOWNERS file doesn't exist."

  /** What `check_codeowners_exists` records: an empty owners config only logs. */
  function ExistsRun(owners: Option<Value>, file: Option<File>): (r: CommandRun)
    ensures r.warnings == [] && r.fixes == [] && |r.errors| <= 1
    ensures r.errors != [] <==> owners.Some? && file.None?
    ensures r.errors != [] ==> r.errors == [Message(Category, FileMissing)]
    ensures r.signal == (if owners.None? then Raised else Completed)
  {
    if owners.None? then CommandRun([], [], [], Raised)
    else if file.None? then CommandRun(Filed(Category, [FileMissing]), [], [], Completed)
    else Quiet
  }

  /**
   * `check_codeowners_exists`: the config lookup under `CATEGORY`, as
   * written, then a read of `CODEOWNERS` through the cache.
   */
  method CheckCodeownersExists(linter: Session.RepoLinter) returns (signal: Signal, file: Option<File>)
    modifies linter`filecache, linter`errors, linter`warnings, linter`fixes
    ensures OwnersAsWritten(linter.config).None? ==> file == None && linter.filecache == old(linter.filecache)
    ensures OwnersAsWritten(linter.config).Some? ==>
      Session.ReadAnswer(old(linter.filecache), linter.repository.contents, CodeownersPath, file) &&
      Session.CacheHolds(linter.filecache, CodeownersPath, file) &&
      linter.filecache - {CodeownersPath} == old(linter.filecache) - {CodeownersPath}
    ensures var run := ExistsRun(OwnersAsWritten(linter.config), file);
      signal == run.signal &&
      Results(linter.errors, linter.warnings, linter.fixes) == Apply(old(Results(linter.errors, linter.warnings, linter.fixes)), run)
  {
    file := None;
    var owners := OwnersAsWritten(linter.config);
    if owners.Some? {
      file := linter.CachedGetFile(CodeownersPath, false);
    }
    var run := ExistsRun(owners, file);
    linter.Perform(run);
    signal := run.signal;
  }

  // fix_codeowners_exists

  const Header := "# This file was created by github-linter\n"
  const UpdateMessage := "github-linter updated CODEOWNERS file."

  /**
   * What one configured path adds to the file: the path and a space, then
   * a string owner and a newline, or a space, the comma-joined list of
   * owners and a newline; a null owner adds nothing more, and any other
   * owner makes the join raise.
   */
  function Fragment(path: string, owner: Value): (r: Option<string>)
    ensures r.Some? <==> owner.Null? || owner.Str? || (owner.List? && StringItems(owner.items).Some?)
    ensures r.Some? ==> StartsWith(r.value, path + " ")
    ensures r.Some? && owner.Null? ==> r.value == path + " "
    ensures r.Some? && !owner.Null? ==> EndsWith(r.value, "\n")
    ensures owner.Str? ==> r == Some(path + " " + owner.s + "\n")
  {
    var lead := path + " ";
    assert (lead + "")[..|lead|] == lead;
    match owner
    case Null => Some(lead)
    case Str(o) =>
      assert (lead + o + "\n")[..|lead|] == lead;
      Some(lead + o + "\n")
    case List(items) =>
      var names := StringItems(items);
      if names.None? then None
      else
        var line := lead + " " + Join(names.value, ",") + "\n";
        assert line[..|lead|] == lead;
        Some(line)
    case _ => None
  }

  /** The configured paths are exactly the keys of the owners mapping, each once, in its iteration order. */
  predicate Enumerates(order: seq<string>, entries: map<string, Value>)
  {
    (forall p :: p in order ==> p in entries) && (forall p :: p in entries ==> p in order) &&
    (forall i, j :: 0 <= i < j < |order| ==> order[i] != order[j])
  }

  /** The fragments for `order`, one after the other, or None where one raises. */
  function Fragments(entries: map<string, Value>, order: seq<string>): Option<string>
    requires forall p :: p in order ==> p in entries
    decreases |order|
  {
    if order == [] then Some("")
    else
      var p := order[|order| - 1];
      var prior := Fragments(entries, order[..|order| - 1]);
      var f := Fragment(p, entries[p]);
      if prior.None? || f.None? then None else Some(prior.value + f.value)
  }

  /**
   * The file the fix builds from the owners value: the header, then the
   * fragments of the mapping's paths; an empty list or string iterates
   * nothing, and any other value raises.
   */
  function Built(owners: Value, order: seq<string>): Option<string>
    requires owners.Dict? ==> Enumerates(order, owners.entries)
  {
    match owners
    case Dict(entries) =>
      var body := Fragments(entries, order);
      if body.None? then None else Some(Header + body.value)
    case List(items) => if items == [] then Some(Header) else None
    case Str(s) => if s == "" then Some(Header) else None
    case _ => None
  }

  lemma ContainsInLonger(s: string, t: string, sub: string)
    requires Contains(s, sub)
    ensures Contains(s + t, sub) && Contains(t + s, sub)
  {
    var i := ContainsAt(s, sub);
    assert (s + t)[i..i + |sub|] == s[i..i + |sub|];
    ContainsPrefixOfSuffix(s + t, sub, i);
    assert (t + s)[|t| + i..|t| + i + |sub|] == s[i..i + |sub|];
    ContainsPrefixOfSuffix(t + s, sub, |t| + i);
  }

  /** The fragments are all there, in order, exactly when none of them raises. */
  lemma {:induction false} FragmentsHold(entries: map<string, Value>, order: seq<string>)
    requires forall p :: p in order ==> p in entries
    ensures Fragments(entries, order).Some? <==> forall k :: 0 <= k < |order| ==> Fragment(order[k], entries[order[k]]).Some?
    ensures Fragments(entries, order).Some? ==>
      forall k :: 0 <= k < |order| ==> Contains(Fragments(entries, order).value, Fragment(order[k], entries[order[k]]).value)
    decreases |order|
  {
    if order != [] {
      var n := |order| - 1;
      var prior := order[..n];
      FragmentsHold(entries, prior);
      assert forall k :: 0 <= k < n ==> prior[k] == order[k];
      var r := Fragments(entries, order);
      if r.Some? {
        var head := Fragments(entries, prior).value;
        var last := Fragment(order[n], entries[order[n]]).value;
        assert r.value == head + last;
        forall k | 0 <= k < |order|
          ensures Contains(r.value, Fragment(order[k], entries[order[k]]).value)
        {
          if k < n {
            ContainsInLonger(head, last, Fragment(prior[k], entries[prior[k]]).value);
          } else {
            ContainsItself(last);
            ContainsInLonger(last, head, last);
          }
        }
      }
    }
  }

  /**
   * What the fix builds for a mapping: the header first, and the fragment
   * of every configured path in it; it raises exactly where one owner is
   * neither null, a string nor a list of strings. No paths, just the header.
   */
  lemma BuiltForMapping(entries: map<string, Value>, order: seq<string>)
    requires Enumerates(order, entries)
    ensures Built(Dict(entries), order).Some? <==> forall p :: p in entries ==> Fragment(p, entries[p]).Some?
    ensures Built(Dict(entries), order).Some? ==>
      StartsWith(Built(Dict(entries), order).value, Header) &&
      forall p :: p in entries ==> Contains(Built(Dict(entries), order).value, Fragment(p, entries[p]).value)
    ensures entries == map[] ==> Built(Dict(entries), order) == Some(Header)
  {
    FragmentsHold(entries, order);
    if Built(Dict(entries), order).Some? {
      var body := Fragments(entries, order).value;
      assert (Header + body)[..|Header|] == Header;
      forall p | p in entries
        ensures Contains(Header + body, Fragment(p, entries[p]).value)
      {
        var k :| 0 <= k < |order| && order[k] == p;
        ContainsInLonger(body, Header, Fragment(p, entries[p]).value);
      }
    }
    if !(forall p :: p in entries ==> Fragment(p, entries[p]).Some?) {
      var p :| p in entries && Fragment(p, entries[p]).None?;
      var k :| 0 <= k < |order| && order[k] == p;
    }
    if entries == map[] {
      assert order == [];
      assert Header + "" == Header;
    }
  }

  /** The loop of `fix_codeowners_exists` that builds the file text. */
  method BuildContents(owners: Value, order: seq<string>) returns (contents: Option<string>)
    requires owners.Dict? ==> Enumerates(order, owners.entries)
    ensures contents == Built(owners, order)
  {
    if !owners.Dict? {
      return Built(owners, order);
    }
    var text := Header;
    var i := 0;
    while i < |order|
      invariant 0 <= i <= |order|
      invariant Fragments(owners.entries, order[..i]).Some? && text == Header + Fragments(owners.entries, order[..i]).value
    {
      var p := order[i];
      var f := Fragment(p, owners.entries[p]);
      assert order[..i + 1][..i] == order[..i];
      if f.None? {
        FragmentsNone(owners.entries, order, i + 1);
        return None;
      }
      text := text + f.value;
      i := i + 1;
    }
    assert order[..i] == order;
    contents := Some(text);
  }

  /** Once a fragment raises, every longer prefix raises too. */
  lemma {:induction false} FragmentsNone(entries: map<string, Value>, order: seq<string>, n: nat)
    requires forall p :: p in order ==> p in entries
    requires 0 < n <= |order| && Fragments(entries, order[..n]).None?
    ensures Fragments(entries, order).None?
    decreases |order| - n
  {
    if n < |order| {
      assert order[..n + 1][..n] == order[..n];
      FragmentsNone(entries, order, n + 1);
    } else {
      assert order[..n] == order;
    }
  }

  function CreatedFix(written: Option<string>): string
  {
    "Created basic CODEOWNERS file: " + (if written.Some? then written.value else "None")
  }

  /** What `fix_codeowners_exists` records, given what it read, built and what the write answered. */
  function FixRun(owners: Option<Value>, built: Option<string>, file: Option<File>, written: Option<string>): (r: CommandRun)
    ensures r.errors == [] && r.warnings == [] && |r.fixes| <= 1
    ensures r.fixes != [] <==> owners.Some? && built.Some? && !(file.Some? && file.value.content == built.value)
    ensures r.fixes != [] ==> r.fixes == [Message(Category, CreatedFix(written))]
    ensures r.signal == (if owners.None? || built.None? then Raised else Completed)
  {
    if owners.None? || built.None? then CommandRun([], [], [], Raised)
    else if file.Some? && file.value.content == built.value then Quiet
    else CommandRun([], [], Filed(Category, [CreatedFix(written)]), Completed)
  }

  /** After the fix has written the built file, whatever its sha, the fix finds nothing to do. */
  lemma FixIsIdempotent(contents: map<string, seq<File>>, owners: Option<Value>, built: string, sha: string,
                        written: Option<string>)
    ensures var after := contents[CodeownersPath := [File(CodeownersPath, CodeownersPath, built, sha)]];
      FixRun(owners, Some(built), FileAt(after, CodeownersPath), written).fixes == []
  {
  }

  /**
   * `fix_codeowners_exists`. `order` is the iteration order of the owners
   * mapping. The read comes first, then the lookup under `CATEGORY`, as
   * written; the write passes the
   * old file, and happens exactly when its bytes differ from the built text.
   */
  method FixCodeownersExists(linter: Session.RepoLinter, order: seq<string>)
    returns (signal: Signal, file: Option<File>, built: Option<string>, written: Option<string>)
    requires var owners := OwnersAsWritten(linter.config); owners.Some? && owners.value.Dict? ==> Enumerates(order, owners.value.entries)
    modifies linter`filecache, linter`errors, linter`warnings, linter`fixes, linter.repository`contents, linter.repository`commits
    ensures Session.ReadAnswer(old(linter.filecache), old(linter.repository.contents), CodeownersPath, file)
    ensures var owners := OwnersAsWritten(linter.config);
      built == (if owners.Some? then Built(owners.value, order) else None)
    ensures built.None? || (file.Some? && file.value.content == built.value) ==>
      written == None && linter.repository.contents == old(linter.repository.contents) &&
      linter.repository.commits == old(linter.repository.commits)
    ensures built.Some? && !(file.Some? && file.value.content == built.value) ==>
      written.Some? &&
      linter.repository.commits == old(linter.repository.commits) +
        [Commit(CodeownersPath, UpdateMessage, built.value, if file.Some? then file.value.sha else "")] &&
      exists sha :: linter.repository.contents ==
        old(linter.repository.contents)[CodeownersPath := [File(CodeownersPath, CodeownersPath, built.value, sha)]]
    ensures var run := FixRun(OwnersAsWritten(linter.config), built, file, written);
      signal == run.signal &&
      Results(linter.errors, linter.warnings, linter.fixes) == Apply(old(Results(linter.errors, linter.warnings, linter.fixes)), run)
  {
    built, written := None, None;
    file := linter.CachedGetFile(CodeownersPath, false);
    var owners := OwnersAsWritten(linter.config);
    if owners.Some? {
      built := BuildContents(owners.value, order);
      if built.Some? && !(file.Some? && file.value.content == built.value) {
        written := linter.CreateOrUpdateFile(CodeownersPath, built.value, file, Some(UpdateMessage));
      }
    }
    var run := FixRun(owners, built, file, written);
    linter.Perform(run);
    signal := run.signal;
  }
}
