// Selecting which `check_*` / `fix_*` names of a module to run:
// `get_filtered_commands` (github_linter/repolinter.py:34-50) and the older
// `get_filtered_checks` (github_linter/__init__.py:56-67). An absent filter
// and an empty tuple are both falsy, so both are the empty sequence here.
module Filter {
  import opened Text

  /** `wildcard_matcher.match(name, pattern)`, left abstract. */
  type Wildcard = (string, string) -> bool

  /** The name starts with, or wildcard-matches, one of the filter strings. */
  predicate Selects(check: string, filter: seq<string>, wildcard: Wildcard)
  {
    exists i :: 0 <= i < |filter| && (StartsWith(check, filter[i]) || wildcard(check, filter[i]))
  }

  /** `a` is `b` with some elements dropped, the rest in the same order. */
  predicate IsSubsequence<T(==)>(a: seq<T>, b: seq<T>)
    decreases |b|
  {
    a == [] ||
    (b != [] && ((a[|a| - 1] == b[|b| - 1] && IsSubsequence(a[..|a| - 1], b[..|b| - 1])) ||
                 IsSubsequence(a, b[..|b| - 1])))
  }

  /** The selected names of `checklist`, each once, in the order first met. */
  function FilteredCommands(checklist: seq<string>, filter: seq<string>, wildcard: Wildcard): seq<string>
    decreases |checklist|
  {
    if checklist == [] then []
    else
      var prior := FilteredCommands(checklist[..|checklist| - 1], filter, wildcard);
      var check := checklist[|checklist| - 1];
      if Selects(check, filter, wildcard) && check !in prior then prior + [check] else prior
  }

  /** `get_filtered_commands`. */
  method GetFilteredCommands(checklist: seq<string>, filter: seq<string>, wildcard: Wildcard)
    returns (checks: seq<string>)
    ensures filter == [] ==> checks == checklist
    ensures filter != [] ==> checks == FilteredCommands(checklist, filter, wildcard)
  {
    if filter == [] {
      return checklist;
    }
    checks := [];
    var i := 0;
    while i < |checklist|
      invariant 0 <= i <= |checklist|
      invariant checks == FilteredCommands(checklist[..i], filter, wildcard)
    {
      var check := checklist[i];
      var prior := checks;
      var j := 0;
      while j < |filter|
        invariant 0 <= j <= |filter|
        invariant checks == if check !in prior && exists k :: 0 <= k < j && (StartsWith(check, filter[k]) || wildcard(check, filter[k]))
                            then prior + [check] else prior
      {
        if (StartsWith(check, filter[j]) || wildcard(check, filter[j])) && check !in checks {
          checks := checks + [check];
        }
        j := j + 1;
      }
      assert checklist[..i + 1][..i] == checklist[..i];
      i := i + 1;
    }
    assert checklist[..i] == checklist;
  }

  /** A name is returned exactly when the list holds it and a filter selects it. */
  lemma {:induction false} FilteredCommandsMembers(checklist: seq<string>, filter: seq<string>, wildcard: Wildcard, x: string)
    ensures x in FilteredCommands(checklist, filter, wildcard) <==> x in checklist && Selects(x, filter, wildcard)
    decreases |checklist|
  {
    if checklist != [] {
      var init := checklist[..|checklist| - 1];
      FilteredCommandsMembers(init, filter, wildcard, x);
      assert checklist == init + [checklist[|checklist| - 1]];
    }
  }

  /** No name is returned twice, even when the list or several filters repeat it. */
  lemma {:induction false} FilteredCommandsDistinct(checklist: seq<string>, filter: seq<string>, wildcard: Wildcard)
    ensures Distinct(FilteredCommands(checklist, filter, wildcard))
    decreases |checklist|
  {
    if checklist != [] {
      var prior := FilteredCommands(checklist[..|checklist| - 1], filter, wildcard);
      FilteredCommandsDistinct(checklist[..|checklist| - 1], filter, wildcard);
      var check := checklist[|checklist| - 1];
      if Selects(check, filter, wildcard) && check !in prior {
        var r := prior + [check];
        forall i, j | 0 <= i < j < |r| ensures r[i] != r[j] {
          if j == |prior| { assert r[i] == prior[i]; }
        }
      }
    }
  }

  /** The output keeps the input's order. */
  lemma {:induction false} FilteredCommandsInOrder(checklist: seq<string>, filter: seq<string>, wildcard: Wildcard)
    ensures IsSubsequence(FilteredCommands(checklist, filter, wildcard), checklist)
    decreases |checklist|
  {
    if checklist != [] {
      var init := checklist[..|checklist| - 1];
      var prior := FilteredCommands(init, filter, wildcard);
      FilteredCommandsInOrder(init, filter, wildcard);
      var r := FilteredCommands(checklist, filter, wildcard);
      if r != prior {
        assert r[..|r| - 1] == prior;
      }
    }
  }

  /** How many filter strings the name starts with. */
  function PrefixMatches(check: string, filter: seq<string>): nat
  {
    if filter == [] then 0
    else PrefixMatches(check, filter[..|filter| - 1]) + (if StartsWith(check, filter[|filter| - 1]) then 1 else 0)
  }

  function Repeat(x: string, n: nat): (r: seq<string>)
    ensures |r| == n && forall i :: 0 <= i < n ==> r[i] == x
  {
    if n == 0 then [] else Repeat(x, n - 1) + [x]
  }

  /** The older selection: each name once per filter string it starts with. */
  function FilteredChecks(checklist: seq<string>, filter: seq<string>): seq<string>
    decreases |checklist|
  {
    if checklist == [] then []
    else
      var check := checklist[|checklist| - 1];
      FilteredChecks(checklist[..|checklist| - 1], filter) + Repeat(check, PrefixMatches(check, filter))
  }

  /** `get_filtered_checks`. */
  method GetFilteredChecks(checklist: seq<string>, filter: seq<string>) returns (checks: seq<string>)
    ensures filter == [] ==> checks == checklist
    ensures filter != [] ==> checks == FilteredChecks(checklist, filter)
  {
    if filter == [] {
      return checklist;
    }
    checks := [];
    var i := 0;
    while i < |checklist|
      invariant 0 <= i <= |checklist|
      invariant checks == FilteredChecks(checklist[..i], filter)
    {
      var check := checklist[i];
      var prior := checks;
      var j := 0;
      while j < |filter|
        invariant 0 <= j <= |filter|
        invariant checks == prior + Repeat(check, PrefixMatches(check, filter[..j]))
      {
        assert filter[..j + 1][..j] == filter[..j];
        if StartsWith(check, filter[j]) {
          checks := checks + [check];
        }
        j := j + 1;
      }
      assert filter[..j] == filter;
      assert checklist[..i + 1][..i] == checklist[..i];
      i := i + 1;
    }
    assert checklist[..i] == checklist;
  }

  /** Unlike the newer filter, a name two filters select is run twice. */
  lemma FilteredChecksRepeats()
    ensures FilteredChecks(["check_files"], ["check", "check_"]) == ["check_files", "check_files"]
  {
    assert ["check_files"][..0] == [];
    assert PrefixMatches("check_files", ["check", "check_"]) == 2 by {
      assert ["check", "check_"][..1] == ["check"];
      assert [ "check" ][..0] == [];
      assert StartsWith("check_files", "check");
      assert StartsWith("check_files", "check_");
    }
  }

  /** The newer filter returns the same name once for the same input. */
  lemma FilteredCommandsOnce(wildcard: Wildcard)
    ensures FilteredCommands(["check_files"], ["check", "check_"], wildcard) == ["check_files"]
  {
    assert ["check_files"][..0] == [];
    var filter := ["check", "check_"];
    assert StartsWith("check_files", filter[0]);
    assert Selects("check_files", filter, wildcard);
  }
}
