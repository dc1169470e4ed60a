// The language gate `module_language_check` (github_linter/repolinter.py:208-225;
// the older copy in github_linter/__init__.py:338-355 is identical).
module Languages {
  import opened Text

  /** `[lang.lower() for lang in languages]`. */
  function LowerAll(languages: seq<string>): (r: seq<string>)
    ensures |r| == |languages|
    ensures forall i :: 0 <= i < |languages| ==> r[i] == Lower(languages[i])
  {
    seq(|languages|, i requires 0 <= i < |languages| => Lower(languages[i]))
  }

  /**
   * A module applies to a repository when it lists "all", or when one of its
   * languages equals one of the repository's, ignoring case.
   */
  predicate Applies(moduleLanguages: seq<string>, repoLanguages: seq<string>)
  {
    "all" in moduleLanguages ||
    exists i, j :: 0 <= i < |moduleLanguages| && 0 <= j < |repoLanguages| &&
                   Lower(moduleLanguages[i]) == Lower(repoLanguages[j])
  }

  /** `module_language_check`. */
  method ModuleLanguageCheck(moduleLanguages: seq<string>, repoLanguages: seq<string>) returns (ok: bool)
    ensures ok == Applies(moduleLanguages, repoLanguages)
  {
    if "all" in moduleLanguages {
      return true;
    }
    var repoLangs := LowerAll(repoLanguages);
    var i := 0;
    while i < |moduleLanguages|
      invariant 0 <= i <= |moduleLanguages|
      invariant forall k, j :: 0 <= k < i && 0 <= j < |repoLanguages| ==> Lower(moduleLanguages[k]) != Lower(repoLanguages[j])
    {
      if Lower(moduleLanguages[i]) in repoLangs {
        ghost var j :| 0 <= j < |repoLangs| && repoLangs[j] == Lower(moduleLanguages[i]);
        assert Lower(moduleLanguages[i]) == Lower(repoLanguages[j]);
        return true;
      }
      i := i + 1;
    }
    return false;
  }

  /** The gate ignores case on both sides. */
  lemma AppliesIgnoresCase(lang: string, repoLanguages: seq<string>, j: int)
    requires 0 <= j < |repoLanguages| && Lower(lang) == Lower(repoLanguages[j])
    ensures Applies([lang], repoLanguages)
  {
    assert [lang][0] == lang;
  }

  /** A module listing only the literal "ALL" passes this gate only for a repository language spelled "all" in some case. */
  lemma UpperAllIsNotAll(repoLanguages: seq<string>)
    ensures Applies(["ALL"], repoLanguages) <==> exists j :: 0 <= j < |repoLanguages| && Lower(repoLanguages[j]) == "all"
  {
    assert Lower("ALL") == "all";
    if exists j :: 0 <= j < |repoLanguages| && Lower(repoLanguages[j]) == "all" {
      var j :| 0 <= j < |repoLanguages| && Lower(repoLanguages[j]) == "all";
      assert Lower(["ALL"][0]) == Lower(repoLanguages[j]);
    }
  }
}
