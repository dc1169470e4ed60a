// The tables of the Dependabot check module
// (github_linter/tests/dependabot/constants.py): the schedule intervals and
// the package ecosystems with the repository languages each one serves.
module DependabotConstants {
  import opened Text
  import opened PyDict

  /** `DEPENDABOT_SCHEDULE_INTERVALS`, in this order. */
  const ScheduleIntervals: seq<string> := ["daily", "weekly", "monthly"]

  /** `PACKAGE_ECOSYSTEM`, in its insertion order: ecosystem to languages. */
  const PackageEcosystem: Dict<seq<string>> := [
    Entry("bundler", []),
    Entry("cargo", ["rust"]),
    Entry("composer", []),
    Entry("docker", []),
    Entry("mix", []),
    Entry("elm", []),
    Entry("gitsubmodule", []),
    Entry("github-actions", []),
    Entry("gomod", []),
    Entry("gradle", []),
    Entry("maven", []),
    Entry("npm", []),
    Entry("nuget", []),
    Entry("pip", ["python"]),
    Entry("terraform", ["HCL"])
  ]

  /** `name in PACKAGE_ECOSYSTEM`. */
  predicate IsEcosystem(name: string)
  {
    exists i :: 0 <= i < |PackageEcosystem| && PackageEcosystem[i].key == name
  }

  /** The table has fifteen keys, and no two of them are equal. */
  lemma EcosystemTableKeys()
    ensures |PackageEcosystem| == 15 && UniqueKeys(PackageEcosystem)
  {
    var t := PackageEcosystem;
    forall i, j | 0 <= i < j < |t|
      ensures t[i].key != t[j].key
    {
      assert |t[i].key| != |t[j].key| || t[i].key[0] != t[j].key[0];
    }
  }

  /** Only cargo, pip and terraform list a language (rust, python and HCL); every other key lists none. */
  lemma EcosystemTableLanguages()
    ensures forall i :: 0 <= i < |PackageEcosystem| && i != 1 && i != 13 && i != 14 ==> PackageEcosystem[i].value == []
    ensures PackageEcosystem[1] == Entry("cargo", ["rust"])
    ensures PackageEcosystem[13] == Entry("pip", ["python"])
    ensures PackageEcosystem[14] == Entry("terraform", ["HCL"])
  {
  }

  /** The languages an ecosystem serves, lowered as the lookup compares them. */
  predicate Serves(i: int, language: string)
    requires 0 <= i < |PackageEcosystem|
  {
    exists k :: 0 <= k < |PackageEcosystem[i].value| && Lower(PackageEcosystem[i].value[k]) == Lower(language)
  }

  /** Which lowered names each row of the table serves. */
  lemma ServesExplicit(i: int, language: string)
    requires 0 <= i < |PackageEcosystem|
    ensures Serves(i, language) <==>
      (i == 1 && Lower(language) == "rust") || (i == 13 && Lower(language) == "python") ||
      (i == 14 && Lower(language) == "hcl")
  {
    EcosystemTableLanguages();
    TableLanguagesLowered();
    var names := PackageEcosystem[i].value;
    if i == 1 || i == 13 || i == 14 {
      assert |names| == 1;
      assert Serves(i, language) <==> Lower(names[0]) == Lower(language);
    } else {
      assert names == [];
    }
  }

  /** The three languages of the table, lowered. */
  lemma TableLanguagesLowered()
    ensures Lower("rust") == "rust" && Lower("python") == "python" && Lower("HCL") == "hcl"
  {
    assert Lower("rust") == "rust";
    assert Lower("python") == "python";
    assert Lower("HCL") == "hcl";
  }

  /** No language is served by two ecosystems, so the first match is the only match. */
  lemma LookupUnambiguous(i: int, j: int, language: string)
    requires 0 <= i < |PackageEcosystem| && 0 <= j < |PackageEcosystem|
    requires Serves(i, language) && Serves(j, language)
    ensures i == j
  {
    ServesExplicit(i, language);
    ServesExplicit(j, language);
  }
}
