// Python string operations the linter relies on: prefix, suffix and substring
// tests, ASCII lower-casing, joining, number formatting, and `sorted()` on
// a list of strings (code-point lexicographic order).
module Text {

  predicate StartsWith(s: string, prefix: string)
  {
    |prefix| <= |s| && s[..|prefix|] == prefix
  }

  predicate EndsWith(s: string, suffix: string)
  {
    |suffix| <= |s| && s[|s| - |suffix|..] == suffix
  }

  /** Python's `sub in s` for two strings. */
  predicate Contains(s: string, sub: string)
    decreases |s|
  {
    StartsWith(s, sub) || (|s| > 0 && Contains(s[1..], sub))
  }

  lemma {:induction false} ContainsItself(s: string)
    ensures Contains(s, s)
  {
    assert s[..|s|] == s;
  }

  lemma {:induction false} ContainsPrefixOfSuffix(s: string, sub: string, i: nat)
    requires i + |sub| <= |s| && s[i..i + |sub|] == sub
    ensures Contains(s, sub)
  {
    if i > 0 {
      assert s[1..][i - 1..i - 1 + |sub|] == s[i..i + |sub|];
      ContainsPrefixOfSuffix(s[1..], sub, i - 1);
    }
  }

  /** Where `sub` occurs in `s` when `sub in s`. */
  lemma {:induction false} ContainsAt(s: string, sub: string) returns (i: nat)
    requires Contains(s, sub)
    ensures i + |sub| <= |s| && s[i..i + |sub|] == sub
    decreases |s|
  {
    if StartsWith(s, sub) {
      i := 0;
    } else {
      var j := ContainsAt(s[1..], sub);
      i := j + 1;
      assert s[i..i + |sub|] == s[1..][j..j + |sub|];
    }
  }

  /** Whatever contains `prefix + sub` contains `sub`. */
  lemma ContainsOfLonger(s: string, prefix: string, sub: string)
    requires Contains(s, prefix + sub)
    ensures Contains(s, sub)
  {
    var i := ContainsAt(s, prefix + sub);
    assert s[i + |prefix|..i + |prefix| + |sub|] == (prefix + sub)[|prefix|..];
    assert (prefix + sub)[|prefix|..] == sub;
    ContainsPrefixOfSuffix(s, sub, i + |prefix|);
  }

  function LowerChar(c: char): char
  {
    if 'A' <= c <= 'Z' then (c as int + 32) as char else c
  }

  /** `str.lower()`, restricted to the ASCII letters. */
  function Lower(s: string): (r: string)
    ensures |r| == |s|
    ensures forall i :: 0 <= i < |s| ==> r[i] == LowerChar(s[i])
  {
    if s == [] then [] else [LowerChar(s[0])] + Lower(s[1..])
  }

  /** `sep.join(parts)`. */
  function Join(parts: seq<string>, sep: string): string
  {
    if |parts| == 0 then ""
    else if |parts| == 1 then parts[0]
    else parts[0] + sep + Join(parts[1..], sep)
  }

  /** `s.split(sep)[0]` for a one-character separator. */
  function BeforeFirst(s: string, sep: char): (r: string)
    ensures StartsWith(s, r)
    ensures sep !in r
    ensures |r| < |s| ==> s[|r|] == sep
  {
    if s == [] then ""
    else if s[0] == sep then ""
    else [s[0]] + BeforeFirst(s[1..], sep)
  }

  function DigitChar(d: nat): char
    requires d < 10
  {
    "0123456789"[d]
  }

  function NatToString(n: nat): (r: string)
    ensures |r| > 0
  {
    if n < 10 then [DigitChar(n)] else NatToString(n / 10) + [DigitChar(n % 10)]
  }

  /** `str(n)` for an int. */
  function IntToString(n: int): string
  {
    if n < 0 then "-" + NatToString(-n) else NatToString(n)
  }

  /** `str(b)` for a bool. */
  function BoolToString(b: bool): string
  {
    if b then "True" else "False"
  }

  /** `if x not in s: s.append(x)`. */
  function AppendNew(s: seq<string>, x: string): (r: seq<string>)
    ensures x in r
    ensures forall y :: y in r <==> y in s || y == x
  {
    if x in s then s else s + [x]
  }

  /** `prior + [v for v in values if v is new]`, first occurrence wins. */
  function AppendAllNew(prior: seq<string>, values: seq<string>): seq<string>
    decreases values
  {
    if values == [] then prior
    else AppendAllNew(if values[0] in prior then prior else prior + [values[0]], values[1..])
  }

  lemma {:induction false} AppendAllNewMembers(prior: seq<string>, values: seq<string>, x: string)
    ensures x in AppendAllNew(prior, values) <==> x in prior || x in values
    decreases values
  {
    if values != [] {
      AppendAllNewMembers(if values[0] in prior then prior else prior + [values[0]], values[1..], x);
    }
  }

  lemma {:induction false} AppendAllNewSnoc(prior: seq<string>, values: seq<string>, x: string)
    ensures AppendAllNew(prior, values + [x]) == AppendNew(AppendAllNew(prior, values), x)
    decreases values
  {
    if values == [] {
      assert [x][1..] == [];
    } else {
      assert (values + [x])[0] == values[0];
      assert (values + [x])[1..] == values[1..] + [x];
      AppendAllNewSnoc(if values[0] in prior then prior else prior + [values[0]], values[1..], x);
    }
  }

  /** `set(xs) - set(ys)`, listed once each in the order first met in `xs`. */
  function Without(xs: seq<string>, ys: seq<string>): seq<string>
    decreases |xs|
  {
    if xs == [] then []
    else
      var prior := Without(xs[..|xs| - 1], ys);
      if xs[|xs| - 1] in ys then prior else AppendNew(prior, xs[|xs| - 1])
  }

  lemma {:induction false} WithoutMembers(xs: seq<string>, ys: seq<string>, c: string)
    ensures c in Without(xs, ys) <==> c in xs && c !in ys
    decreases |xs|
  {
    if xs != [] {
      WithoutMembers(xs[..|xs| - 1], ys, c);
      assert xs == xs[..|xs| - 1] + [xs[|xs| - 1]];
    }
  }

  /** Two lists hold the same members, as `set(a) == set(b)` compares them. */
  predicate SameMembers(a: seq<string>, b: seq<string>)
  {
    (forall c :: c in a ==> c in b) && (forall c :: c in b ==> c in a)
  }

  predicate Distinct(m: seq<string>)
  {
    forall i, j :: 0 <= i < j < |m| ==> m[i] != m[j]
  }

  /** A set difference lists each name once, as `set(xs) - set(ys)` holds it once. */
  lemma {:induction false} WithoutDistinct(xs: seq<string>, ys: seq<string>)
    ensures Distinct(Without(xs, ys))
    decreases |xs|
  {
    if xs != [] {
      var prior := Without(xs[..|xs| - 1], ys);
      WithoutDistinct(xs[..|xs| - 1], ys);
      var x := xs[|xs| - 1];
      if x !in ys && x !in prior {
        var r := prior + [x];
        forall i, j | 0 <= i < j < |r| ensures r[i] != r[j] {
          if j == |prior| { assert r[i] == prior[i]; }
        }
      }
    }
  }

  lemma {:induction false} AppendAllNewKeepsDistinct(prior: seq<string>, values: seq<string>)
    requires Distinct(prior)
    ensures Distinct(AppendAllNew(prior, values))
    decreases values
  {
    if values != [] {
      var next := if values[0] in prior then prior else prior + [values[0]];
      forall i, j | 0 <= i < j < |next| ensures next[i] != next[j] {
        if j == |prior| { assert next[j] == values[0] && next[i] == prior[i]; }
      }
      AppendAllNewKeepsDistinct(next, values[1..]);
    }
  }

  // Code-point lexicographic order, as Python compares `str` values.

  predicate LessEq(a: string, b: string)
  {
    |a| == 0 || (|b| > 0 && (a[0] < b[0] || (a[0] == b[0] && LessEq(a[1..], b[1..]))))
  }

  lemma {:induction false} LessEqTotal(a: string, b: string)
    ensures LessEq(a, b) || LessEq(b, a)
  {
    if |a| > 0 && |b| > 0 && a[0] == b[0] {
      LessEqTotal(a[1..], b[1..]);
    }
  }

  /** A string sorts after another once, after a common prefix, its next character is greater. */
  lemma {:induction false} NotLessEqAt(a: string, b: string, k: nat)
    requires k < |a| && k < |b| && a[..k] == b[..k] && a[k] > b[k]
    ensures !LessEq(a, b)
  {
    if k > 0 {
      assert a[0] == a[..k][0] && b[0] == b[..k][0];
      assert a[1..][..k - 1] == a[..k][1..] && b[1..][..k - 1] == b[..k][1..];
      NotLessEqAt(a[1..], b[1..], k - 1);
    }
  }

  lemma {:induction false} LessEqTransitive(a: string, b: string, c: string)
    requires LessEq(a, b) && LessEq(b, c)
    ensures LessEq(a, c)
  {
    if |a| > 0 && a[0] == b[0] && b[0] == c[0] {
      LessEqTransitive(a[1..], b[1..], c[1..]);
    }
  }

  predicate Sorted(s: seq<string>)
  {
    forall i, j :: 0 <= i < j < |s| ==> LessEq(s[i], s[j])
  }

  /** In a sorted list, a string that sorts after the entry at `i` occurs nowhere up to `i`. */
  lemma SortedNoneBefore(s: seq<string>, i: nat, w: string)
    requires Sorted(s) && i < |s| && !LessEq(w, s[i])
    ensures w !in s[..i + 1]
  {
    LessEqTotal(w, w);
    forall j | 0 <= j <= i ensures s[j] != w {
      if j < i { assert LessEq(s[j], s[i]); }
    }
  }

  function Insert(x: string, s: seq<string>): (r: seq<string>)
    ensures multiset(r) == multiset(s) + multiset{x}
  {
    if s == [] then [x]
    else if LessEq(x, s[0]) then [x] + s
    else
      assert s == [s[0]] + s[1..];
      [s[0]] + Insert(x, s[1..])
  }

  lemma {:induction false} InsertSorted(x: string, s: seq<string>)
    requires Sorted(s)
    ensures Sorted(Insert(x, s))
  {
    if s == [] {
    } else if LessEq(x, s[0]) {
      var r := [x] + s;
      forall i, j | 0 <= i < j < |r| ensures LessEq(r[i], r[j]) {
        if i == 0 && j > 1 {
          LessEqTransitive(x, s[0], s[j - 1]);
        }
      }
    } else {
      LessEqTotal(x, s[0]);
      InsertSorted(x, s[1..]);
      var t := Insert(x, s[1..]);
      forall k | 0 <= k < |t| ensures LessEq(s[0], t[k]) {
        assert t[k] in multiset(t);
        if t[k] != x {
          assert t[k] in multiset(s[1..]);
          var m :| 0 <= m < |s[1..]| && s[1..][m] == t[k];
          assert s[m + 1] == t[k];
        }
      }
      var r := [s[0]] + t;
      forall i, j | 0 <= i < j < |r| ensures LessEq(r[i], r[j]) {
        if i > 0 {
          assert r[i] == t[i - 1] && r[j] == t[j - 1];
        }
      }
    }
  }

  /** Python's `sorted()` on a list of strings. */
  function Sort(s: seq<string>): (r: seq<string>)
    ensures multiset(r) == multiset(s)
    ensures Sorted(r)
  {
    if s == [] then []
    else
      var rest := Sort(s[1..]);
      InsertSorted(s[0], rest);
      assert s == [s[0]] + s[1..];
      Insert(s[0], rest)
  }

  lemma SortKeepsMembers(s: seq<string>, x: string)
    ensures x in Sort(s) <==> x in s
  {
    assert x in Sort(s) <==> x in multiset(Sort(s));
    assert x in s <==> x in multiset(s);
  }

  /**
   * In a sorted list every name starting with "check_" comes before every
   * name starting with "fix_", because 'c' < 'f'.
   */
  lemma ChecksSortBeforeFixes(s: seq<string>, i: int, j: int)
    requires Sorted(s) && 0 <= i < |s| && 0 <= j < |s|
    requires StartsWith(s[i], "check_") && StartsWith(s[j], "fix_")
    ensures i < j
  {
    assert s[i][0] == 'c' by { assert s[i][..6][0] == s[i][0]; }
    assert s[j][0] == 'f' by { assert s[j][..4][0] == s[j][0]; }
  }
}
