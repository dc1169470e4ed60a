// The result sinks of a lint session: `errors`, `warnings` and `fixes` are
// each a dict from a category to an ordered list of messages, filled by
// `add_result` (github_linter/repolinter.py:227-234).
module Sinks {
  import opened Wrappers
  import opened PyDict
  import opened Text

  type Sink = Dict<seq<string>>

  /** The messages filed under `category` (none if the category is absent). */
  function Messages(s: Sink, category: string): seq<string>
  {
    Get(s, category).GetOr([])
  }

  /**
   * `add_result`: create the category if it is missing, then append the
   * value unless it is already listed there.
   */
  function Added(s: Sink, category: string, value: string): Sink
  {
    var current := Get(s, category);
    if current.Some? && value in current.value then s
    else Put(s, category, current.GetOr([]) + [value])
  }

  /**
   * The category gains the value at its end when it did not list it yet,
   * no other category changes, and a new category is appended to the keys.
   */
  lemma AddedMessages(s: Sink, category: string, value: string)
    ensures Messages(Added(s, category, value), category) ==
      if value in Messages(s, category) then Messages(s, category) else Messages(s, category) + [value]
    ensures forall c :: c != category ==> Messages(Added(s, category, value), c) == Messages(s, c)
    ensures Keys(Added(s, category, value)) == if category in Keys(s) then Keys(s) else Keys(s) + [category]
  {
    var current := Get(s, category);
    PutKeys(s, category, current.GetOr([]) + [value]);
    PutGet(s, category, current.GetOr([]) + [value]);
  }

  /** Adding the same result twice is the same as adding it once. */
  lemma AddedIdempotent(s: Sink, category: string, value: string)
    ensures Added(Added(s, category, value), category, value) == Added(s, category, value)
  {
    AddedMessages(s, category, value);
  }

  /** Each `add_result` call of a sequence, in order. */
  function AddedAll(s: Sink, category: string, values: seq<string>): Sink
    decreases values
  {
    if values == [] then s else AddedAll(Added(s, category, values[0]), category, values[1..])
  }

  lemma {:induction false} AddedAllMessages(s: Sink, category: string, values: seq<string>)
    ensures Messages(AddedAll(s, category, values), category) == AppendAllNew(Messages(s, category), values)
    ensures forall c :: c != category ==> Messages(AddedAll(s, category, values), c) == Messages(s, c)
    decreases values
  {
    if values != [] {
      AddedMessages(s, category, values[0]);
      AddedAllMessages(Added(s, category, values[0]), category, values[1..]);
    }
  }

  /** Recording nothing leaves a sink as it was. */
  lemma AddedAllNothing(s: Sink, category: string)
    ensures AddedAll(s, category, []) == s
  {
  }

  /** A sink whose every message list is free of duplicates keeps that shape. */
  predicate DuplicateFree(s: Sink)
  {
    forall c :: c in Keys(s) ==> Distinct(Messages(s, c))
  }

  lemma {:induction false} AddedKeepsDuplicateFree(s: Sink, category: string, value: string)
    requires DuplicateFree(s)
    ensures DuplicateFree(Added(s, category, value))
  {
    var r := Added(s, category, value);
    AddedMessages(s, category, value);
    forall c | c in Keys(r) ensures Distinct(Messages(r, c)) {
      if c == category {
        var m := Messages(s, c);
        assert Distinct(m) by {
          if c !in Keys(s) { assert m == []; }
        }
        if value !in m {
          var n := m + [value];
          forall i, j | 0 <= i < j < |n| ensures n[i] != n[j] {
            if j == |m| { assert n[i] == m[i]; }
          }
        }
      } else {
        assert c in Keys(s);
      }
    }
  }
}
