// Loaded configuration values (JSON documents) and the recursive default
// merge `add_from_dict` (github_linter/repolinter.py:21-31).
module Config {
  import opened Wrappers
  import opened Text

  datatype Value =
    | Null
    | Bool(b: bool)
    | Int(i: int)
    | Str(s: string)
    | List(items: seq<Value>)
    | Dict(entries: map<string, Value>)

  /** Python truthiness of a JSON value. */
  predicate Truthy(v: Value)
  {
    match v
    case Null => false
    case Bool(b) => b
    case Int(i) => i != 0
    case Str(s) => s != ""
    case List(items) => items != []
    case Dict(entries) => entries != map[]
  }

  /** `d.get(key, default)` on a mapping value; a non-mapping has no keys here. */
  function GetOr(v: Value, key: string, default: Value): Value
  {
    if v.Dict? && key in v.entries then v.entries[key] else default
  }

  /** The truthiness of `d.get(key, default)`. */
  predicate Flag(v: Value, key: string, default: bool)
  {
    if v.Dict? && key in v.entries then Truthy(v.entries[key]) else default
  }

  /**
   * `add_from_dict(source, dest)`: the new value of `dest`, or None where
   * Python raises a TypeError. A falsy source changes nothing. Each key of
   * the source that `dest` lacks is copied; where `dest` already holds a
   * mapping under that key the merge recurses; any other existing value is
   * kept. Iterating a truthy non-mapping source (a string, list, number) and
   * subscripting it fails, and so does storing into a non-mapping `dest`.
   */
  function AddFromDict(source: Value, dest: Value): (r: Option<Value>)
    decreases source
  {
    if !Truthy(source) then Some(dest)
    else if !source.Dict? || !dest.Dict? then None
    else if exists k :: k in source.entries && k in dest.entries && dest.entries[k].Dict? &&
                        AddFromDict(source.entries[k], dest.entries[k]).None? then None
    else
      Some(Dict(map k | k in source.entries.Keys + dest.entries.Keys ::
        if k !in dest.entries then source.entries[k]
        else if k in source.entries && dest.entries[k].Dict? then AddFromDict(source.entries[k], dest.entries[k]).value
        else dest.entries[k]))
  }

  /** Values already in `dest` are never replaced, only merged into. */
  lemma AddFromDictKeepsExisting(source: Value, dest: Value)
    requires dest.Dict? && AddFromDict(source, dest).Some?
    ensures var r := AddFromDict(source, dest).value;
      r.Dict? &&
      (forall k :: k in dest.entries ==> k in r.entries) &&
      (forall k :: k in dest.entries && !dest.entries[k].Dict? ==> r.entries[k] == dest.entries[k])
  {
  }

  /** Keys that `dest` lacks take the default; nothing else is added. */
  lemma AddFromDictFillsMissing(source: Value, dest: Value)
    requires source.Dict? && dest.Dict? && AddFromDict(source, dest).Some?
    ensures var r := AddFromDict(source, dest).value;
      r.Dict? &&
      (forall k :: k in source.entries && k !in dest.entries ==> k in r.entries && r.entries[k] == source.entries[k]) &&
      (forall k :: k in r.entries ==> k in source.entries || k in dest.entries)
  {
  }

  /** Merging a mapping into itself changes nothing. */
  lemma {:induction false} AddFromDictSelf(v: Value)
    requires v.Dict?
    ensures AddFromDict(v, v) == Some(v)
    decreases v
  {
    if Truthy(v) {
      forall k | k in v.entries && v.entries[k].Dict?
        ensures AddFromDict(v.entries[k], v.entries[k]) == Some(v.entries[k])
      {
        AddFromDictSelf(v.entries[k]);
      }
      var r := AddFromDict(v, v).value;
      assert r.entries == v.entries;
    }
  }

  /**
   * Loading the same defaults twice is the same as loading them once: a
   * second merge of `source` finds nothing left to fill.
   */
  lemma {:induction false} AddFromDictIdempotent(source: Value, dest: Value)
    requires AddFromDict(source, dest).Some?
    ensures AddFromDict(source, AddFromDict(source, dest).value) == AddFromDict(source, dest)
    decreases source
  {
    if Truthy(source) {
      var r := AddFromDict(source, dest).value;
      forall k | k in source.entries && k in r.entries && r.entries[k].Dict?
        ensures AddFromDict(source.entries[k], r.entries[k]) == Some(r.entries[k])
      {
        if k !in dest.entries {
          AddFromDictSelf(source.entries[k]);
        } else if dest.entries[k].Dict? {
          AddFromDictIdempotent(source.entries[k], dest.entries[k]);
        }
      }
      var r2 := AddFromDict(source, r).value;
      assert r2.entries == r.entries;
    }
  }

  /** The texts of a list of strings, or None when some item is not a string. */
  function StringItems(items: seq<Value>): (r: Option<seq<string>>)
    ensures r.Some? <==> forall k :: 0 <= k < |items| ==> items[k].Str?
    ensures r.Some? ==> |r.value| == |items| && forall k :: 0 <= k < |items| ==> items[k] == Str(r.value[k])
  {
    if forall k :: 0 <= k < |items| ==> items[k].Str?
    then Some(seq(|items|, k requires 0 <= k < |items| => items[k].s))
    else None
  }

  /** The one-character strings that `for c in s` yields. */
  function Characters(s: string): (r: seq<string>)
    ensures |r| == |s| && forall k :: 0 <= k < |s| ==> r[k] == [s[k]]
  {
    seq(|s|, k requires 0 <= k < |s| => [s[k]])
  }

  /** Putting the characters back together gives the string again. */
  lemma {:induction false} CharactersJoin(s: string)
    ensures Join(Characters(s), "") == s
    decreases |s|
  {
    if |s| > 1 {
      assert Characters(s)[1..] == Characters(s[1..]);
      CharactersJoin(s[1..]);
      assert s == [s[0]] + s[1..];
    }
  }

  /**
   * The strings `for x in v` yields, where every one of them is a string
   * whose order the model knows: a string's characters or the items of a
   * list of strings; None for any other value.
   */
  function IteratedStrings(v: Value): (r: Option<seq<string>>)
    ensures v.Str? ==> r == Some(Characters(v.s))
    ensures v.List? ==> r == StringItems(v.items)
    ensures r.Some? ==> v.Str? || v.List?
  {
    match v
    case Str(s) => Some(Characters(s))
    case List(items) => StringItems(items)
    case _ => None
  }

  /** Python's `key in doc`, or None where it raises a TypeError (a number, a bool, None). */
  function HasKey(doc: Value, key: string): Option<bool>
  {
    match doc
    case Dict(entries) => Some(key in entries)
    case List(items) => Some(Str(key) in items)
    case Str(s) => Some(Contains(s, key))
    case _ => None
  }
}
