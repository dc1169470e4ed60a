// Parsed TOML documents, as `tomli.loads` hands them back (tables keep the
// order of their keys), and the handful of Python operations the
// pyproject checks apply to them. Each operation that can raise gives None
// where Python raises.
module Toml {
  import opened Wrappers
  import opened Text
  import opened Config

  /** A TOML value; floats and dates are not modelled. */
  datatype Toml =
    | TBool(b: bool)
    | TInt(i: int)
    | TStr(s: string)
    | TArray(items: seq<Toml>)
    | TTable(entries: seq<(string, Toml)>)

  /** What `tomli.loads` does with a text: a document, or a `TOMLDecodeError` and its message. */
  datatype TomlParse = Parsed(doc: Toml) | DecodeError(message: string)

  function TableKeys(entries: seq<(string, Toml)>): (r: seq<string>)
    ensures |r| == |entries| && forall i :: 0 <= i < |entries| ==> r[i] == entries[i].0
  {
    seq(|entries|, i requires 0 <= i < |entries| => entries[i].0)
  }

  /** The value under `key`: the first entry with it (a parsed table has no repeated key). */
  function TLookup(entries: seq<(string, Toml)>, key: string): (r: Option<Toml>)
    ensures r.Some? <==> key in TableKeys(entries)
    decreases |entries|
  {
    if entries == [] then None
    else if entries[0].0 == key then Some(entries[0].1)
    else
      var rest := TLookup(entries[1..], key);
      assert TableKeys(entries) == [entries[0].0] + TableKeys(entries[1..]);
      rest
  }

  /** Python truthiness. */
  predicate TTruthy(t: Toml)
  {
    match t
    case TBool(b) => b
    case TInt(i) => i != 0
    case TStr(s) => s != ""
    case TArray(items) => items != []
    case TTable(entries) => entries != []
  }

  /** `key in t` for a string key. */
  function THasKey(t: Toml, key: string): Option<bool>
  {
    match t
    case TTable(entries) => Some(key in TableKeys(entries))
    case TArray(items) => Some(TStr(key) in items)
    case TStr(s) => Some(Contains(s, key))
    case _ => None
  }

  /** `t.get(key)`: None (outer) where `t` has no `get`, a missing key gives Some(None). */
  function TGet(t: Toml, key: string): Option<Option<Toml>>
  {
    if t.TTable? then Some(TLookup(t.entries, key)) else None
  }

  /** A list index in Python's range, counted from the end when negative. */
  function ListIndex(n: nat, i: int): Option<nat>
    ensures var r := ListIndex(n, i); r.Some? ==> r.value < n
  {
    if 0 <= i < n then Some(i) else if i < 0 && 0 <= n + i then Some(n + i) else None
  }

  /** An int or a bool used as an index (a bool is the int 0 or 1). */
  function AsIndex(key: Toml): Option<int>
  {
    match key
    case TInt(i) => Some(i)
    case TBool(b) => Some(if b then 1 else 0)
    case _ => None
  }

  /** `t[key]`. */
  function Index(t: Toml, key: Toml): Option<Toml>
  {
    match t
    case TTable(entries) => if key.TStr? then TLookup(entries, key.s) else None
    case TArray(items) =>
      var i := AsIndex(key);
      if i.None? then None
      else
        var k := ListIndex(|items|, i.value);
        if k.None? then None else Some(items[k.value])
    case TStr(s) =>
      var i := AsIndex(key);
      if i.None? then None
      else
        var k := ListIndex(|s|, i.value);
        if k.None? then None else Some(TStr([s[k.value]]))
    case _ => None
  }

  function Chars(s: string): (r: seq<Toml>)
    ensures |r| == |s| && forall i :: 0 <= i < |s| ==> r[i] == TStr([s[i]])
  {
    seq(|s|, i requires 0 <= i < |s| => TStr([s[i]]))
  }

  function KeyValues(entries: seq<(string, Toml)>): (r: seq<Toml>)
    ensures |r| == |entries| && forall i :: 0 <= i < |entries| ==> r[i] == TStr(entries[i].0)
  {
    seq(|entries|, i requires 0 <= i < |entries| => TStr(entries[i].0))
  }

  /** What `for x in t` runs over: a table's keys, an array's items, a string's characters. */
  function Iterate(t: Toml): Option<seq<Toml>>
  {
    match t
    case TTable(entries) => Some(KeyValues(entries))
    case TArray(items) => Some(items)
    case TStr(s) => Some(Chars(s))
    case _ => None
  }

  /** `repr(t)`; strings are quoted with `'`, without Python's escapes. */
  function Repr(t: Toml): string
    decreases t
  {
    match t
    case TBool(b) => BoolToString(b)
    case TInt(i) => IntToString(i)
    case TStr(s) => "'" + s + "'"
    case TArray(items) => "[" + Join(seq(|items|, i requires 0 <= i < |items| => Repr(items[i])), ", ") + "]"
    case TTable(entries) =>
      "{" + Join(seq(|entries|, i requires 0 <= i < |entries| => "'" + entries[i].0 + "': " + Repr(entries[i].1)), ", ") + "}"
  }

  /** `str(t)`, as an f-string shows it. */
  function Show(t: Toml): string
  {
    if t.TStr? then t.s else Repr(t)
  }

  function BoolInt(b: bool): int
  {
    if b then 1 else 0
  }

  /** Python's `t == v` between a parsed TOML value and a loaded configuration value. */
  predicate SameAs(t: Toml, v: Value)
    decreases t
  {
    match t
    case TBool(b) => (v.Bool? && v.b == b) || (v.Int? && v.i == BoolInt(b))
    case TInt(i) => (v.Int? && v.i == i) || (v.Bool? && BoolInt(v.b) == i)
    case TStr(s) => v.Str? && v.s == s
    case TArray(items) => v.List? && |v.items| == |items| && forall i :: 0 <= i < |items| ==> SameAs(items[i], v.items[i])
    case TTable(entries) =>
      v.Dict? && v.entries.Keys == (set i | 0 <= i < |entries| :: entries[i].0) &&
      forall i :: 0 <= i < |entries| ==> entries[i].0 in v.entries && SameAs(entries[i].1, v.entries[entries[i].0])
  }

  /** Python's `t in v` for a parsed value and a configuration value. */
  function InValue(t: Toml, v: Value): Option<bool>
  {
    match v
    case List(items) => Some(exists i :: 0 <= i < |items| && SameAs(t, items[i]))
    case Dict(entries) =>
      if t.TStr? then Some(t.s in entries)
      else if t.TInt? || t.TBool? then Some(false)
      else None
    case Str(s) => if t.TStr? then Some(Contains(s, t.s)) else None
    case _ => None
  }

  /** Some order of a set of keys: the order a loaded mapping kept them in, which the model does not know. */
  ghost function KeyOrder(keys: set<string>): (r: seq<string>)
    ensures |r| == |keys| && forall k :: k in r <==> k in keys
    decreases |keys|
  {
    if keys == {} then []
    else
      var k :| k in keys;
      [k] + KeyOrder(keys - {k})
  }

  /** `repr(v)` for a configuration value, a mapping's keys in some order. */
  ghost function ValueRepr(v: Value): string
    decreases v
  {
    match v
    case Null => "None"
    case Bool(b) => BoolToString(b)
    case Int(i) => IntToString(i)
    case Str(s) => "'" + s + "'"
    case List(items) => "[" + Join(seq(|items|, i requires 0 <= i < |items| => ValueRepr(items[i])), ", ") + "]"
    case Dict(entries) =>
      var order := KeyOrder(entries.Keys);
      "{" + Join(seq(|order|, i requires 0 <= i < |order| => "'" + order[i] + "': " + ValueRepr(entries[order[i]])), ", ") + "}"
  }

  /** `str(v)` for a configuration value. */
  ghost function ValueShow(v: Value): string
  {
    if v.Str? then v.s else ValueRepr(v)
  }
}
