/** The decoded client state: a JSON tree as Python holds it after `json.loads`
    (or after the browser-side serialiser), with Python's truthiness, `dict.get`
    and `str()` on it. An object is an association list in insertion order; a
    decoded object never repeats a key, and every lookup here returns the first
    binding, so nothing below depends on that. */
module PyJson {
  import opened Strings

  datatype Option<+T> = None | Some(value: T)

  datatype Json =
    | JNull
    | JBool(b: bool)
    | JInt(n: int)
    | JStr(s: string)
    | JList(items: seq<Json>)
    | JObj(fields: seq<(string, Json)>)

  type Fields = seq<(string, Json)>

  /** A value, or the Python exception raised instead of returning it. */
  datatype Result<+T> = Ok(value: T) | AttributeError(detail: string) | TypeError(detail: string)

  /** The same exception, passed on by a caller that does not catch it. */
  function Propagate<T, U>(r: Result<T>): (e: Result<U>)
    requires !r.Ok?
    ensures !e.Ok? && e.detail == r.detail
    ensures e.AttributeError? <==> r.AttributeError?
  {
    if r.AttributeError? then AttributeError(r.detail) else TypeError(r.detail)
  }

  /** Python's truth value: `None`, `False`, `0`, `""`, `[]` and `{}` are false. */
  predicate Truthy(v: Json) {
    match v
    case JNull => false
    case JBool(b) => b
    case JInt(n) => n != 0
    case JStr(s) => |s| > 0
    case JList(xs) => |xs| > 0
    case JObj(fs) => |fs| > 0
  }

  /** Python's `a or b`. */
  function Or(a: Json, b: Json): Json {
    if Truthy(a) then a else b
  }

  /** Position of the first binding of `key`, or `|fs|`. */
  function KeyIndex<V>(fs: seq<(string, V)>, key: string): (i: nat)
    ensures i <= |fs|
    ensures i < |fs| ==> fs[i].0 == key
    ensures forall j :: 0 <= j < i ==> fs[j].0 != key
    decreases |fs|
  {
    if |fs| == 0 then 0 else if fs[0].0 == key then 0 else 1 + KeyIndex(fs[1..], key)
  }

  /** `key in d`. */
  predicate HasKey(fs: Fields, key: string) {
    KeyIndex(fs, key) < |fs|
  }

  /** `d.get(key, default)`. */
  function GetOr(fs: Fields, key: string, default: Json): Json {
    var i := KeyIndex(fs, key);
    if i < |fs| then fs[i].1 else default
  }

  /** `d.get(key)`. */
  function Get(fs: Fields, key: string): Json {
    GetOr(fs, key, JNull)
  }

  /** `list(d.keys())`. */
  function Keys(fs: Fields): (r: seq<string>)
    ensures |r| == |fs| && forall i :: 0 <= i < |fs| ==> r[i] == fs[i].0
  {
    seq(|fs|, i requires 0 <= i < |fs| => fs[i].0)
  }

  lemma GetSomeIsField(fs: Fields, key: string)
    requires HasKey(fs, key)
    ensures exists i :: 0 <= i < |fs| && fs[i] == (key, Get(fs, key))
  {
    var i := KeyIndex(fs, key);
    assert fs[i] == (key, Get(fs, key));
  }

  /** `repr` of a string inside a container (quotes only; escapes are not rendered). */
  function QuoteRepr(s: string): string {
    "'" + s + "'"
  }

  /** Python's `str(v)`: strings as themselves, `None`/`True`/`False` by name,
      integers in decimal, lists and dicts in their bracketed `repr`. */
  function PyStr(v: Json): string
    decreases v, 1
  {
    match v
    case JNull => "None"
    case JBool(b) => if b then "True" else "False"
    case JInt(n) => IntToString(n)
    case JStr(s) => s
    case JList(xs) => "[" + ItemsRepr(v, xs) + "]"
    case JObj(fs) => "{" + FieldsRepr(v, fs) + "}"
  }

  function Repr(v: Json): string
    decreases v, 2
  {
    if v.JStr? then QuoteRepr(v.s) else PyStr(v)
  }

  function ItemsRepr(ghost parent: Json, xs: seq<Json>): string
    requires forall i :: 0 <= i < |xs| ==> xs[i] < parent
    decreases parent, 0, |xs|
  {
    if |xs| == 0 then ""
    else
      var one := Repr(xs[0]);
      if |xs| == 1 then one else one + ", " + ItemsRepr(parent, xs[1..])
  }

  function FieldsRepr(ghost parent: Json, fs: Fields): string
    requires forall i :: 0 <= i < |fs| ==> fs[i].1 < parent
    decreases parent, 0, |fs|
  {
    if |fs| == 0 then ""
    else
      var one := QuoteRepr(fs[0].0) + ": " + Repr(fs[0].1);
      if |fs| == 1 then one else one + ", " + FieldsRepr(parent, fs[1..])
  }

  /** `str(v)` is empty only for the empty string, so `str` of a truthy value is truthy. */
  lemma PyStrEmpty(v: Json)
    ensures PyStr(v) == "" <==> v == JStr("")
  {
  }

  /** Python's `str.startswith` applied to a JSON value that is a string. */
  predicate IsHttpString(v: Json) {
    v.JStr? && StartsWith(v.s, "http")
  }
}
