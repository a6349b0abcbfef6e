/** `extract_vue_value`: strips Vue reactive wrappers off a state value. A
    wrapper is a mapping with a `_value` key, else with a `_rawValue` key, else
    whose only key not starting with "__" is `value`. The decoded state is a
    finite tree, so structural recursion terminates without a cycle guard. */
module VueValue {
  import opened Strings
  import opened PyJson

  /** The keys of a mapping that do not start with "__". */
  function PlainKeys(fs: Fields): (r: seq<string>)
    ensures |r| <= |fs|
    ensures forall k :: k in r ==> !StartsWith(k, "__")
    decreases |fs|
  {
    if |fs| == 0 then []
    else (if StartsWith(fs[0].0, "__") then [] else [fs[0].0]) + PlainKeys(fs[1..])
  }

  predicate IsWrapper(v: Json) {
    v.JObj? && (HasKey(v.fields, "_value") || HasKey(v.fields, "_rawValue")
      || (HasKey(v.fields, "value") && |PlainKeys(v.fields)| == 1))
  }

  /** The value a wrapper stands for, one level down, in the precedence order
      `_value`, `_rawValue`, `value`. */
  function Inner(v: Json): (r: Json)
    requires IsWrapper(v)
    ensures r < v
  {
    var fs := v.fields;
    var i := KeyIndex(fs, "_value");
    var j := KeyIndex(fs, "_rawValue");
    var k := KeyIndex(fs, "value");
    if i < |fs| then fs[i].1 else if j < |fs| then fs[j].1 else fs[k].1
  }

  /** `extract_vue_value(obj)`. */
  function Unwrap(v: Json): (r: Json)
    ensures !IsWrapper(r)
    decreases v
  {
    if IsWrapper(v) then Unwrap(Inner(v)) else v
  }

  /** Anything that is not a wrapper (`None`, scalars, lists, ordinary
      mappings) is returned unchanged. */
  lemma UnwrapKeepsPlainValues(v: Json)
    requires !IsWrapper(v)
    ensures Unwrap(v) == v
  {
  }

  /** Unwrapping twice is unwrapping once. */
  lemma UnwrapIdempotent(v: Json)
    ensures Unwrap(Unwrap(v)) == Unwrap(v)
  {
    UnwrapKeepsPlainValues(Unwrap(v));
  }

  /** `_value` wins over `_rawValue`, which wins over a lone `value`. */
  lemma UnwrapPrecedence(fs: Fields)
    ensures HasKey(fs, "_value") ==> Unwrap(JObj(fs)) == Unwrap(Get(fs, "_value"))
    ensures !HasKey(fs, "_value") && HasKey(fs, "_rawValue") ==>
      Unwrap(JObj(fs)) == Unwrap(Get(fs, "_rawValue"))
    ensures (!HasKey(fs, "_value") && !HasKey(fs, "_rawValue") && HasKey(fs, "value")
      && |PlainKeys(fs)| == 1) ==> Unwrap(JObj(fs)) == Unwrap(Get(fs, "value"))
  {
  }

  /** A `value` key beside another plain key is ordinary data, not a wrapper. */
  lemma ValueWithSiblingIsData(x: Json, y: Json)
    ensures Unwrap(JObj([("value", x), ("label", y)])) == JObj([("value", x), ("label", y)])
  {
    var fs := [("value", x), ("label", y)];
    assert !StartsWith("value", "__") && !StartsWith("label", "__") by {
      assert "value"[..2] == "va" && "label"[..2] == "la";
    }
    assert fs[1..] == [("label", y)] && fs[1..][1..] == [];
    assert PlainKeys(fs[1..]) == ["label"];
    assert PlainKeys(fs) == ["value", "label"];
    assert !HasKey(fs, "_value") && !HasKey(fs, "_rawValue");
  }
}
