/** The text handling around the OCR engine: the noise filter, the walk over
    whatever nested structure the engine returns, and the joining of the
    per-image results. The engine itself, image download and temporary files
    are not modelled: an engine result and each image's OCR outcome are
    parameters. */
module Ocr {
  import opened Strings
  import opened PyJson

  /** A Python value in an OCR engine result. Dictionaries keep insertion
      order; `OScalar` is a number, `None` or a bool, with its truth value. */
  datatype OcrValue =
    | OStr(s: string)
    | OList(items: seq<OcrValue>)
    | OTuple(items: seq<OcrValue>)
    | ODict(entries: seq<(string, OcrValue)>)
    | OScalar(truthy: bool)

  predicate Truthy(v: OcrValue) {
    match v
    case OStr(s) => s != ""
    case OList(xs) => xs != []
    case OTuple(xs) => xs != []
    case ODict(es) => es != []
    case OScalar(b) => b
  }

  /** `data[key]` when `key in data`. */
  function DictGet(es: seq<(string, OcrValue)>, key: string): Option<OcrValue>
    decreases |es|
  {
    if es == [] then None
    else if es[0].0 == key then Some(es[0].1)
    else DictGet(es[1..], key)
  }

  /** The lookup finds a binding of `key` exactly when there is one, and the
      value it finds is the first one's. */
  lemma {:induction false} DictGetMeans(es: seq<(string, OcrValue)>, key: string)
    ensures DictGet(es, key).Some? <==> exists i :: 0 <= i < |es| && es[i].0 == key
    ensures DictGet(es, key).Some? ==> exists i :: (0 <= i < |es| && es[i] == (key, DictGet(es, key).value)
      && forall j :: 0 <= j < i ==> es[j].0 != key)
    decreases |es|
  {
    if es != [] && es[0].0 != key {
      DictGetMeans(es[1..], key);
      if DictGet(es, key).Some? {
        var i :| 0 <= i < |es[1..]| && es[1..][i] == (key, DictGet(es, key).value)
          && forall j :: 0 <= j < i ==> es[1..][j].0 != key;
        assert es[i + 1] == es[1..][i];
        assert forall j :: 1 <= j < i + 1 ==> es[j] == es[1..][j - 1];
      } else {
        assert forall i :: 1 <= i < |es| ==> es[i] == es[1..][i - 1];
      }
    } else if es != [] {
      assert es[0] == (key, es[0].1);
    }
  }

  const NoiseKeywords: seq<string> := ["min", "max", "general", "default", "none", "null", "true", "false"]

  /** Membership in a list, scanned from the front as Python's `in` does. */
  predicate InList(w: string, ws: seq<string>)
    decreases |ws|
  {
    ws != [] && (ws[0] == w || InList(w, ws[1..]))
  }

  /** `s.replace(c, '')`. */
  function RemoveChar(s: string, c: char): (r: string)
    ensures c !in r
    ensures |r| <= |s|
    ensures forall x :: x in r <==> x in s && x != c
    decreases |s|
  {
    if s == [] then "" else if s[0] == c then RemoveChar(s[1..], c) else [s[0]] + RemoveChar(s[1..], c)
  }

  /** `str.isdigit` on ASCII digits: non-empty and all digits. */
  predicate IsDigits(s: string) {
    s != [] && forall i :: 0 <= i < |s| ==> '0' <= s[i] <= '9'
  }

  /** `_is_noise_text`: empty or blank text, file paths, system keywords and
      short numbers (coordinates). */
  predicate IsNoise(text: string) {
    var t := Strip(text);
    text == "" || |t| < 1
    || StartsWith(text, "/") || StartsWith(text, "\\") || Contains(text, ":/") || Contains(text, ":\\")
    || InList(Strip(Lower(text)), NoiseKeywords)
    || (IsDigits(RemoveChar(RemoveChar(t, '.'), '-')) && |t| < 5)
  }

  /** `if not _is_noise_text(s): texts.append(s)`. The walk below takes the
      noise filter as its parameter `noise`; `OcrText` passes `IsNoise`. */
  function Kept(s: string, noise: string -> bool): (r: seq<string>)
    ensures r == [] || r == [s]
  {
    if noise(s) then [] else [s]
  }

  /** `if text and not _is_noise_text(text): texts.append(text)`. */
  function KeptText(s: string, noise: string -> bool): (r: seq<string>)
    ensures r == [] || r == [s]
  {
    if s == "" then [] else Kept(s, noise)
  }

  const PriorityKeys: seq<string> := ["text", "result", "content"]

  /** The depth guard: calls at depth greater than 10 return at once. */
  const MaxDepth: nat := 10

  function Budget(depth: nat): nat {
    if depth <= MaxDepth + 1 then MaxDepth + 1 - depth else 0
  }

  /** The strings `extract_texts(data, depth)` appends, in order. */
  function Extract(data: OcrValue, depth: nat, noise: string -> bool): (r: seq<string>)
    decreases Budget(depth), 3
  {
    if depth > MaxDepth then []
    else match data
      case ODict(es) => PriorityTexts(es, depth, |PriorityKeys|, noise) + ValueTexts(es, depth, |es|, noise)
      case OList(items) => ItemTexts(items, depth, |items|, noise)
      case OTuple(items) => ItemTexts(items, depth, |items|, noise)
      case OStr(s) => KeptText(s, noise)
      case OScalar(_) => []
  }

  /** The first `j` steps of the loop over "text", "result", "content". */
  function PriorityTexts(es: seq<(string, OcrValue)>, depth: nat, j: nat, noise: string -> bool): (r: seq<string>)
    requires depth <= MaxDepth && j <= |PriorityKeys|
    decreases Budget(depth), 2, j
  {
    if j == 0 then [] else PriorityTexts(es, depth, j - 1, noise) + Under(es, PriorityKeys[j - 1], depth, noise)
  }

  /** `if key in data: extract_texts(data[key], depth + 1)`. */
  function Under(es: seq<(string, OcrValue)>, key: string, depth: nat, noise: string -> bool): (r: seq<string>)
    requires depth <= MaxDepth
    decreases Budget(depth), 1
  {
    match DictGet(es, key)
    case Some(v) => Extract(v, depth + 1, noise)
    case None => []
  }

  /** The first `n` steps of the loop over `data.values()`. */
  function ValueTexts(es: seq<(string, OcrValue)>, depth: nat, n: nat, noise: string -> bool): (r: seq<string>)
    requires depth <= MaxDepth && n <= |es|
    decreases Budget(depth), 2, n
  {
    if n == 0 then [] else ValueTexts(es, depth, n - 1, noise) + Extract(es[n - 1].1, depth + 1, noise)
  }

  /** The first `n` steps of the loop over the items of a list or tuple. */
  function ItemTexts(items: seq<OcrValue>, depth: nat, n: nat, noise: string -> bool): (r: seq<string>)
    requires depth <= MaxDepth && n <= |items|
    decreases Budget(depth), 2, n
  {
    if n == 0 then [] else ItemTexts(items, depth, n - 1, noise) + ItemText(items[n - 1], depth, noise)
  }

  /** One item of a list or tuple: a non-empty tuple starting with a string
      contributes that string only; a string contributes itself; a container
      is walked one level deeper. */
  function ItemText(item: OcrValue, depth: nat, noise: string -> bool): (r: seq<string>)
    requires depth <= MaxDepth
    decreases Budget(depth), 1
  {
    match item
    case OTuple(xs) =>
      if |xs| >= 1 && xs[0].OStr? then KeptText(xs[0].s, noise) else Extract(item, depth + 1, noise)
    case OStr(s) => Kept(s, noise)
    case OList(_) => Extract(item, depth + 1, noise)
    case ODict(_) => Extract(item, depth + 1, noise)
    case OScalar(_) => []
  }

  lemma Snoc3(a: seq<string>, b: seq<string>, c: seq<string>, bc: seq<string>)
    requires bc == b + c
    ensures a + b + c == a + bc
  {
  }

  lemma ItemTextsStep(texts: seq<string>, items: seq<OcrValue>, depth: nat, i: nat, out: seq<string>, noise: string -> bool)
    requires depth <= MaxDepth && i < |items|
    requires out == texts + ItemTexts(items, depth, i, noise) + ItemText(items[i], depth, noise)
    ensures out == texts + ItemTexts(items, depth, i + 1, noise)
  {
    Snoc3(texts, ItemTexts(items, depth, i, noise), ItemText(items[i], depth, noise), ItemTexts(items, depth, i + 1, noise));
  }

  lemma PriorityTextsStep(texts: seq<string>, es: seq<(string, OcrValue)>, depth: nat, j: nat, out: seq<string>, noise: string -> bool)
    requires depth <= MaxDepth && j < |PriorityKeys|
    requires out == texts + PriorityTexts(es, depth, j, noise) + Under(es, PriorityKeys[j], depth, noise)
    ensures out == texts + PriorityTexts(es, depth, j + 1, noise)
  {
    Snoc3(texts, PriorityTexts(es, depth, j, noise), Under(es, PriorityKeys[j], depth, noise), PriorityTexts(es, depth, j + 1, noise));
  }

  lemma ValueTextsStep(mid: seq<string>, es: seq<(string, OcrValue)>, depth: nat, i: nat, out: seq<string>, noise: string -> bool)
    requires depth <= MaxDepth && i < |es|
    requires out == mid + ValueTexts(es, depth, i, noise) + Extract(es[i].1, depth + 1, noise)
    ensures out == mid + ValueTexts(es, depth, i + 1, noise)
  {
    Snoc3(mid, ValueTexts(es, depth, i, noise), Extract(es[i].1, depth + 1, noise), ValueTexts(es, depth, i + 1, noise));
  }

  lemma DictTexts(texts: seq<string>, es: seq<(string, OcrValue)>, depth: nat, mid: seq<string>, out: seq<string>, noise: string -> bool)
    requires depth <= MaxDepth
    requires mid == texts + PriorityTexts(es, depth, |PriorityKeys|, noise)
    requires out == mid + ValueTexts(es, depth, |es|, noise)
    ensures out == texts + Extract(ODict(es), depth, noise)
  {
    Snoc3(texts, PriorityTexts(es, depth, |PriorityKeys|, noise), ValueTexts(es, depth, |es|, noise), Extract(ODict(es), depth, noise));
  }

  /** `extract_texts(data, depth)`: appends to the list `texts` it closes over;
      here the list is passed in and returned. */
  method ExtractTexts(data: OcrValue, depth: nat, texts: seq<string>, noise: string -> bool) returns (out: seq<string>)
    ensures out == texts + Extract(data, depth, noise)
    decreases Budget(depth), 3, 0
  {
    out := texts;
    if depth > MaxDepth {
      assert texts + [] == texts;
    } else if data.ODict? {
      out := ExtractFromDict(data.entries, depth, texts, noise);
    } else if data.OList? || data.OTuple? {
      out := ExtractFromItems(data.items, depth, texts, noise);
    } else if data.OStr? && data.s != "" {
      StringNode(data.s, depth, noise);
      if !noise(data.s) {
        out := out + [data.s];
      } else {
        assert texts + [] == texts;
      }
    } else {
      assert Extract(data, depth, noise) == [];
      assert texts + [] == texts;
    }
  }

  /** The mapping branch: the values under "text", "result" and "content",
      then every value. */
  method ExtractFromDict(es: seq<(string, OcrValue)>, depth: nat, texts: seq<string>, noise: string -> bool) returns (out: seq<string>)
    requires depth <= MaxDepth
    ensures out == texts + Extract(ODict(es), depth, noise)
    decreases Budget(depth), 2, 2
  {
    var mid := ExtractPriority(es, depth, texts, noise);
    out := ExtractValues(es, depth, mid, noise);
    DictTexts(texts, es, depth, mid, out, noise);
  }

  /** The loop over "text", "result" and "content". */
  method ExtractPriority(es: seq<(string, OcrValue)>, depth: nat, texts: seq<string>, noise: string -> bool) returns (out: seq<string>)
    requires depth <= MaxDepth
    ensures out == texts + PriorityTexts(es, depth, |PriorityKeys|, noise)
    decreases Budget(depth), 2, 1
  {
    out := texts;
    for j := 0 to |PriorityKeys|
      invariant out == texts + PriorityTexts(es, depth, j, noise)
    {
      ghost var before := out;
      match DictGet(es, PriorityKeys[j]) {
        case Some(v) =>
          out := ExtractTexts(v, depth + 1, out, noise);
        case None =>
          assert before + [] == before;
      }
      PriorityTextsStep(texts, es, depth, j, out, noise);
    }
  }

  /** The loop over `data.values()`. */
  method ExtractValues(es: seq<(string, OcrValue)>, depth: nat, texts: seq<string>, noise: string -> bool) returns (out: seq<string>)
    requires depth <= MaxDepth
    ensures out == texts + ValueTexts(es, depth, |es|, noise)
    decreases Budget(depth), 2, 1
  {
    out := texts;
    for i := 0 to |es|
      invariant out == texts + ValueTexts(es, depth, i, noise)
    {
      out := ExtractTexts(es[i].1, depth + 1, out, noise);
      ValueTextsStep(texts, es, depth, i, out, noise);
    }
  }

  /** The list and tuple branch: each item in turn. */
  method ExtractFromItems(items: seq<OcrValue>, depth: nat, texts: seq<string>, noise: string -> bool) returns (out: seq<string>)
    requires depth <= MaxDepth
    ensures out == texts + ItemTexts(items, depth, |items|, noise)
    decreases Budget(depth), 2, 1
  {
    out := texts;
    for i := 0 to |items|
      invariant out == texts + ItemTexts(items, depth, i, noise)
    {
      out := ExtractItem(items[i], depth, out, noise);
      ItemTextsStep(texts, items, depth, i, out, noise);
    }
  }

  /** One item of a list or tuple. */
  method ExtractItem(item: OcrValue, depth: nat, texts: seq<string>, noise: string -> bool) returns (out: seq<string>)
    requires depth <= MaxDepth
    ensures out == texts + ItemText(item, depth, noise)
    decreases Budget(depth), 1, 0
  {
    out := texts;
    if item.OTuple? && |item.items| >= 1 {
      if item.items[0].OStr? {
        var text := item.items[0].s;
        if text != "" && !noise(text) {
          out := out + [text];
        } else {
          assert texts + [] == texts;
        }
      } else {
        out := ExtractTexts(item, depth + 1, out, noise);
      }
    } else if item.OStr? {
      if !noise(item.s) {
        out := out + [item.s];
      } else {
        assert texts + [] == texts;
      }
    } else if item.OList? || item.OTuple? || item.ODict? {
      out := ExtractTexts(item, depth + 1, out, noise);
    } else {
      assert texts + [] == texts;
    }
  }

  /** `ocr_image_from_file` on the engine's result: the collected strings,
      one per line. */
  function OcrText(result: OcrValue): string {
    if !Truthy(result) then ""
    else
      var texts := Extract(result, 0, IsNoise);
      if texts != [] then Join("\n", texts) else ""
  }

  method OcrTextOf(result: OcrValue) returns (r: string)
    ensures r == OcrText(result)
  {
    if !Truthy(result) {
      return "";
    }
    var texts := ExtractTexts(result, 0, [], IsNoise);
    assert texts == Extract(result, 0, IsNoise);
    r := if texts != [] then Join("\n", texts) else "";
  }

  /** Calls at depth greater than 10 contribute nothing. */
  lemma DeepNodesIgnored(data: OcrValue, depth: nat, noise: string -> bool)
    requires depth > MaxDepth
    ensures Extract(data, depth, noise) == []
  {
  }

  /** Every string the walk collects passes the noise filter. */
  predicate AllKept(texts: seq<string>, noise: string -> bool) {
    forall x :: x in texts ==> !noise(x)
  }

  lemma {:induction false} ExtractKeepsNoNoise(data: OcrValue, depth: nat, noise: string -> bool)
    ensures AllKept(Extract(data, depth, noise), noise)
    decreases Budget(depth), 3
  {
    if depth <= MaxDepth {
      match data
      case ODict(es) =>
        PriorityKeepsNoNoise(es, depth, |PriorityKeys|, noise);
        ValuesKeepNoNoise(es, depth, |es|, noise);
        AllKeptAppend(PriorityTexts(es, depth, |PriorityKeys|, noise), ValueTexts(es, depth, |es|, noise), noise);
      case OList(items) =>
        ItemsKeepNoNoise(items, depth, |items|, noise);
      case OTuple(items) =>
        ItemsKeepNoNoise(items, depth, |items|, noise);
      case OStr(s) =>
      case OScalar(_) =>
    }
  }

  lemma {:induction false} PriorityKeepsNoNoise(es: seq<(string, OcrValue)>, depth: nat, j: nat, noise: string -> bool)
    requires depth <= MaxDepth && j <= |PriorityKeys|
    ensures AllKept(PriorityTexts(es, depth, j, noise), noise)
    decreases Budget(depth), 2, j
  {
    if j > 0 {
      PriorityKeepsNoNoise(es, depth, j - 1, noise);
      match DictGet(es, PriorityKeys[j - 1]) {
        case Some(v) => ExtractKeepsNoNoise(v, depth + 1, noise);
        case None =>
      }
      AllKeptAppend(PriorityTexts(es, depth, j - 1, noise), Under(es, PriorityKeys[j - 1], depth, noise), noise);
    }
  }

  lemma {:induction false} ValuesKeepNoNoise(es: seq<(string, OcrValue)>, depth: nat, n: nat, noise: string -> bool)
    requires depth <= MaxDepth && n <= |es|
    ensures AllKept(ValueTexts(es, depth, n, noise), noise)
    decreases Budget(depth), 2, n
  {
    if n > 0 {
      ValuesKeepNoNoise(es, depth, n - 1, noise);
      ExtractKeepsNoNoise(es[n - 1].1, depth + 1, noise);
      AllKeptAppend(ValueTexts(es, depth, n - 1, noise), Extract(es[n - 1].1, depth + 1, noise), noise);
    }
  }

  lemma {:induction false} ItemsKeepNoNoise(items: seq<OcrValue>, depth: nat, n: nat, noise: string -> bool)
    requires depth <= MaxDepth && n <= |items|
    ensures AllKept(ItemTexts(items, depth, n, noise), noise)
    decreases Budget(depth), 2, n
  {
    if n > 0 {
      ItemsKeepNoNoise(items, depth, n - 1, noise);
      ItemKeepsNoNoise(items[n - 1], depth, noise);
      AllKeptAppend(ItemTexts(items, depth, n - 1, noise), ItemText(items[n - 1], depth, noise), noise);
    }
  }

  lemma {:induction false} ItemKeepsNoNoise(item: OcrValue, depth: nat, noise: string -> bool)
    requires depth <= MaxDepth
    ensures AllKept(ItemText(item, depth, noise), noise)
    decreases Budget(depth), 1
  {
    match item
    case OTuple(xs) =>
      if !(|xs| >= 1 && xs[0].OStr?) {
        ExtractKeepsNoNoise(item, depth + 1, noise);
      }
    case OStr(s) =>
    case OList(_) => ExtractKeepsNoNoise(item, depth + 1, noise);
    case ODict(_) => ExtractKeepsNoNoise(item, depth + 1, noise);
    case OScalar(_) =>
  }

  lemma AllKeptAppend(a: seq<string>, b: seq<string>, noise: string -> bool)
    requires AllKept(a, noise) && AllKept(b, noise)
    ensures AllKept(a + b, noise)
  {
  }

  /** A falsy engine result holds no text, so the early `return ""` agrees
      with joining what the walk collects. */
  lemma FalsyResultHasNoText(result: OcrValue)
    ensures !Truthy(result) ==> Extract(result, 0, IsNoise) == []
    ensures OcrText(result) == Join("\n", Extract(result, 0, IsNoise))
  {
    if !Truthy(result) {
      match result
      case OStr(s) =>
      case OList(xs) =>
      case OTuple(xs) =>
      case ODict(es) =>
        assert PriorityTexts(es, 0, 1, IsNoise) == [];
        assert PriorityTexts(es, 0, 2, IsNoise) == [];
      case OScalar(_) =>
    }
  }

  /** The non-noise strings of `ss`, in order. */
  function CleanOnly(ss: seq<string>, noise: string -> bool): (r: seq<string>)
    ensures |r| <= |ss|
    decreases |ss|
  {
    if ss == [] then [] else CleanOnly(ss[..|ss| - 1], noise) + Kept(ss[|ss| - 1], noise)
  }

  /** For a list of strings the walk collects exactly the non-noise ones, in
      their order. */
  lemma {:induction false} StringListCollected(ss: seq<string>, depth: nat, noise: string -> bool)
    requires depth <= MaxDepth
    ensures Extract(OList(seq(|ss|, i requires 0 <= i < |ss| => OStr(ss[i]))), depth, noise) == CleanOnly(ss, noise)
  {
    var items := seq(|ss|, i requires 0 <= i < |ss| => OStr(ss[i]));
    assert Extract(OList(items), depth, noise) == ItemTexts(items, depth, |items|, noise);
    StringItemsCollected(ss, items, depth, |ss|, noise);
    assert ss[..|ss|] == ss;
  }

  lemma {:induction false} StringItemsCollected(ss: seq<string>, items: seq<OcrValue>, depth: nat, n: nat, noise: string -> bool)
    requires depth <= MaxDepth && n <= |ss| == |items|
    requires forall i :: 0 <= i < |ss| ==> items[i] == OStr(ss[i])
    ensures ItemTexts(items, depth, n, noise) == CleanOnly(ss[..n], noise)
    decreases n
  {
    if n > 0 {
      StringItemsCollected(ss, items, depth, n - 1, noise);
      assert ss[..n][..n - 1] == ss[..n - 1];
      assert ItemText(items[n - 1], depth, noise) == Kept(ss[n - 1], noise);
      assert CleanOnly(ss[..n], noise) == CleanOnly(ss[..n - 1], noise) + Kept(ss[n - 1], noise);
    }
  }

  /** A tuple whose first element is a string contributes that string alone:
      the rest of the tuple (a confidence score, say) is never looked at. */
  lemma TupleFirstElementOnly(s: string, rest: seq<OcrValue>, depth: nat, noise: string -> bool)
    requires depth <= MaxDepth
    ensures Extract(OList([OTuple([OStr(s)] + rest)]), depth, noise) == KeptText(s, noise)
  {
    var items := [OTuple([OStr(s)] + rest)];
    assert ItemTexts(items, depth, 1, noise) == ItemTexts(items, depth, 0, noise) + ItemText(items[0], depth, noise);
  }

  /** A mapping contributes what lies under "text", "result" and "content",
      then what every value contributes, in order. */
  lemma DictOrder(es: seq<(string, OcrValue)>, depth: nat, noise: string -> bool)
    requires depth <= MaxDepth
    ensures Extract(ODict(es), depth, noise)
      == Under(es, "text", depth, noise) + Under(es, "result", depth, noise) + Under(es, "content", depth, noise)
         + ValueTexts(es, depth, |es|, noise)
  {
    var t, r, c := Under(es, "text", depth, noise), Under(es, "result", depth, noise), Under(es, "content", depth, noise);
    assert PriorityTexts(es, depth, 1, noise) == t by {
      assert PriorityTexts(es, depth, 1, noise) == [] + t;
    }
    assert PriorityTexts(es, depth, 2, noise) == t + r;
    assert PriorityTexts(es, depth, 3, noise) == t + r + c;
    assert Extract(ODict(es), depth, noise) == PriorityTexts(es, depth, 3, noise) + ValueTexts(es, depth, |es|, noise);
  }

  lemma UnderSingle(key: string, v: OcrValue, k: string, depth: nat, noise: string -> bool)
    requires depth <= MaxDepth
    ensures Under([(key, v)], k, depth, noise) == if k == key then Extract(v, depth + 1, noise) else []
  {
    assert [(key, v)][1..] == [];
    assert DictGet([], k) == None;
    assert DictGet([(key, v)], k) == if k == key then Some(v) else None;
  }

  /** A value under "text", "result" or "content" is walked twice: once by
      the loop over those keys and once by the loop over all values. */
  lemma PriorityKeyCollectedTwice(key: string, v: OcrValue, depth: nat, noise: string -> bool)
    requires depth <= MaxDepth
    ensures Extract(ODict([(key, v)]), depth, noise)
      == if key in PriorityKeys then Extract(v, depth + 1, noise) + Extract(v, depth + 1, noise) else Extract(v, depth + 1, noise)
  {
    var es := [(key, v)];
    var x := Extract(v, depth + 1, noise);
    SinglePriority(key, v, depth, noise);
    SingleValue(key, v, depth, noise);
    DictOrder(es, depth, noise);
    assert [] + x == x;
  }

  lemma SinglePriority(key: string, v: OcrValue, depth: nat, noise: string -> bool)
    requires depth <= MaxDepth
    ensures var es := [(key, v)];
      Under(es, "text", depth, noise) + Under(es, "result", depth, noise) + Under(es, "content", depth, noise)
      == if key in PriorityKeys then Extract(v, depth + 1, noise) else []
  {
    var x := Extract(v, depth + 1, noise);
    UnderSingle(key, v, "text", depth, noise);
    UnderSingle(key, v, "result", depth, noise);
    UnderSingle(key, v, "content", depth, noise);
    assert key in PriorityKeys <==> key == "text" || key == "result" || key == "content";
    if key == "text" {
      assert x + [] + [] == x;
    } else if key == "result" {
      assert [] + x + [] == x;
    } else if key == "content" {
      assert [] + [] + x == x;
    }
  }

  lemma SingleValue(key: string, v: OcrValue, depth: nat, noise: string -> bool)
    requires depth <= MaxDepth
    ensures ValueTexts([(key, v)], depth, 1, noise) == Extract(v, depth + 1, noise)
  {
    assert ValueTexts([(key, v)], depth, 1, noise) == [] + Extract(v, depth + 1, noise);
  }

  /** A string node within the depth limit contributes `Kept`. */
  lemma StringNode(t: string, depth: nat, noise: string -> bool)
    requires depth <= MaxDepth
    ensures Extract(OStr(t), depth, noise) == KeptText(t, noise)
  {
  }

  /** PaddleOCR's `[[box, (text, confidence)], ...]` layout yields the text
      once. */
  lemma BoxAndTupleLayout(t: string, x: bool, y: bool, confidence: bool, noise: string -> bool)
    ensures Extract(OList([OList([OList([OList([OScalar(x), OScalar(y)])]), OTuple([OStr(t), OScalar(confidence)])])]), 0, noise)
      == KeptText(t, noise)
  {
    var box := OList([OList([OScalar(x), OScalar(y)])]);
    var line := OList([box, OTuple([OStr(t), OScalar(confidence)])]);
    var inner := [OScalar(x), OScalar(y)];
    assert ItemTexts(inner, 3, 2, noise) == [];
    assert Extract(box, 2, noise) == [] by {
      assert ItemTexts([OList(inner)], 2, 1, noise) == ItemTexts([OList(inner)], 2, 0, noise) + Extract(OList(inner), 3, noise);
    }
    assert Extract(line, 1, noise) == KeptText(t, noise) by {
      assert ItemTexts(line.items, 1, 1, noise) == [];
      assert ItemTexts(line.items, 1, 2, noise) == [] + KeptText(t, noise);
    }
    assert ItemTexts([line], 0, 1, noise) == [] + Extract(line, 1, noise);
  }

  /** `{"text": t, "confidence": c}` at depth 3 gives `t` twice: once under
      "text" and once among all values. */
  lemma TextEntry(t: string, confidence: bool, noise: string -> bool)
    ensures Extract(ODict([("text", OStr(t)), ("confidence", OScalar(confidence))]), 3, noise)
      == KeptText(t, noise) + KeptText(t, noise)
  {
    var es := [("text", OStr(t)), ("confidence", OScalar(confidence))];
    var k := KeptText(t, noise);
    assert PriorityTexts(es, 3, 3, noise) == k by {
      assert PriorityTexts(es, 3, 1, noise) == [] + k;
      assert es[1..][1..] == [];
      assert DictGet(es[1..], "result") == None;
      assert DictGet(es[1..], "content") == None;
      assert DictGet(es, "result") == None;
      assert DictGet(es, "content") == None;
    }
    assert ValueTexts(es, 3, 2, noise) == k + [] by {
      assert ValueTexts(es, 3, 1, noise) == [] + k;
    }
  }

  /** `{"result": v}` at depth 1 gives what `v` gives at depth 2, twice. */
  lemma ResultEntry(v: OcrValue, depth: nat, noise: string -> bool)
    requires depth <= MaxDepth
    ensures Extract(ODict([("result", v)]), depth, noise) == Extract(v, depth + 1, noise) + Extract(v, depth + 1, noise)
  {
    assert "result" in PriorityKeys;
    PriorityKeyCollectedTwice("result", v, depth, noise);
  }

  /** A list holding one container gives what the container gives one level
      deeper. */
  lemma SingleItem(v: OcrValue, depth: nat, noise: string -> bool)
    requires depth <= MaxDepth && (v.ODict? || v.OList?)
    ensures Extract(OList([v]), depth, noise) == Extract(v, depth + 1, noise)
  {
    assert ItemTexts([v], depth, 1, noise) == [] + Extract(v, depth + 1, noise);
  }

  /** The `[{"result": [{"text": t, "confidence": c}]}]` layout yields every
      text four times: "result" and "text" are each visited twice. */
  lemma ResultTextLayout(t: string, confidence: bool, noise: string -> bool)
    ensures Extract(OList([ODict([("result", OList([ODict([("text", OStr(t)), ("confidence", OScalar(confidence))])]))])]), 0, noise)
      == KeptText(t, noise) + KeptText(t, noise) + KeptText(t, noise) + KeptText(t, noise)
  {
    var entry := ODict([("text", OStr(t)), ("confidence", OScalar(confidence))]);
    TextEntry(t, confidence, noise);
    SingleItem(entry, 2, noise);
    var top := ODict([("result", OList([entry]))]);
    ResultEntry(OList([entry]), 1, noise);
    SingleItem(top, 0, noise);
    var k := KeptText(t, noise);
    assert (k + k) + (k + k) == k + k + k + k;
  }

  /** Each line of the OCR text is one collected string when none of them
      holds a line break. */
  lemma {:induction false} OcrTextLines(result: OcrValue)
    ensures var texts := Extract(result, 0, IsNoise);
      texts != [] && (forall i :: 0 <= i < |texts| ==> '\n' !in texts[i]) ==>
        Split(OcrText(result), '\n') == texts
  {
    var texts := Extract(result, 0, IsNoise);
    FalsyResultHasNoText(result);
    if texts != [] && (forall i :: 0 <= i < |texts| ==> '\n' !in texts[i]) {
      SplitJoin(texts, '\n');
    }
  }

  /** Strings of five or more ASCII digits are kept: only shorter numbers are
      taken for coordinates. */
  lemma LongNumbersKept(t: string)
    requires IsDigits(t) && |t| >= 5
    ensures !IsNoise(t)
  {
    StripByNoop(t, IsSpace);
    DigitsLowered(t);
    NotKeyword(t);
    NoPathMarks(t);
  }

  /** Numbers of one to four ASCII digits are dropped as coordinates. */
  lemma ShortNumbersAreNoise(t: string)
    requires IsDigits(t) && |t| < 5
    ensures IsNoise(t)
  {
    StripByNoop(t, IsSpace);
    RemoveAbsent(t, '.');
    RemoveAbsent(t, '-');
  }

  /** Removing a character the string lacks changes nothing. */
  lemma {:induction false} RemoveAbsent(s: string, c: char)
    requires c !in s
    ensures RemoveChar(s, c) == s
    decreases |s|
  {
    if s != [] {
      assert c !in s[1..];
      RemoveAbsent(s[1..], c);
      assert [s[0]] + s[1..] == s;
    }
  }

  lemma DigitsLowered(t: string)
    requires IsDigits(t)
    ensures Lower(t) == t
  {
    forall i | 0 <= i < |t| ensures Lower(t)[i] == t[i] {
    }
  }

  lemma NotKeyword(w: string)
    requires w != "" && '0' <= w[0] <= '9'
    ensures !InList(w, NoiseKeywords)
  {
    NotInListByFirst(w, NoiseKeywords);
  }

  /** A word whose first character starts no word of the list is not in it. */
  lemma {:induction false} NotInListByFirst(w: string, ws: seq<string>)
    requires w != []
    requires forall i :: 0 <= i < |ws| ==> ws[i] == [] || ws[i][0] != w[0]
    ensures !InList(w, ws)
    decreases |ws|
  {
    if ws != [] {
      NotInListByFirst(w, ws[1..]);
    }
  }

  lemma NoPathMarks(t: string)
    requires IsDigits(t)
    ensures !StartsWith(t, "/") && !StartsWith(t, "\\")
    ensures !Contains(t, ":/") && !Contains(t, ":\\")
  {
    assert t[..1][0] == t[0];
    ContainsMeans(t, ":/");
    ContainsMeans(t, ":\\");
    forall k | 0 <= k ensures !OccursAt(t, k, ":/") && !OccursAt(t, k, ":\\") {
      if k + 2 <= |t| {
        assert t[k..k + 2][0] == t[k];
      }
    }
  }

  /** One image's outcome in `ocr_images`: the text `ocr_image_from_url`
      returned, or `None` when it raised. */
  predicate Recognised(outcome: Option<string>) {
    outcome.Some? && outcome.value != "" && Strip(outcome.value) != ""
  }

  function ResultLabel(i: nat): string {
    "[图片 " + NatToString(i) + " OCR 结果]\n"
  }

  /** The `results` list after the first `n` images. */
  function Labelled(outcomes: seq<Option<string>>, n: nat): (r: seq<string>)
    requires n <= |outcomes|
    ensures |r| <= n
    decreases n
  {
    if n == 0 then []
    else
      Labelled(outcomes, n - 1)
      + if Recognised(outcomes[n - 1]) then [ResultLabel(n) + outcomes[n - 1].value] else []
  }

  /** `ocr_images`, with each image's OCR outcome given. */
  function OcrImages(outcomes: seq<Option<string>>): string {
    if outcomes == [] then "" else Join("\n\n", Labelled(outcomes, |outcomes|))
  }

  /** The loop of `ocr_images`, with its `successful` and `failed` counters. */
  method OcrImagesOf(outcomes: seq<Option<string>>) returns (text: string, successful: nat, failed: nat)
    ensures text == OcrImages(outcomes)
    ensures successful == |Labelled(outcomes, |outcomes|)|
    ensures successful + failed == |outcomes|
  {
    successful, failed := 0, 0;
    if outcomes == [] {
      return "", 0, 0;
    }
    var results: seq<string> := [];
    for k := 0 to |outcomes|
      invariant results == Labelled(outcomes, k)
      invariant successful == |results| && successful + failed == k
    {
      var i := k + 1;
      match outcomes[k] {
        case Some(t) =>
          if t != "" && Strip(t) != "" {
            results := results + ["[图片 " + NatToString(i) + " OCR 结果]\n" + t];
            successful := successful + 1;
          } else {
            failed := failed + 1;
          }
        case None =>
          failed := failed + 1;
      }
    }
    text := Join("\n\n", results);
  }

  /** The results are exactly the recognised images' texts, each behind its
      own 1-based label. */
  lemma {:induction false} LabelledMembers(outcomes: seq<Option<string>>, n: nat, s: string)
    requires n <= |outcomes|
    ensures s in Labelled(outcomes, n) <==>
      exists i :: 0 <= i < n && Recognised(outcomes[i]) && s == ResultLabel(i + 1) + outcomes[i].value
  {
    if s in Labelled(outcomes, n) {
      var i := LabelledSound(outcomes, n, s);
    }
    if exists i :: 0 <= i < n && Recognised(outcomes[i]) && s == ResultLabel(i + 1) + outcomes[i].value {
      var i :| 0 <= i < n && Recognised(outcomes[i]) && s == ResultLabel(i + 1) + outcomes[i].value;
      LabelledComplete(outcomes, n, i);
    }
  }

  lemma {:induction false} LabelledSound(outcomes: seq<Option<string>>, n: nat, s: string) returns (i: nat)
    requires n <= |outcomes| && s in Labelled(outcomes, n)
    ensures i < n && Recognised(outcomes[i]) && s == ResultLabel(i + 1) + outcomes[i].value
    decreases n
  {
    var prev := Labelled(outcomes, n - 1);
    if s in prev {
      i := LabelledSound(outcomes, n - 1, s);
    } else {
      i := n - 1;
    }
  }

  lemma {:induction false} LabelledComplete(outcomes: seq<Option<string>>, n: nat, i: nat)
    requires i < n <= |outcomes| && Recognised(outcomes[i])
    ensures ResultLabel(i + 1) + outcomes[i].value in Labelled(outcomes, n)
    decreases n
  {
    if i < n - 1 {
      LabelledComplete(outcomes, n - 1, i);
    }
  }

  /** When no image yields text the combined result is empty. */
  lemma {:induction false} NothingRecognised(outcomes: seq<Option<string>>)
    requires forall i :: 0 <= i < |outcomes| ==> !Recognised(outcomes[i])
    ensures OcrImages(outcomes) == ""
  {
    if outcomes != [] {
      NoneLabelled(outcomes, |outcomes|);
    }
  }

  lemma {:induction false} NoneLabelled(outcomes: seq<Option<string>>, n: nat)
    requires n <= |outcomes|
    requires forall i :: 0 <= i < n ==> !Recognised(outcomes[i])
    ensures Labelled(outcomes, n) == []
    decreases n
  {
    if n > 0 {
      NoneLabelled(outcomes, n - 1);
    }
  }

  /** A single recognised image gives its text behind the label for image 1. */
  lemma OneImage(t: string)
    requires Strip(t) != ""
    ensures OcrImages([Some(t)]) == ResultLabel(1) + t
  {
    assert t != "";
    assert Labelled([Some(t)], 1) == [] + [ResultLabel(1) + t];
  }

  /** The label of the first image. */
  lemma FirstLabel()
    ensures ResultLabel(1) == "[图片 1 OCR 结果]\n"
  {
    assert NatToString(1) == "1";
  }
}
