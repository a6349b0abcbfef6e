/** Field selection of `_parse_note_from_state` once the note data is a
    mapping: title, text and id as `or`-chains over unwrapped candidates, and
    the image-URL collector. */
module NoteFields {
  import opened Strings
  import opened PyJson
  import opened VueValue
  import opened UrlPatterns

  const TextKeys: seq<string> := ["desc", "noteContent", "content", "text"]
  const IdKeys: seq<string> := ["noteId", "id", "note_id"]
  const ImageKeys: seq<string> := ["imageList", "imageInfoList", "images", "image_list"]
  const UrlKeys: seq<string> := ["url", "originUrl", "original", "imgUrl", "urlDefault", "picUrl"]
  const NestedKeys: seq<string> := ["info", "imageInfo"]

  /** Python's `a or b or ... or z`: the first truthy operand, else the last. */
  function OrChain(vs: seq<Json>): (r: Json)
    requires |vs| >= 1
    ensures Truthy(r) ==> exists i :: 0 <= i < |vs| && vs[i] == r && forall j :: 0 <= j < i ==> !Truthy(vs[j])
    ensures !Truthy(r) ==> r == vs[|vs| - 1] && forall j :: 0 <= j < |vs| ==> !Truthy(vs[j])
    decreases |vs|
  {
    if |vs| == 1 then vs[0] else Or(vs[0], OrChain(vs[1..]))
  }

  /** `[extract_vue_value(d.get(k)) for k in keys]`. */
  function Unwrapped(fs: Fields, keys: seq<string>): (r: seq<Json>)
    ensures |r| == |keys| && forall i :: 0 <= i < |keys| ==> r[i] == Unwrap(Get(fs, keys[i]))
  {
    seq(|keys|, i requires 0 <= i < |keys| => Unwrap(Get(fs, keys[i])))
  }

  /** The tail of the title and text blocks: a mapping is unwrapped once more
      (`or ""`), then a truthy value becomes its `str` and a falsy one "". */
  function FieldText(v: Json): string {
    var t := if v.JObj? then Or(Unwrap(v), JStr("")) else v;
    if Truthy(t) then PyStr(t) else ""
  }

  /** For a value `extract_vue_value` already returned, the second unwrap does
      nothing: the text is `str(v)` when `v` is truthy, and "" otherwise. */
  lemma FieldTextOfUnwrapped(v: Json)
    requires !IsWrapper(v)
    ensures FieldText(v) == (if Truthy(v) then PyStr(v) else "")
    ensures FieldText(v) != "" <==> Truthy(v)
  {
    UnwrapKeepsPlainValues(v);
    PyStrEmpty(v);
  }

  /** The title candidate taken from `noteCard.displayTitle`; `.get` on a
      `noteCard` that is present but not a mapping raises. */
  function CardTitle(fs: Fields): Result<Json> {
    var card := GetOr(fs, "noteCard", JObj([]));
    if card.JObj? then Ok(Unwrap(GetOr(card.fields, "displayTitle", JStr(""))))
    else AttributeError("'noteCard' value has no attribute 'get'")
  }

  /** The title value: `title`, `displayTitle`, `noteCard.displayTitle`, "" as
      an `or`-chain whose third operand is evaluated only if needed. */
  function TitleValue(fs: Fields): Result<Json> {
    var c := Unwrapped(fs, ["title", "displayTitle"]);
    if Truthy(c[0]) then Ok(c[0])
    else if Truthy(c[1]) then Ok(c[1])
    else if CardTitle(fs).Ok? then Ok(Or(CardTitle(fs).value, JStr("")))
    else CardTitle(fs)
  }

  /** The title is the first truthy of the three unwrapped candidates; it can
      fail only when neither of the first two is truthy and `noteCard` is
      present but not a mapping. */
  lemma TitleSelection(fs: Fields)
    ensures !TitleValue(fs).TypeError?
    ensures TitleValue(fs).AttributeError? <==>
      !Truthy(Unwrap(Get(fs, "title"))) && !Truthy(Unwrap(Get(fs, "displayTitle")))
      && HasKey(fs, "noteCard") && !Get(fs, "noteCard").JObj?
    ensures CardTitle(fs).Ok? ==>
      TitleValue(fs) == Ok(OrChain(Unwrapped(fs, ["title", "displayTitle"]) + [CardTitle(fs).value, JStr("")]))
    ensures TitleValue(fs).Ok? ==> !IsWrapper(TitleValue(fs).value)
  {
    var c := Unwrapped(fs, ["title", "displayTitle"]);
    if CardTitle(fs).Ok? {
      var vs := c + [CardTitle(fs).value, JStr("")];
      assert vs[1..] == [c[1], CardTitle(fs).value, JStr("")];
      assert vs[2..] == [CardTitle(fs).value, JStr("")];
      assert vs[2..][1..] == [JStr("")];
      assert OrChain(vs[2..]) == Or(CardTitle(fs).value, JStr(""));
      assert OrChain(vs[1..]) == Or(c[1], OrChain(vs[2..]));
      assert OrChain(vs) == Or(c[0], OrChain(vs[1..]));
    }
  }

  /** The text value: the first truthy of `desc`, `noteContent`, `content`,
      `text` (unwrapped), else "". */
  function TextValue(fs: Fields): (r: Json)
    ensures !IsWrapper(r)
  {
    var vs := Unwrapped(fs, TextKeys) + [JStr("")];
    var r := OrChain(vs);
    assert r in vs;
    r
  }

  /** The text is the first truthy unwrapped text field; when none is
      truthy it is "". */
  lemma TextSelection(fs: Fields)
    ensures Truthy(TextValue(fs)) ==>
      exists i :: 0 <= i < |TextKeys| && TextValue(fs) == Unwrap(Get(fs, TextKeys[i]))
        && forall j :: 0 <= j < i ==> !Truthy(Unwrap(Get(fs, TextKeys[j])))
    ensures !Truthy(TextValue(fs)) ==>
      TextValue(fs) == JStr("") && forall j :: 0 <= j < |TextKeys| ==> !Truthy(Unwrap(Get(fs, TextKeys[j])))
  {
    var c := Unwrapped(fs, TextKeys);
    var vs := c + [JStr("")];
    assert forall j :: 0 <= j < |TextKeys| ==> vs[j] == Unwrap(Get(fs, TextKeys[j]));
  }

  /** `re.search(...) .group(1)` over the three URL patterns, else the uuid. */
  function UrlIdOr(url: string, uuid: string): (r: string)
    ensures NoteIdFromPatterns(url).Some? ==> r == NoteIdFromPatterns(url).value
    ensures NoteIdFromPatterns(url).None? ==> r == uuid
  {
    match NoteIdFromPatterns(url)
    case Some(m) => m
    case None => uuid
  }

  /** The id block: the shape-1 id, else the first truthy of `noteId`, `id`,
      `note_id`; a mapping is unwrapped; a falsy id is replaced by the URL
      id or the uuid; a mapping is unwrapped again; then `str`. */
  function NoteIdText(fs: Fields, shapeId: Json, url: string, uuid: string): string {
    var id := NoteIdValue(fs, shapeId, url, uuid);
    if Truthy(id) then PyStr(id) else uuid
  }

  /** The id value the block's last line tests, before its `str`. */
  function NoteIdValue(fs: Fields, shapeId: Json, url: string, uuid: string): Json {
    var id1 := if Truthy(shapeId) then shapeId else OrChain(Unwrapped(fs, IdKeys));
    var id2 := if id1.JObj? then Unwrap(id1) else id1;
    var id3 := if Truthy(id2) then id2 else JStr(UrlIdOr(url, uuid));
    if Truthy(id3) && id3.JObj? then Unwrap(id3) else id3
  }

  /** The id comes from the first source in order that has one: the shape-1
      id, the id fields, the URL, the uuid. */
  lemma NoteIdSelection(fs: Fields, shapeId: Json, url: string, uuid: string)
    requires uuid != ""
    ensures Truthy(shapeId) && !shapeId.JObj? ==> NoteIdText(fs, shapeId, url, uuid) == PyStr(shapeId)
    ensures !Truthy(shapeId) && Truthy(OrChain(Unwrapped(fs, IdKeys))) ==>
      NoteIdText(fs, shapeId, url, uuid) == PyStr(OrChain(Unwrapped(fs, IdKeys)))
    ensures !Truthy(shapeId) && !Truthy(OrChain(Unwrapped(fs, IdKeys))) ==>
      NoteIdText(fs, shapeId, url, uuid) == UrlIdOr(url, uuid)
  {
    IdCandidateUnwrapped(fs);
    UrlIdOrNonEmpty(url, uuid);
  }

  /** The value the block's last line tests is always truthy when the uuid is
      not empty, so that line's fallback branch is dead; and the id is never empty. */
  lemma NoteIdTextNonEmpty(fs: Fields, shapeId: Json, url: string, uuid: string)
    requires uuid != ""
    ensures Truthy(NoteIdValue(fs, shapeId, url, uuid))
    ensures NoteIdText(fs, shapeId, url, uuid) != ""
  {
    var id1 := if Truthy(shapeId) then shapeId else OrChain(Unwrapped(fs, IdKeys));
    UrlIdOrNonEmpty(url, uuid);
    if id1.JObj? {
      UnwrapIdempotent(id1);
    }
    PyStrEmpty(NoteIdValue(fs, shapeId, url, uuid));
  }

  /** The `or` of the id fields is already unwrapped. */
  lemma IdCandidateUnwrapped(fs: Fields)
    ensures Unwrap(OrChain(Unwrapped(fs, IdKeys))) == OrChain(Unwrapped(fs, IdKeys))
  {
    var vs := Unwrapped(fs, IdKeys);
    var r := OrChain(vs);
    assert r in vs;
    UnwrapKeepsPlainValues(r);
  }

  /** The fallback id is never empty. */
  lemma UrlIdOrNonEmpty(url: string, uuid: string)
    requires uuid != ""
    ensures UrlIdOr(url, uuid) != ""
  {
    NoteIdNonEmpty(url);
  }

  lemma NoteIdNonEmpty(url: string)
    ensures NoteIdFromPatterns(url).Some? ==> |NoteIdFromPatterns(url).value| >= 1
  {
    var s := NoteIdFromPatterns(url);
    if s.Some? {
      if Search(url, Explore).Some? {
        SearchIsLeftmost(url, Explore);
      } else if Search(url, DiscoveryItem).Some? {
        SearchIsLeftmost(url, DiscoveryItem);
      } else {
        SearchIsLeftmost(url, User);
      }
    }
  }

  // ---------------------------------------------------------------------
  // Images

  predicate AllHttp(xs: seq<string>) {
    forall i :: 0 <= i < |xs| ==> StartsWith(xs[i], "http")
  }

  predicate Distinct(xs: seq<string>) {
    forall i, j :: 0 <= i < j < |xs| ==> xs[i] != xs[j]
  }

  /** The first of `keys` whose unwrapped value is a string starting with "http". */
  function ProbeUrl(fs: Fields, keys: seq<string>): (r: Option<string>)
    ensures r.Some? ==> StartsWith(r.value, "http")
    ensures r.Some? ==> exists i :: (0 <= i < |keys| && Unwrap(Get(fs, keys[i])) == JStr(r.value)
      && forall j :: 0 <= j < i ==> !IsHttpString(Unwrap(Get(fs, keys[j]))))
    ensures r.None? ==> forall i :: 0 <= i < |keys| ==> !IsHttpString(Unwrap(Get(fs, keys[i])))
    decreases |keys|
  {
    if |keys| == 0 then None
    else
      var v := Unwrap(Get(fs, keys[0]));
      if IsHttpString(v) then Some(v.s)
      else
        var rest := ProbeUrl(fs, keys[1..]);
        assert forall i :: 1 <= i < |keys| ==> keys[i] == keys[1..][i - 1];
        rest
  }

  /** The URL keys probed inside the unwrapped value of `key`, when that value is a mapping. */
  function NestedProbe(fs: Fields, key: string): Option<string> {
    var inner := Unwrap(Get(fs, key));
    if inner.JObj? then ProbeUrl(inner.fields, UrlKeys) else None
  }

  /** The nested probe: the same URL keys inside `info`, then `imageInfo`. */
  function NestedUrl(fs: Fields, nested: seq<string>): (r: Option<string>)
    ensures r.Some? ==> StartsWith(r.value, "http")
    decreases |nested|
  {
    if |nested| == 0 then None
    else if NestedProbe(fs, nested[0]).Some? then NestedProbe(fs, nested[0])
    else NestedUrl(fs, nested[1..])
  }

  /** No nested key before position `i` holds a mapping with a URL. */
  predicate NoNestedUrlBefore(fs: Fields, nested: seq<string>, i: nat)
    requires i <= |nested|
  {
    forall j :: 0 <= j < i ==> NestedProbe(fs, nested[j]).None?
  }

  /** The nested probe answers with the first nested key whose mapping holds a URL. */
  lemma {:induction false} NestedUrlFirstMatch(fs: Fields, nested: seq<string>)
    ensures NestedUrl(fs, nested).Some? ==> exists i :: (0 <= i < |nested|
      && NestedProbe(fs, nested[i]) == NestedUrl(fs, nested) && NoNestedUrlBefore(fs, nested, i))
    decreases |nested|
  {
    if |nested| > 0 {
      if NestedProbe(fs, nested[0]).Some? {
        assert NoNestedUrlBefore(fs, nested, 0);
      } else {
        NestedUrlFirstMatch(fs, nested[1..]);
        if NestedUrl(fs, nested).Some? {
          var i :| 0 <= i < |nested[1..]| && NestedProbe(fs, nested[1..][i]) == NestedUrl(fs, nested[1..])
            && NoNestedUrlBefore(fs, nested[1..], i);
          NoNestedUrlBeforeShift(fs, nested, i + 1);
        }
      }
    }
  }

  /** The nested probe gives nothing only when no nested key holds a mapping with a URL. */
  lemma {:induction false} NestedUrlNone(fs: Fields, nested: seq<string>)
    ensures NestedUrl(fs, nested).None? <==> NoNestedUrlBefore(fs, nested, |nested|)
    decreases |nested|
  {
    if |nested| > 0 {
      if NestedProbe(fs, nested[0]).None? {
        NestedUrlNone(fs, nested[1..]);
        NoNestedUrlBeforeShift(fs, nested, |nested|);
      }
    }
  }

  lemma NoNestedUrlBeforeShift(fs: Fields, nested: seq<string>, i: nat)
    requires 1 <= i <= |nested| && NestedProbe(fs, nested[0]).None?
    ensures NoNestedUrlBefore(fs, nested, i) <==> NoNestedUrlBefore(fs, nested[1..], i - 1)
  {
    assert forall j :: 1 <= j < i ==> nested[j] == nested[1..][j - 1];
  }

  /** The URL field of a mapping image element. */
  function ElementUrl(fs: Fields): (r: Option<string>)
    ensures r.Some? ==> StartsWith(r.value, "http")
  {
    match ProbeUrl(fs, UrlKeys)
    case Some(u) => Some(u)
    case None => NestedUrl(fs, NestedKeys)
  }

  /** A URL under one of the direct keys wins; only without one is the nested probe used. */
  lemma ElementUrlDirectFirst(fs: Fields)
    ensures ProbeUrl(fs, UrlKeys).Some? ==> ElementUrl(fs) == ProbeUrl(fs, UrlKeys)
    ensures ProbeUrl(fs, UrlKeys).None? ==> ElementUrl(fs) == NestedUrl(fs, NestedKeys)
  {
  }

  /** The element after the unwrap of a mapping element. */
  function Element(img: Json): Json {
    if img.JObj? then Unwrap(img) else img
  }

  /** A bare string element starting with "http": appended without the
      duplicate check. */
  predicate BareUrl(img: Json) {
    !Element(img).JObj? && IsHttpString(Element(img))
  }

  /** One element of an image list added to `images`. */
  function AddElement(images: seq<string>, img: Json): (r: seq<string>)
    ensures r == images || (|r| == |images| + 1 && r[..|images|] == images && StartsWith(r[|images|], "http"))
    ensures !BareUrl(img) && r != images ==> r[|images|] !in images
  {
    var e := Element(img);
    if !e.JObj? then (if IsHttpString(e) then images + [e.s] else images)
    else match ElementUrl(e.fields)
      case Some(u) => if u in images then images else images + [u]
      case None => images
  }

  /** The elements of one list added in order. */
  function CollectList(images: seq<string>, items: seq<Json>): (r: seq<string>)
    ensures AllHttp(images) ==> AllHttp(r)
    decreases |items|
  {
    if |items| == 0 then images else CollectList(AddElement(images, items[0]), items[1..])
  }

  /** The URL one element of the image list offers: a bare `http` string as it
      is, the URL field of a mapping, nothing for anything else. */
  function Offer(img: Json): Option<string> {
    var e := Element(img);
    if e.JObj? then ElementUrl(e.fields)
    else if IsHttpString(e) then Some(e.s)
    else None
  }

  /** One element appends the URL it offers, unless that URL came from a
      mapping and is already in the list. */
  lemma AddElementMeans(images: seq<string>, img: Json)
    ensures AddElement(images, img) == match Offer(img)
      case None => images
      case Some(u) => if !BareUrl(img) && u in images then images else images + [u]
  {
  }

  /** A URL is in the collected list exactly when it was there before or some
      element offers it. */
  lemma {:induction false} CollectListContents(images: seq<string>, items: seq<Json>, u: string)
    ensures u in CollectList(images, items) <==>
      u in images || exists i :: 0 <= i < |items| && Offer(items[i]) == Some(u)
    decreases |items|
  {
    if |items| > 0 {
      var next := AddElement(images, items[0]);
      AddElementMeans(images, items[0]);
      CollectListContents(next, items[1..], u);
      assert u in next <==> u in images || Offer(items[0]) == Some(u);
      if exists i :: 0 <= i < |items[1..]| && Offer(items[1..][i]) == Some(u) {
        var i :| 0 <= i < |items[1..]| && Offer(items[1..][i]) == Some(u);
        assert Offer(items[i + 1]) == Some(u);
      }
      if exists i :: 0 <= i < |items| && Offer(items[i]) == Some(u) {
        var i :| 0 <= i < |items| && Offer(items[i]) == Some(u);
        if i > 0 {
          assert Offer(items[1..][i - 1]) == Some(u);
        }
      }
    }
  }

  /** What one image key contributes, starting from no images. */
  function KeyImages(fs: Fields, key: string): (r: seq<string>)
    ensures AllHttp(r)
  {
    var imgs := Get(fs, key);
    var v := if Truthy(imgs) then Unwrap(imgs) else JNull;
    if v.JList? && |v.items| > 0 then CollectList([], v.items) else []
  }

  /** The images of the first key that contributes any. */
  function ImagesFrom(fs: Fields, keys: seq<string>): seq<string>
    decreases |keys|
  {
    if |keys| == 0 then []
    else
      var got := KeyImages(fs, keys[0]);
      if got != [] then got else ImagesFrom(fs, keys[1..])
  }

  /** The URL-key loop with its `break`. */
  method ProbeUrlKeys(fs: Fields, keys: seq<string>) returns (found: Option<string>)
    ensures found == ProbeUrl(fs, keys)
  {
    found := None;
    var i := 0;
    while i < |keys|
      invariant 0 <= i <= |keys|
      invariant ProbeUrl(fs, keys) == ProbeUrl(fs, keys[i..])
      decreases |keys| - i
    {
      var v := Unwrap(Get(fs, keys[i]));
      if v.JStr? && StartsWith(v.s, "http") {
        found := Some(v.s);
        break;
      }
      assert keys[i..][1..] == keys[i + 1..];
      i := i + 1;
    }
  }

  /** The direct probe, then the nested one. */
  method ElementUrlOf(fs: Fields) returns (urlField: Option<string>)
    ensures urlField == ElementUrl(fs)
  {
    urlField := ProbeUrlKeys(fs, UrlKeys);
    if urlField.None? {
      urlField := ProbeNestedKeys(fs);
    }
  }

  /** The `for nested_key in [...]` loop with its `break`. */
  method ProbeNestedKeys(fs: Fields) returns (urlField: Option<string>)
    ensures urlField == NestedUrl(fs, NestedKeys)
  {
    urlField := None;
    var n := 0;
    while n < |NestedKeys|
      invariant 0 <= n <= |NestedKeys|
      invariant urlField.None?
      invariant NestedUrl(fs, NestedKeys) == NestedUrl(fs, NestedKeys[n..])
      decreases |NestedKeys| - n
    {
      var nested := Unwrap(Get(fs, NestedKeys[n]));
      if nested.JObj? {
        urlField := ProbeUrlKeys(nested.fields, UrlKeys);
        if urlField.Some? {
          break;
        }
      }
      assert NestedKeys[n..][1..] == NestedKeys[n + 1..];
      n := n + 1;
    }
  }

  /** The `for img in imgs` loop over one key's list. */
  method CollectElements(items: seq<Json>) returns (images: seq<string>)
    ensures images == CollectList([], items)
  {
    images := [];
    var j := 0;
    while j < |items|
      invariant 0 <= j <= |items|
      invariant CollectList(images, items[j..]) == CollectList([], items)
      decreases |items| - j
    {
      var img := items[j];
      if img.JObj? {
        img := Unwrap(img);
      }
      if !img.JObj? {
        if img.JStr? && StartsWith(img.s, "http") {
          images := images + [img.s];
        }
      } else {
        var urlField := ElementUrlOf(img.fields);
        if urlField.Some? && urlField.value !in images {
          images := images + [urlField.value];
        }
      }
      assert items[j..][1..] == items[j + 1..];
      j := j + 1;
    }
  }

  /** The image block: for each image key, append the URLs of its elements,
      and stop after the first key that produced any. */
  method CollectImages(fs: Fields) returns (images: seq<string>)
    ensures images == ImagesFrom(fs, ImageKeys)
  {
    images := [];
    var k := 0;
    while k < |ImageKeys|
      invariant 0 <= k <= |ImageKeys|
      invariant images == []
      invariant ImagesFrom(fs, ImageKeys) == ImagesFrom(fs, ImageKeys[k..])
      decreases |ImageKeys| - k
    {
      var imgs := Get(fs, ImageKeys[k]);
      imgs := if Truthy(imgs) then Unwrap(imgs) else JNull;
      if imgs.JList? && |imgs.items| > 0 {
        images := CollectElements(imgs.items);
        assert images == KeyImages(fs, ImageKeys[k]);
        if images != [] {
          break;
        }
      }
      assert ImageKeys[k..][1..] == ImageKeys[k + 1..];
      k := k + 1;
    }
  }

  /** Every collected URL starts with "http". */
  lemma {:induction false} ImagesAreHttp(fs: Fields, keys: seq<string>)
    ensures AllHttp(ImagesFrom(fs, keys))
    decreases |keys|
  {
    if |keys| > 0 && KeyImages(fs, keys[0]) == [] {
      ImagesAreHttp(fs, keys[1..]);
    }
  }

  /** Collection stops at the first key that contributes: the result is that
      key's images. */
  lemma {:induction false} ImagesFromFirstProductiveKey(fs: Fields, keys: seq<string>, i: nat)
    requires i < |keys| && KeyImages(fs, keys[i]) != []
    requires forall j :: 0 <= j < i ==> KeyImages(fs, keys[j]) == []
    ensures ImagesFrom(fs, keys) == KeyImages(fs, keys[i])
    decreases i
  {
    if i > 0 {
      assert KeyImages(fs, keys[0]) == [];
      assert keys[1..][i - 1] == keys[i];
      forall j | 0 <= j < i - 1 ensures KeyImages(fs, keys[1..][j]) == [] {
        assert keys[1..][j] == keys[j + 1];
      }
      ImagesFromFirstProductiveKey(fs, keys[1..], i - 1);
    }
  }

  /** When no key contributes, there are no images. */
  lemma {:induction false} ImagesFromNoProductiveKey(fs: Fields, keys: seq<string>)
    requires forall i :: 0 <= i < |keys| ==> KeyImages(fs, keys[i]) == []
    ensures ImagesFrom(fs, keys) == []
    decreases |keys|
  {
    if |keys| > 0 {
      assert KeyImages(fs, keys[0]) == [];
      forall j | 0 <= j < |keys| - 1 ensures KeyImages(fs, keys[1..][j]) == [] {
        assert keys[1..][j] == keys[j + 1];
      }
      ImagesFromNoProductiveKey(fs, keys[1..]);
    }
  }

  /** URLs taken from mapping elements are never repeated: with no bare
      string URL among the elements, the collected list has no duplicates. */
  lemma {:induction false} CollectListDistinct(images: seq<string>, items: seq<Json>)
    requires Distinct(images)
    requires forall i :: 0 <= i < |items| ==> !BareUrl(items[i])
    ensures Distinct(CollectList(images, items))
    decreases |items|
  {
    if |items| > 0 {
      var next := AddElement(images, items[0]);
      if next != images {
        assert next == images + [next[|images|]];
      }
      assert Distinct(next);
      CollectListDistinct(next, items[1..]);
    }
  }

  /** Bare string elements skip the duplicate check: the same URL twice is
      kept twice. */
  lemma BareUrlsRepeat(u: string)
    requires StartsWith(u, "http")
    ensures CollectList([], [JStr(u), JStr(u)]) == [u, u]
  {
    assert Element(JStr(u)) == JStr(u) && IsHttpString(JStr(u));
    assert AddElement([], JStr(u)) == [u];
    assert AddElement([u], JStr(u)) == [u, u];
    assert [JStr(u), JStr(u)][1..] == [JStr(u)];
    assert CollectList([u, u], []) == [u, u];
    assert CollectList([u], [JStr(u)]) == [u, u];
  }
}
