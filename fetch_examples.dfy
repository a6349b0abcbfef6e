/** The parsing scenarios of the unit tests of `_parse_note_from_state`,
    stated over arbitrary strings where the tests use literals. */
module FetchExamples {
  import opened Strings
  import opened PyJson
  import opened VueValue
  import opened UrlPatterns
  import opened Models
  import opened NoteShapes
  import opened NoteFields
  import opened XhsFetch

  /** A mapping element with one URL-bearing key. */
  function UrlElement(key: string, u: string): Json {
    JObj([(key, JStr(u))])
  }

  lemma ProbeFirstKey(fs: Fields, keys: seq<string>, u: string)
    requires |keys| > 0 && StartsWith(u, "http") && Get(fs, keys[0]) == JStr(u)
    ensures ProbeUrl(fs, keys) == Some(u)
  {
    assert Unwrap(JStr(u)) == JStr(u);
  }

  lemma ProbeMissing(fs: Fields, keys: seq<string>)
    requires forall i :: 0 <= i < |keys| ==> !HasKey(fs, keys[i])
    ensures ProbeUrl(fs, keys) == None
  {
  }

  /** An element `{key: u}` for the URL key at position `n` yields `u`. */
  lemma ElementWithUrlKey(n: nat, u: string)
    requires n < |UrlKeys| && StartsWith(u, "http")
    ensures ElementUrl(UrlElement(UrlKeys[n], u).fields) == Some(u)
  {
    var fs := [(UrlKeys[n], JStr(u))];
    assert Get(fs, UrlKeys[n]) == JStr(u);
    forall i | 0 <= i < n ensures !HasKey(fs, UrlKeys[..n][i]) {
      assert UrlKeys[..n][i] == UrlKeys[i];
    }
    ProbeMissing(fs, UrlKeys[..n]);
    ProbeFirstKey(fs, UrlKeys[n..], u);
    ProbeSkip(fs, UrlKeys, n);
  }

  /** Keys that miss before position `n` do not change the probe. */
  lemma {:induction false} ProbeSkip(fs: Fields, keys: seq<string>, n: nat)
    requires n <= |keys| && ProbeUrl(fs, keys[..n]) == None
    ensures ProbeUrl(fs, keys) == ProbeUrl(fs, keys[n..])
    decreases n
  {
    if n > 0 {
      assert keys[..n][0] == keys[0];
      assert !IsHttpString(Unwrap(Get(fs, keys[0])));
      assert keys[..n][1..] == keys[1..][..n - 1];
      assert keys[1..][n - 1..] == keys[n..];
      ProbeSkip(fs, keys[1..], n - 1);
    }
  }

  /** `d.get(k)` for the first binding of `k`. */
  lemma GetAt(fs: Fields, i: nat)
    requires i < |fs| && forall j :: 0 <= j < i ==> fs[j].0 != fs[i].0
    ensures HasKey(fs, fs[i].0) && Get(fs, fs[i].0) == fs[i].1
  {
  }

  function Structure1State(id: string, note: Json): Fields {
    [("note", JObj([("firstNoteId", JStr(id)), ("noteDetailMap", JObj([(id, JObj([("note", note)]))]))]))]
  }

  lemma Structure1Located(id: string, note: Json)
    requires id != "" && note != JNull
    ensures Locate(Structure1State(id, note)) == Located(note, JStr(id))
  {
    var detail := [(id, JObj([("note", note)]))];
    var root := [("firstNoteId", JStr(id)), ("noteDetailMap", JObj(detail))];
    GetAt(root, 1);
    GetAt(detail, 0);
    assert Shape1(Structure1State(id, note)) == Located(note, JStr(id));
  }

  function Structure1Note(id: string, t: string, d: string, u1: string, u2: string): Fields {
    [("noteId", JStr(id)), ("title", JStr(t)), ("desc", JStr(d)),
     ("imageList", JList([UrlElement("url", u1), UrlElement("url", u2)]))]
  }

  lemma Structure1Title(id: string, t: string, d: string, u1: string, u2: string)
    requires t != ""
    ensures TitleValue(Structure1Note(id, t, d, u1, u2)) == Ok(JStr(t))
  {
    GetAt(Structure1Note(id, t, d, u1, u2), 1);
  }

  lemma Structure1Text(id: string, t: string, d: string, u1: string, u2: string)
    requires d != ""
    ensures TextValue(Structure1Note(id, t, d, u1, u2)) == JStr(d)
  {
    var nfs := Structure1Note(id, t, d, u1, u2);
    GetAt(nfs, 2);
    var vs := Unwrapped(nfs, TextKeys) + [JStr("")];
    assert vs[0] == JStr(d);
  }

  /** Adding an element `{key: u}`, for the URL key at position `n`. */
  lemma AddUrlElement(images: seq<string>, n: nat, u: string)
    requires n < |UrlKeys| && StartsWith(u, "http")
    ensures AddElement(images, UrlElement(UrlKeys[n], u)) == if u in images then images else images + [u]
  {
    var e := UrlElement(UrlKeys[n], u);
    assert !IsWrapper(e) by {
      assert UrlKeys[n][0] != '_';
      assert !HasKey(e.fields, "value");
    }
    UnwrapKeepsPlainValues(e);
    ElementWithUrlKey(n, u);
  }

  /** Two distinct `url` elements give both URLs, in order. */
  lemma TwoUrlElements(u1: string, u2: string)
    requires u1 != u2 && StartsWith(u1, "http") && StartsWith(u2, "http")
    ensures CollectList([], [UrlElement("url", u1), UrlElement("url", u2)]) == [u1, u2]
  {
    var imgs := [UrlElement("url", u1), UrlElement("url", u2)];
    AddUrlElement([], 0, u1);
    AddUrlElement([u1], 0, u2);
    assert CollectList([u1, u2], []) == [u1, u2];
    assert CollectList([u1], imgs[1..]) == [u1, u2];
  }

  lemma Structure1ImageList(id: string, t: string, d: string, u1: string, u2: string)
    requires u1 != u2 && StartsWith(u1, "http") && StartsWith(u2, "http")
    ensures KeyImages(Structure1Note(id, t, d, u1, u2), "imageList") == [u1, u2]
  {
    var nfs := Structure1Note(id, t, d, u1, u2);
    GetAt(nfs, 3);
    KeyImagesOfList(nfs, "imageList", [UrlElement("url", u1), UrlElement("url", u2)]);
    TwoUrlElements(u1, u2);
  }

  /** A key bound to a non-empty list collects over that list's elements. */
  lemma KeyImagesOfList(fs: Fields, key: string, items: seq<Json>)
    requires Get(fs, key) == JList(items) && |items| > 0
    ensures KeyImages(fs, key) == CollectList([], items)
  {
    UnwrapKeepsPlainValues(JList(items));
  }

  lemma Structure1Images(id: string, t: string, d: string, u1: string, u2: string)
    requires u1 != u2 && StartsWith(u1, "http") && StartsWith(u2, "http")
    ensures ImagesFrom(Structure1Note(id, t, d, u1, u2), ImageKeys) == [u1, u2]
  {
    Structure1ImageList(id, t, d, u1, u2);
    ImagesFromFirstProductiveKey(Structure1Note(id, t, d, u1, u2), ImageKeys, 0);
  }

  lemma Structure1Fields(id: string, t: string, d: string, u1: string, u2: string, url: string, uuid: string)
    requires id != "" && t != "" && d != "" && u1 != u2
    requires StartsWith(u1, "http") && StartsWith(u2, "http")
    ensures var nfs := Structure1Note(id, t, d, u1, u2);
      NoteFrom(nfs, JStr(id), url, uuid) == Ok(Note(id, url, t, d, "", [u1, u2], JObj(nfs)))
  {
    Structure1Title(id, t, d, u1, u2);
    Structure1Text(id, t, d, u1, u2);
    Structure1Images(id, t, d, u1, u2);
    assert NoteIdText(Structure1Note(id, t, d, u1, u2), JStr(id), url, uuid) == id;
  }

  /** Structure 1 (`note.noteDetailMap[firstNoteId].note`) with an id, title,
      text and two `url` images: all four come through unchanged. */
  lemma Structure1(id: string, t: string, d: string, u1: string, u2: string, url: string, uuid: string)
    requires id != "" && t != "" && d != "" && u1 != u2
    requires StartsWith(u1, "http") && StartsWith(u2, "http")
    ensures var note := JObj(Structure1Note(id, t, d, u1, u2));
      ParseSpec(Structure1State(id, note), url, uuid) == Ok(Note(id, url, t, d, "", [u1, u2], note))
  {
    Structure1Located(id, JObj(Structure1Note(id, t, d, u1, u2)));
    Structure1Fields(id, t, d, u1, u2, url, uuid);
  }

  function Structure2State(nd: Json): Fields {
    [("noteData", JObj([("data", JObj([("noteData", nd)]))]))]
  }

  function Structure2Note(id: string, t: string, c: string, u: string): Fields {
    [("noteId", JStr(id)), ("displayTitle", JStr(t)), ("noteContent", JStr(c)),
     ("images", JList([UrlElement("originUrl", u)]))]
  }

  lemma Structure2Located(nd: Json)
    requires nd != JNull
    ensures Locate(Structure2State(nd)) == Located(nd, JNull)
  {
    var state := Structure2State(nd);
    assert !HasKey(state, "note");
    assert Shape1(state) == Located(JNull, JNull);
  }

  lemma Structure2Title(id: string, t: string, c: string, u: string)
    requires t != ""
    ensures TitleValue(Structure2Note(id, t, c, u)) == Ok(JStr(t))
  {
    var nfs := Structure2Note(id, t, c, u);
    assert !HasKey(nfs, "title");
    GetAt(nfs, 1);
  }

  lemma Structure2Text(id: string, t: string, c: string, u: string)
    requires c != ""
    ensures TextValue(Structure2Note(id, t, c, u)) == JStr(c)
  {
    var nfs := Structure2Note(id, t, c, u);
    assert !HasKey(nfs, "desc");
    GetAt(nfs, 2);
    var vs := Unwrapped(nfs, TextKeys) + [JStr("")];
    assert vs[0] == JNull && vs[1] == JStr(c);
    assert vs[1..][0] == JStr(c);
  }

  lemma Structure2Id(id: string, t: string, c: string, u: string, url: string, uuid: string)
    requires id != ""
    ensures NoteIdText(Structure2Note(id, t, c, u), JNull, url, uuid) == id
  {
    var nfs := Structure2Note(id, t, c, u);
    GetAt(nfs, 0);
    var vs := Unwrapped(nfs, IdKeys);
    assert vs[0] == JStr(id);
  }

  /** One element `{key: u}`, for the URL key at position `n`, gives `[u]`. */
  lemma OneUrlElement(n: nat, u: string)
    requires n < |UrlKeys| && StartsWith(u, "http")
    ensures CollectList([], [UrlElement(UrlKeys[n], u)]) == [u]
  {
    AddUrlElement([], n, u);
    assert CollectList([u], []) == [u];
  }

  lemma Structure2ImageKey(id: string, t: string, c: string, u: string)
    requires StartsWith(u, "http")
    ensures KeyImages(Structure2Note(id, t, c, u), "images") == [u]
  {
    var nfs := Structure2Note(id, t, c, u);
    GetAt(nfs, 3);
    KeyImagesOfList(nfs, "images", [UrlElement("originUrl", u)]);
    OneUrlElement(1, u);
  }

  /** A key the note lacks contributes no images. */
  lemma MissingKeyNoImages(fs: Fields, key: string)
    requires !HasKey(fs, key)
    ensures KeyImages(fs, key) == []
  {
  }

  /** Images from the third key when the first two contribute nothing. */
  lemma ImagesFromThirdKey(fs: Fields, imgs: seq<string>)
    requires KeyImages(fs, "imageList") == [] && KeyImages(fs, "imageInfoList") == []
    requires KeyImages(fs, "images") == imgs && imgs != []
    ensures ImagesFrom(fs, ImageKeys) == imgs
  {
    assert ImageKeys[2] == "images";
    forall j | 0 <= j < 2 ensures KeyImages(fs, ImageKeys[j]) == [] {
      assert ImageKeys[j] == if j == 0 then "imageList" else "imageInfoList";
    }
    ImagesFromFirstProductiveKey(fs, ImageKeys, 2);
  }

  lemma Structure2Images(id: string, t: string, c: string, u: string)
    requires StartsWith(u, "http")
    ensures ImagesFrom(Structure2Note(id, t, c, u), ImageKeys) == [u]
  {
    var nfs := Structure2Note(id, t, c, u);
    Structure2ImageKey(id, t, c, u);
    Structure2NoImageList(id, t, c, u);
    MissingKeyNoImages(nfs, "imageList");
    MissingKeyNoImages(nfs, "imageInfoList");
    ImagesFromThirdKey(nfs, [u]);
  }

  /** The structure-2 note has neither `imageList` nor `imageInfoList`. */
  lemma Structure2NoImageList(id: string, t: string, c: string, u: string)
    ensures !HasKey(Structure2Note(id, t, c, u), "imageList")
    ensures !HasKey(Structure2Note(id, t, c, u), "imageInfoList")
  {
  }

  /** Structure 2 (`noteData.data.noteData`) with `displayTitle`,
      `noteContent` and one `originUrl` image. */
  lemma Structure2(id: string, t: string, c: string, u: string, url: string, uuid: string)
    requires id != "" && t != "" && c != "" && StartsWith(u, "http")
    ensures var note := JObj(Structure2Note(id, t, c, u));
      ParseSpec(Structure2State(note), url, uuid) == Ok(Note(id, url, t, c, "", [u], note))
  {
    Structure2Located(JObj(Structure2Note(id, t, c, u)));
    Structure2Title(id, t, c, u);
    Structure2Text(id, t, c, u);
    Structure2Id(id, t, c, u, url, uuid);
    Structure2Images(id, t, c, u);
  }

  lemma CollectCons(images: seq<string>, items: seq<Json>)
    requires |items| > 0
    ensures CollectList(images, items) == CollectList(AddElement(images, items[0]), items[1..])
  {
  }

  /** An element whose URL sits in `info.url`. */
  lemma InfoUrlElement(images: seq<string>, c: string)
    requires StartsWith(c, "http")
    ensures AddElement(images, JObj([("info", UrlElement("url", c))])) == if c in images then images else images + [c]
  {
    var nested := JObj([("info", UrlElement("url", c))]);
    assert !IsWrapper(nested) by {
      assert !HasKey(nested.fields, "value");
    }
    UnwrapKeepsPlainValues(nested);
    InfoElementUrl(c);
  }

  /** No URL key at the top of `{info: {url: c}}`, so `info.url` is taken. */
  lemma InfoElementUrl(c: string)
    requires StartsWith(c, "http")
    ensures ElementUrl([("info", UrlElement("url", c))]) == Some(c)
  {
    var fs := [("info", UrlElement("url", c))];
    ProbeMissing(fs, UrlKeys);
    InfoNestedUrl(c);
  }

  lemma InfoNestedUrl(c: string)
    requires StartsWith(c, "http")
    ensures NestedUrl([("info", UrlElement("url", c))], NestedKeys) == Some(c)
  {
    var inner := UrlElement("url", c);
    assert Get([("info", inner)], NestedKeys[0]) == inner;
    assert !IsWrapper(inner) by {
      assert !HasKey(inner.fields, "value");
    }
    UnwrapKeepsPlainValues(inner);
    ElementWithUrlKey(0, c);
  }

  lemma PicUrlThenInfo(a: string, b: string, c: string)
    requires StartsWith(b, "http") && StartsWith(c, "http")
    requires a != b && b != c && a != c
    ensures CollectList([a], [UrlElement("picUrl", b), JObj([("info", UrlElement("url", c))])]) == [a, b, c]
  {
    var e2 := UrlElement("picUrl", b);
    var e3 := JObj([("info", UrlElement("url", c))]);
    assert CollectList([a, b], [e3]) == [a, b, c] by {
      InfoUrlElement([a, b], c);
      CollectCons([a, b], [e3]);
    }
    assert AddElement([a], e2) == [a, b] by {
      assert UrlKeys[5] == "picUrl";
      AddUrlElement([a], 5, b);
      assert b !in [a];
      assert [a] + [b] == [a, b];
    }
    CollectCons([a], [e2, e3]);
    assert [e2, e3][1..] == [e3];
  }

  /** Elements carrying their URL under `urlDefault`, under `picUrl` and
      inside `info` all contribute, in order. */
  lemma ImageFieldVariants(a: string, b: string, c: string)
    requires StartsWith(a, "http") && StartsWith(b, "http") && StartsWith(c, "http")
    requires a != b && b != c && a != c
    ensures CollectList([], [UrlElement("urlDefault", a), UrlElement("picUrl", b),
                             JObj([("info", UrlElement("url", c))])]) == [a, b, c]
  {
    var e1 := UrlElement("urlDefault", a);
    var e2 := UrlElement("picUrl", b);
    var e3 := JObj([("info", UrlElement("url", c))]);
    PicUrlThenInfo(a, b, c);
    assert AddElement([], e1) == [a] by {
      assert UrlKeys[4] == "urlDefault";
      AddUrlElement([], 4, a);
    }
    CollectCons([], [e1, e2, e3]);
    assert [e1, e2, e3][1..] == [e2, e3];
  }

  /** The explore id of a full note URL. */
  lemma ExploreUrlId()
    ensures NoteIdFromPatterns("https://www.xiaohongshu.com/explore/abc123") == Some("abc123")
  {
    var url := "https://www.xiaohongshu.com/explore/abc123";
    ExploreMissesBefore(url);
    ExploreMatchesAt(url);
    SearchIsLeftmost(url, Explore);
  }

  /** No `/explore/` occurrence starts before the path. */
  lemma ExploreMissesBefore(url: string)
    requires url == "https://www.xiaohongshu.com/explore/abc123"
    ensures forall k: nat :: k < 27 ==> MatchAt(url, k, Explore).None?
  {
    forall k: nat | k < 27 ensures MatchAt(url, k, Explore).None? {
      if MatchAt(url, k, Explore).Some? {
        MatchNeedsLead(url, k, Explore);
        assert false;
      }
    }
  }

  lemma ExploreMatchesAt(url: string)
    requires url == "https://www.xiaohongshu.com/explore/abc123"
    ensures MatchAt(url, 27, Explore) == Some("abc123")
  {
    assert |url| == 42;
    assert url[27..36] == "/explore/";
    assert GroupStart(url, 27, Explore) == Some(36);
    assert HexRunEnd(url, 36) == 42;
    assert url[36..42] == "abc123";
  }

  /** A state with no note shape yields the degraded note, whose id is the
      one in the URL. */
  lemma MissingData(uuid: string)
    ensures var state := [("other", JStr("data"))];
      var url := "https://www.xiaohongshu.com/explore/abc123";
      var r := ParseSpec(state, url, uuid);
      r == Ok(DegradedNote(state, url, uuid))
      && r.value.id == "abc123" && r.value.title == DegradedTitle && r.value.text == ""
  {
    var state := [("other", JStr("data"))];
    assert !NoteKey("other") by {
      assert Lower("other") == "other";
      if Contains("other", "note") {
        ContainsMeans("other", "note");
        var k :| OccursAt("other", k, "note");
        OccursAtChar("other", k, "note", 0);
        assert false;
      }
    }
    assert Locate(state).noteData == JNull;
    ExploreUrlId();
  }
}
