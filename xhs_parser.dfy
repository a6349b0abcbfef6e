/** The older HTML-page parser: `extract_note_id_from_url` and the part of
    `fetch_xhs_note` that reads the decoded `__INITIAL_STATE__` and then fixes
    up title and text. The HTTP requests and the HTML fallback are outside the
    model; the URL a short link redirects to is a parameter. */
module XhsParser {
  import opened Strings
  import opened PyJson
  import opened UrlPatterns
  import opened Models
  import opened NoteShapes
  import opened NoteFields

  /** `extract_note_id_from_url(url)`. For a short link, `redirect` is the URL
      the HEAD request ended at, or `None` when the request raised. */
  function NoteIdFromUrl(url: string, redirect: Option<string>): Option<string> {
    if Contains(url, "xhslink.com") then
      match redirect
      case None => None
      case Some(u) => NoteIdFromPatterns(u)
    else NoteIdFromPatterns(url)
  }

  const PatternOrder: seq<Pattern> := [Explore, DiscoveryItem, User]

  /** The loop over the three patterns with its early return. */
  method ExtractNoteIdFromUrl(url: string, redirect: Option<string>) returns (id: Option<string>)
    ensures id == NoteIdFromUrl(url, redirect)
  {
    var target := url;
    if Contains(url, "xhslink.com") {
      if redirect.None? {
        return None;
      }
      target := redirect.value;
    }
    assert NoteIdFromUrl(url, redirect) == NoteIdFromPatterns(target);
    var patterns := PatternOrder;
    for i := 0 to |patterns|
      invariant forall j :: 0 <= j < i ==> Search(target, patterns[j]).None?
    {
      var m := Search(target, patterns[i]);
      if m.Some? {
        if i == 0 {
          assert patterns[0] == Explore;
        } else if i == 1 {
          assert patterns[0] == Explore && patterns[1] == DiscoveryItem;
        } else {
          assert patterns[0] == Explore && patterns[1] == DiscoveryItem && patterns[2] == User;
        }
        return m;
      }
    }
    assert Search(target, patterns[0]).None? && Search(target, patterns[1]).None? && Search(target, patterns[2]).None?;
    return None;
  }

  /** A returned id is a non-empty run of `[a-f0-9]` that the first matching
      pattern captured; an ordinary URL ignores `redirect`. */
  lemma NoteIdFromUrlMeans(url: string, redirect: Option<string>)
    ensures !Contains(url, "xhslink.com") ==> NoteIdFromUrl(url, redirect) == NoteIdFromUrl(url, None)
    ensures Contains(url, "xhslink.com") && redirect.None? ==> NoteIdFromUrl(url, redirect).None?
    ensures NoteIdFromUrl(url, redirect).Some? ==>
      var id := NoteIdFromUrl(url, redirect).value;
      |id| >= 1 && (forall k :: 0 <= k < |id| ==> IsHexLower(id[k]))
      && var target := if Contains(url, "xhslink.com") then redirect.value else url;
      (Search(target, Explore) == Some(id)
       || (Search(target, Explore).None? && Search(target, DiscoveryItem) == Some(id))
       || (Search(target, Explore).None? && Search(target, DiscoveryItem).None? && Search(target, User) == Some(id)))
  {
    if NoteIdFromUrl(url, redirect).Some? {
      var target := if Contains(url, "xhslink.com") then redirect.value else url;
      var p := if Search(target, Explore).Some? then Explore
        else if Search(target, DiscoveryItem).Some? then DiscoveryItem
        else User;
      assert Search(target, p) == NoteIdFromUrl(url, redirect);
      SearchIsLeftmost(target, p);
    }
  }

  /** `not note_data` after `note or noteDetail`: the value of the first key
      from `i` on whose lower-cased name contains "note", else `fallback`. */
  function NoteKeyValueFrom(state: Fields, i: nat, fallback: Json): Json
    requires i <= |state|
    decreases |state| - i
  {
    if i == |state| then fallback
    else if NoteKey(state[i].0) then Get(state, state[i].0)
    else NoteKeyValueFrom(state, i + 1, fallback)
  }

  /** `initial_state.get('note', {}) or initial_state.get('noteDetail', {})`,
      else the loop over the keys. */
  function ChooseNoteData(state: Fields): Json {
    var first := Or(GetOr(state, "note", JObj([])), GetOr(state, "noteDetail", JObj([])));
    if Truthy(first) then first else NoteKeyValueFrom(state, 0, first)
  }

  /** `note` when truthy, else `noteDetail` when truthy, else the value of the
      first note-named key (even a falsy one); with no such key, nothing. */
  lemma {:induction false} ChooseNoteDataOrder(state: Fields)
    ensures Truthy(Get(state, "note")) ==> ChooseNoteData(state) == Get(state, "note")
    ensures !Truthy(Get(state, "note")) && Truthy(Get(state, "noteDetail")) ==>
      ChooseNoteData(state) == Get(state, "noteDetail")
    ensures !Truthy(Get(state, "note")) && !Truthy(Get(state, "noteDetail")) ==>
      ((exists k :: 0 <= k < |state| && NoteKey(state[k].0)) ==>
        exists k :: 0 <= k < |state| && NoteKey(state[k].0) && ChooseNoteData(state) == Get(state, state[k].0)
          && forall j :: 0 <= j < k ==> !NoteKey(state[j].0))
    ensures (forall k :: 0 <= k < |state| ==> !NoteKey(state[k].0)) ==>
      (Truthy(ChooseNoteData(state)) <==> Truthy(Get(state, "note")) || Truthy(Get(state, "noteDetail")))
  {
    var first := Or(GetOr(state, "note", JObj([])), GetOr(state, "noteDetail", JObj([])));
    NoteKeyValueFromFirst(state, 0, first);
  }

  /** No key of the state between `lo` (inclusive) and `hi` (exclusive) is note-named. */
  predicate NoNoteKeyBetween(state: Fields, lo: nat, hi: nat)
    requires lo <= hi <= |state|
  {
    forall j :: lo <= j < hi ==> !NoteKey(state[j].0)
  }

  lemma {:induction false} NoteKeyValueFromFirst(state: Fields, i: nat, fallback: Json)
    requires i <= |state|
    ensures (exists k :: i <= k < |state| && NoteKey(state[k].0)) ==>
      exists k :: (i <= k < |state| && NoteKey(state[k].0) && NoteKeyValueFrom(state, i, fallback) == Get(state, state[k].0)
        && NoNoteKeyBetween(state, i, k))
    ensures NoNoteKeyBetween(state, i, |state|) ==> NoteKeyValueFrom(state, i, fallback) == fallback
    decreases |state| - i
  {
    if i < |state| {
      NoteKeyValueStep(state, i, fallback);
      if NoteKey(state[i].0) {
        assert NoNoteKeyBetween(state, i, i);
      } else {
        NoteKeyValueFromFirst(state, i + 1, fallback);
        NoteKeyShift(state, i);
      }
    }
  }

  /** One step of the key loop: a note-named key answers, any other key passes on. */
  lemma NoteKeyValueStep(state: Fields, i: nat, fallback: Json)
    requires i < |state|
    ensures NoteKey(state[i].0) ==> NoteKeyValueFrom(state, i, fallback) == Get(state, state[i].0)
    ensures !NoteKey(state[i].0) ==> NoteKeyValueFrom(state, i, fallback) == NoteKeyValueFrom(state, i + 1, fallback)
  {
  }

  /** Past a key that is not note-named, the note keys and the gaps before them are those from the next key on. */
  lemma NoteKeyShift(state: Fields, i: nat)
    requires i < |state| && !NoteKey(state[i].0)
    ensures (exists k :: i <= k < |state| && NoteKey(state[k].0)) ==> exists k :: i + 1 <= k < |state| && NoteKey(state[k].0)
    ensures forall k :: i + 1 <= k <= |state| ==> (NoNoteKeyBetween(state, i, k) <==> NoNoteKeyBetween(state, i + 1, k))
  {
  }

  /** One of the eight places an image mapping is probed: `img.get(key)` or
      `img.get(sub, {}).get(key)`. */
  datatype Lookup = Top(key: string) | Nested(sub: string, key: string)

  const ImageUrlLookups: seq<Lookup> := [
    Top("url"), Top("urlDefault"), Top("picUrl"),
    Nested("info", "url"), Nested("info", "urlDefault"), Nested("info", "picUrl"),
    Nested("imageInfo", "url"), Nested("imageInfo", "urlDefault")]

  /** The value at one probe place; `.get` on a `sub` that is present but not
      a mapping raises. */
  function LookupValue(fs: Fields, l: Lookup): (r: Result<Json>)
    ensures r.TypeError? == false
  {
    match l
    case Top(key) => Ok(Get(fs, key))
    case Nested(sub, key) =>
      var m := GetOr(fs, sub, JObj([]));
      if m.JObj? then Ok(Get(m.fields, key))
      else AttributeError("'" + sub + "' value has no attribute 'get'")
  }

  /** The `or`-chain over the probe places: the first truthy value, else the
      last value, evaluating each place only while all earlier ones were falsy. */
  function FirstTruthyLookup(fs: Fields, ls: seq<Lookup>): (r: Result<Json>)
    requires |ls| >= 1
    ensures r.Ok? ==> (Truthy(r.value) <==> exists i :: 0 <= i < |ls| && LookupValue(fs, ls[i]).Ok? && Truthy(LookupValue(fs, ls[i]).value))
    decreases |ls|
  {
    var v := LookupValue(fs, ls[0]);
    if !v.Ok? then v
    else if Truthy(v.value) || |ls| == 1 then v
    else FirstTruthyLookup(fs, ls[1..])
  }

  /** Every probe place before position `i` was reached, raised nothing and held a falsy value. */
  predicate FalsyBefore(fs: Fields, ls: seq<Lookup>, i: nat)
    requires i <= |ls|
  {
    forall j :: 0 <= j < i ==> LookupValue(fs, ls[j]).Ok? && !Truthy(LookupValue(fs, ls[j]).value)
  }

  /** The chain stops at the first place that raises or holds a truthy value,
      or at the last place, every earlier place being falsy. */
  lemma {:induction false} FirstTruthyLookupOrder(fs: Fields, ls: seq<Lookup>)
    requires |ls| >= 1
    ensures exists i :: (0 <= i < |ls| && FirstTruthyLookup(fs, ls) == LookupValue(fs, ls[i]) && FalsyBefore(fs, ls, i)
      && (i == |ls| - 1 || !LookupValue(fs, ls[i]).Ok? || Truthy(LookupValue(fs, ls[i]).value)))
    decreases |ls|
  {
    var v := LookupValue(fs, ls[0]);
    if !v.Ok? || Truthy(v.value) || |ls| == 1 {
      assert FalsyBefore(fs, ls, 0);
    } else {
      FirstTruthyLookupOrder(fs, ls[1..]);
      var i :| 0 <= i < |ls[1..]| && FirstTruthyLookup(fs, ls[1..]) == LookupValue(fs, ls[1..][i])
        && FalsyBefore(fs, ls[1..], i)
        && (i == |ls[1..]| - 1 || !LookupValue(fs, ls[1..][i]).Ok? || Truthy(LookupValue(fs, ls[1..][i]).value));
      FalsyBeforeShift(fs, ls, i + 1);
      assert ls[1..][i] == ls[i + 1];
    }
  }

  lemma FalsyBeforeShift(fs: Fields, ls: seq<Lookup>, i: nat)
    requires 1 <= i <= |ls| && LookupValue(fs, ls[0]).Ok? && !Truthy(LookupValue(fs, ls[0]).value)
    ensures FalsyBefore(fs, ls, i) <==> FalsyBefore(fs, ls[1..], i - 1)
  {
    assert forall j :: 1 <= j < i ==> ls[j] == ls[1..][j - 1];
  }

  /** A falsy answer of the chain is the last place's value, every place being falsy. */
  lemma FirstTruthyLookupAllFalsy(fs: Fields, ls: seq<Lookup>)
    requires |ls| >= 1
    ensures FirstTruthyLookup(fs, ls).Ok? && !Truthy(FirstTruthyLookup(fs, ls).value) ==>
      FirstTruthyLookup(fs, ls) == LookupValue(fs, ls[|ls| - 1]) && FalsyBefore(fs, ls, |ls|)
  {
    FirstTruthyLookupOrder(fs, ls);
  }

  /** The URL one element of the image list offers: strings as they are, the
      probe chain for mappings, nothing for falsy or other values. A truthy
      non-string from the chain has no `startswith` and raises. */
  function ElementUrl(img: Json): Result<Option<string>> {
    if !Truthy(img) then Ok(None)
    else match img
      case JStr(s) => Ok(Some(s))
      case JObj(fs) =>
        var v := FirstTruthyLookup(fs, ImageUrlLookups);
        if !v.Ok? then Propagate(v)
        else if !Truthy(v.value) then Ok(None)
        else if v.value.JStr? then Ok(Some(v.value.s))
        else AttributeError("image URL has no attribute 'startswith'")
      case _ => Ok(None)
  }

  /** What `for img in image_list` visits: list items, the one-character
      strings of a string, the keys of a mapping; an int or bool raises. */
  function Elements(v: Json): (r: Result<seq<Json>>)
    ensures v.JList? ==> r == Ok(v.items)
    ensures v.JStr? ==> r.Ok? && |r.value| == |v.s| && forall i :: 0 <= i < |v.s| ==> r.value[i] == JStr([v.s[i]])
    ensures v.JObj? ==> r.Ok? && |r.value| == |v.fields| && forall i :: 0 <= i < |v.fields| ==> r.value[i] == JStr(v.fields[i].0)
    ensures r.Ok? <==> !(v.JNull? || v.JInt? || v.JBool?)
  {
    match v
    case JList(items) => Ok(items)
    case JStr(s) => Ok(seq(|s|, i requires 0 <= i < |s| => JStr([s[i]])))
    case JObj(fs) => Ok(seq(|fs|, i requires 0 <= i < |fs| => JStr(fs[i].0)))
    case _ => TypeError("object is not iterable")
  }

  /** `note_data.get('imageList', []) or note_data.get('images', []) or []`. */
  function ImageList(fs: Fields): Json {
    Or(Or(GetOr(fs, "imageList", JList([])), GetOr(fs, "images", JList([]))), JList([]))
  }

  /** The image list collected so far, and whether an element raised (which
      ends the loop and keeps what was appended before). */
  datatype Collected = Collected(images: seq<string>, failed: bool)

  /** Whether `img_url` is appended to `images`. */
  predicate Keeps(images: seq<string>, u: string) {
    StartsWith(u, "http") && u !in images
  }

  /** The loop body over the remaining elements, starting from `images`. */
  function CollectFrom(elems: seq<Json>, images: seq<string>): (r: Collected)
    ensures |images| <= |r.images| && r.images[..|images|] == images
    decreases |elems|
  {
    if elems == [] then Collected(images, false)
    else
      var u := ElementUrl(elems[0]);
      if !u.Ok? then Collected(images, true)
      else if u.value.Some? && Keeps(images, u.value.value) then CollectFrom(elems[1..], images + [u.value.value])
      else CollectFrom(elems[1..], images)
  }

  /** Appending only new "http" URLs keeps a list of distinct "http" URLs. */
  lemma {:induction false} CollectFromKeepsInvariant(elems: seq<Json>, images: seq<string>)
    requires AllHttp(images) && Distinct(images)
    ensures AllHttp(CollectFrom(elems, images).images) && Distinct(CollectFrom(elems, images).images)
    decreases |elems|
  {
    if elems != [] {
      var u := ElementUrl(elems[0]);
      if u.Ok? && u.value.Some? && Keeps(images, u.value.value) {
        var next := images + [u.value.value];
        assert AllHttp(next) && Distinct(next);
        CollectFromKeepsInvariant(elems[1..], next);
      } else if u.Ok? {
        CollectFromKeepsInvariant(elems[1..], images);
      }
    }
  }

  /** When no element raises, the result holds exactly the earlier URLs and
      every "http" URL some element offered. */
  lemma {:induction false} CollectFromContents(elems: seq<Json>, images: seq<string>, u: string)
    requires !CollectFrom(elems, images).failed
    ensures u in CollectFrom(elems, images).images <==>
      u in images || (StartsWith(u, "http") && exists i :: 0 <= i < |elems| && ElementUrl(elems[i]) == Ok(Some(u)))
    decreases |elems|
  {
    if elems != [] {
      var w := ElementUrl(elems[0]);
      var next := if w.value.Some? && Keeps(images, w.value.value) then images + [w.value.value] else images;
      CollectFromContents(elems[1..], next, u);
      assert forall i :: 0 <= i < |elems| - 1 ==> elems[1..][i] == elems[i + 1];
      if StartsWith(u, "http") && (exists i :: 0 <= i < |elems| && ElementUrl(elems[i]) == Ok(Some(u))) {
        var i :| 0 <= i < |elems| && ElementUrl(elems[i]) == Ok(Some(u));
        if i > 0 {
          assert ElementUrl(elems[1..][i - 1]) == Ok(Some(u));
        }
      }
    }
  }

  /** The values the source reads before the final fix-up: title, text, and
      the image list. An exception inside the `try` is caught and leaves the
      values it had reached. */
  datatype Extracted = Extracted(title: Json, text: Json, images: seq<string>)

  function ExtractSpec(state: Fields): Extracted {
    var noteData := ChooseNoteData(state);
    if !Truthy(noteData) || !noteData.JObj? then Extracted(JStr(""), JStr(""), [])
    else
      var fs := noteData.fields;
      var t0 := GetOr(fs, "title", JStr(""));
      var card := GetOr(fs, "noteCard", JObj([]));
      if !Truthy(t0) && !card.JObj? then Extracted(JStr(""), JStr(""), [])
      else
        var title := if Truthy(t0) then t0 else GetOr(card.fields, "displayTitle", JStr(""));
        var text := Or(GetOr(fs, "desc", JStr("")), GetOr(fs, "content", JStr("")));
        var elems := Elements(ImageList(fs));
        if !elems.Ok? then Extracted(title, text, [])
        else Extracted(title, text, CollectFrom(elems.value, []).images)
  }

  /** `len(v)`, or `None` where Python raises `TypeError`. */
  function Len(v: Json): Option<nat> {
    match v
    case JStr(s) => Some(|s|)
    case JList(xs) => Some(|xs|)
    case JObj(fs) => Some(|fs|)
    case _ => None
  }

  /** The first line of the stripped text, cut to 100 characters and stripped. */
  function FirstLineTitle(text: string): string {
    Strip(Take(Split(text, '\n')[0], 100))
  }

  /** Title and text as the parser returns them. */
  datatype Parsed = Parsed(title: Json, text: string, images: seq<string>)

  /** Lines 214 and 225-234: strip the text; a falsy or shorter than five
      title is replaced by the first text line; then `or "未命名笔记"`. `strip`
      on a non-string and `len` on a truthy number raise outside the `try`. */
  function Finish(ex: Extracted): Result<Parsed> {
    if !ex.text.JStr? then AttributeError("text has no attribute 'strip'")
    else if Truthy(ex.title) && Len(ex.title).None? then TypeError("title has no len()")
    else
      var text := Strip(ex.text.s);
      var title := if !Truthy(ex.title) || Len(ex.title).value < 5 then JStr(FirstLineTitle(text)) else ex.title;
      Ok(Parsed(Or(title, JStr(UntitledTitle)), text, ex.images))
  }

  function ParseInitialState(state: Fields): Result<Parsed> {
    Finish(ExtractSpec(state))
  }

  /** `note_data = state.get('note', {}) or state.get('noteDetail', {})`,
      then the loop over the keys for the first one naming a note. */
  method ChooseNoteDataSteps(state: Fields) returns (noteData: Json)
    ensures noteData == ChooseNoteData(state)
  {
    noteData := Or(GetOr(state, "note", JObj([])), GetOr(state, "noteDetail", JObj([])));
    if !Truthy(noteData) {
      var keys := Keys(state);
      var i := 0;
      while i < |keys|
        invariant 0 <= i <= |keys|
        invariant ChooseNoteData(state) == NoteKeyValueFrom(state, i, noteData)
        decreases |keys| - i
      {
        if NoteKey(keys[i]) {
          noteData := Get(state, keys[i]);
          break;
        }
        i := i + 1;
      }
    }
  }

  /** The loop over the image list: each element's URL is appended when it
      starts with "http" and is new; an element that raises ends the loop. */
  method CollectImageUrls(xs: seq<Json>) returns (images: seq<string>)
    ensures images == CollectFrom(xs, []).images
  {
    images := [];
    var j := 0;
    while j < |xs|
      invariant 0 <= j <= |xs|
      invariant CollectFrom(xs, []) == CollectFrom(xs[j..], images)
      decreases |xs| - j
    {
      var u := ElementUrl(xs[j]);
      if !u.Ok? {
        break;
      }
      if u.value.Some? && StartsWith(u.value.value, "http") && u.value.value !in images {
        images := images + [u.value.value];
      }
      j := j + 1;
    }
  }

  /** The statements of `fetch_xhs_note` from the note-data choice to the
      returned title, text and images, with the `try` written as flags. */
  method ParseInitialStateSteps(state: Fields) returns (r: Result<Parsed>)
    ensures r == ParseInitialState(state)
  {
    var title := JStr("");
    var text := JStr("");
    var images: seq<string> := [];
    var noteData := ChooseNoteDataSteps(state);
    if Truthy(noteData) && noteData.JObj? {
      var fs := noteData.fields;
      var t0 := GetOr(fs, "title", JStr(""));
      var card := GetOr(fs, "noteCard", JObj([]));
      if Truthy(t0) || card.JObj? {
        title := if Truthy(t0) then t0 else GetOr(card.fields, "displayTitle", JStr(""));
        text := Or(GetOr(fs, "desc", JStr("")), GetOr(fs, "content", JStr("")));
        var elems := Elements(ImageList(fs));
        if elems.Ok? {
          images := CollectImageUrls(elems.value);
        }
      }
    }
    assert Extracted(title, text, images) == ExtractSpec(state);
    if !text.JStr? {
      return AttributeError("text has no attribute 'strip'");
    }
    var stripped := Strip(text.s);
    if Truthy(title) && Len(title).None? {
      return TypeError("title has no len()");
    }
    if !Truthy(title) || Len(title).value < 5 {
      var lines := Split(stripped, '\n');
      title := JStr(Strip(Take(lines[0], 100)));
    }
    r := Ok(Parsed(Or(title, JStr(UntitledTitle)), stripped, images));
  }

  /** Every kept image URL starts with "http" and none repeats, strings
      included; without an exception, the list holds exactly the "http" URLs
      the elements offered. */
  lemma ParserImagesDistinctHttp(state: Fields)
    ensures AllHttp(ExtractSpec(state).images) && Distinct(ExtractSpec(state).images)
  {
    var noteData := ChooseNoteData(state);
    if Truthy(noteData) && noteData.JObj? {
      var elems := Elements(ImageList(noteData.fields));
      if elems.Ok? {
        CollectFromKeepsInvariant(elems.value, []);
      }
    }
  }

  /** Unlike the fetcher, the parser drops a repeated bare string URL. */
  lemma BareUrlsDeduplicated(u: string)
    requires StartsWith(u, "http")
    ensures CollectFrom([JStr(u), JStr(u)], []) == Collected([u], false)
  {
    assert ElementUrl(JStr(u)) == Ok(Some(u));
    assert [JStr(u), JStr(u)][1..] == [JStr(u)];
    var none: seq<string> := [];
    assert Keeps(none, u) && !Keeps([u], u);
    assert none + [u] == [u];
    assert CollectFrom([JStr(u), JStr(u)], none) == CollectFrom([JStr(u)], [u]);
    assert CollectFrom([JStr(u)], [u]) == Collected([u], false) by {
      assert [JStr(u)][1..] == [];
    }
  }

  /** An element whose `info` is `null` raises inside the `try`: the loop
      ends, and the URLs appended before it stay. */
  lemma NullInfoKeepsEarlierUrls(u: string, v: string)
    requires StartsWith(u, "http")
    ensures CollectFrom([JStr(u), JObj([("info", JNull)]), JStr(v)], []) == Collected([u], true)
  {
    var bad := JObj([("info", JNull)]);
    NullInfoRaises();
    var elems := [JStr(u), bad, JStr(v)];
    var none: seq<string> := [];
    assert ElementUrl(JStr(u)) == Ok(Some(u)) && Keeps(none, u);
    assert CollectFrom(elems, none) == CollectFrom(elems[1..], [u]);
    assert elems[1..][0] == bad;
  }

  /** `img.get('info', {}).get('url')` raises when `info` is null. */
  lemma NullInfoRaises()
    ensures ElementUrl(JObj([("info", JNull)])).AttributeError?
  {
    var bad: Fields := [("info", JNull)];
    var ls := ImageUrlLookups;
    assert ls[3..][0] == Nested("info", "url");
    assert GetOr(bad, "info", JObj([])) == JNull;
    assert FirstTruthyLookup(bad, ls[3..]).AttributeError?;
    assert ls[2..][1..] == ls[3..] && ls[1..][1..] == ls[2..];
    FalsyLookupSkipped(bad, ls[2..]);
    FalsyLookupSkipped(bad, ls[1..]);
    FalsyLookupSkipped(bad, ls);
  }

  /** A falsy value at the first probe place passes on to the rest. */
  lemma FalsyLookupSkipped(fs: Fields, ls: seq<Lookup>)
    requires |ls| >= 2 && ls[0].Top? && !HasKey(fs, ls[0].key)
    ensures FirstTruthyLookup(fs, ls) == FirstTruthyLookup(fs, ls[1..])
  {
  }

  /** A string title of at least five characters is kept; a shorter one is
      replaced by the first text line (cut to 100 characters), and that by
      "未命名笔记" when empty. The title is then never empty. */
  lemma FinishTitle(title: string, text: string, images: seq<string>)
    ensures var r := Finish(Extracted(JStr(title), JStr(text), images));
      r.Ok? && r.value.text == Strip(text) && r.value.images == images
      && r.value.title.JStr? && r.value.title.s != ""
      && (|title| >= 5 ==> r.value.title == JStr(title))
      && (|title| < 5 ==>
            r.value.title == JStr(if FirstLineTitle(Strip(text)) != "" then FirstLineTitle(Strip(text)) else UntitledTitle))
  {
  }

  /** The first line taken as title holds no line break and at most 100
      characters. */
  lemma FirstLineTitleShape(text: string)
    ensures '\n' !in FirstLineTitle(text) && |FirstLineTitle(text)| <= 100
  {
    var line := Split(text, '\n')[0];
    assert line == text[..IndexOf(text, '\n')];
    var cut := Take(line, 100);
    StripInside(cut);
  }

  lemma StripInside(s: string)
    ensures |Strip(s)| <= |s|
    ensures forall c :: c in Strip(s) ==> c in s
  {
    var l := LStripBy(s, IsSpace);
    var r := RStripBy(l, IsSpace);
    assert Strip(s) == r;
    forall c | c in r ensures c in s {
      var k :| 0 <= k < |r| && r[k] == c;
      assert l[k] == c;
      assert s[|s| - |l| + k] == c;
    }
  }
}
