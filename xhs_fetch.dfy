/** `_parse_note_from_state`: from the decoded client state and the final URL
    to a `Note`. The uuid the source draws when it finds no id is a parameter. */
module XhsFetch {
  import opened Strings
  import opened PyJson
  import opened VueValue
  import opened UrlPatterns
  import opened Models
  import opened NoteSearch
  import opened NoteShapes
  import opened NoteFields

  const DegradedTitle: string := "未找到标题"
  const DegradedError: string := "无法解析note数据"

  /** `list(state.keys())` as a JSON list. */
  function KeyList(state: Fields): (r: Json)
    ensures r.JList? && |r.items| == |state|
    ensures forall i :: 0 <= i < |state| ==> r.items[i] == JStr(state[i].0)
  {
    JList(seq(|state|, i requires 0 <= i < |state| => JStr(state[i].0)))
  }

  /** The note returned when no shape located any note data. */
  function DegradedNote(state: Fields, url: string, uuid: string): Note {
    Note(UrlIdOr(url, uuid), url, DegradedTitle, "", "", [],
         JObj([("state_keys", KeyList(state)), ("error", JStr(DegradedError))]))
  }

  /** The note built from located note data that is a mapping. */
  function NoteFrom(fs: Fields, shapeId: Json, url: string, uuid: string): Result<Note> {
    if !TitleValue(fs).Ok? then Propagate(TitleValue(fs))
    else
      var t := TitleValue(fs).value;
      var title := FieldText(t);
      Ok(Note(NoteIdText(fs, shapeId, url, uuid), url,
              if title != "" then title else UntitledTitle,
              FieldText(TextValue(fs)), "", ImagesFrom(fs, ImageKeys), JObj(fs)))
  }

  /** `_parse_note_from_state(state, url)`. Located data that is not a mapping
      makes the first `.get` raise. */
  function ParseSpec(state: Fields, url: string, uuid: string): Result<Note> {
    var loc := Locate(state);
    if loc.noteData == JNull then Ok(DegradedNote(state, url, uuid))
    else if !loc.noteData.JObj? then AttributeError("note data has no attribute 'get'")
    else NoteFrom(loc.noteData.fields, loc.noteId, url, uuid)
  }

  /** The function body step by step: probe, fall back (running the deep search
      whose result is then dropped), or read title, text, id and images. */
  method ParseNoteFromState(state: Fields, url: string, uuid: string) returns (r: Result<Note>)
    ensures r == ParseSpec(state, url, uuid)
  {
    var loc := LocateNote(state);
    var noteData := loc.noteData;
    if noteData == JNull {
      var found := FindNoteData(JObj(state), SearchDepth);
      var noteId := UrlIdOr(url, uuid);
      r := Ok(Note(noteId, url, DegradedTitle, "", "", [],
                   JObj([("state_keys", KeyList(state)), ("error", JStr(DegradedError))])));
      return;
    }
    if !noteData.JObj? {
      r := AttributeError("note data has no attribute 'get'");
      return;
    }
    var fs := noteData.fields;
    var titleValue := TitleValue(fs);
    if !titleValue.Ok? {
      r := Propagate(titleValue);
      return;
    }
    var title := FieldText(titleValue.value);
    var text := FieldText(TextValue(fs));
    var noteId := NoteIdText(fs, loc.noteId, url, uuid);
    var images := CollectImages(fs);
    r := Ok(Note(noteId, url, if title != "" then title else UntitledTitle, text, "", images, noteData));
  }

  /** Whatever the state, a parsed note has a non-empty id and title, keeps
      the URL it was given, has no OCR text yet, only "http" image URLs, and
      keeps the located note data as `raw`. */
  lemma ParsedNoteShape(state: Fields, url: string, uuid: string)
    requires uuid != ""
    ensures ParseSpec(state, url, uuid).Ok? ==>
      var n := ParseSpec(state, url, uuid).value;
      n.id != "" && n.title != "" && n.url == url && n.ocrText == "" && AllHttp(n.images)
      && (Locate(state).noteData != JNull ==> n.raw == Locate(state).noteData)
  {
    var loc := Locate(state);
    if loc.noteData == JNull {
      NoteIdNonEmpty(url);
    } else if loc.noteData.JObj? {
      NoteIdTextNonEmpty(loc.noteData.fields, loc.noteId, url, uuid);
      ImagesAreHttp(loc.noteData.fields, ImageKeys);
    }
  }

  /** The only failure: located data that is not a mapping, or whose title
      lookup reaches a `noteCard` that is not one. */
  lemma ParseFailsOnlyOnNonMappings(state: Fields, url: string, uuid: string)
    ensures ParseSpec(state, url, uuid).AttributeError? <==>
      var nd := Locate(state).noteData;
      nd != JNull && (!nd.JObj? || TitleValue(nd.fields).AttributeError?)
  {
  }

  /** The diagnostic mapping of the degraded note has no title candidate. */
  lemma DiagnosticHasNoTitle(keys: Json)
    ensures TitleValue([("state_keys", keys), ("error", JStr(DegradedError))]) == Ok(JStr(""))
  {
    var fs := [("state_keys", keys), ("error", JStr(DegradedError))];
    assert !HasKey(fs, "title") && !HasKey(fs, "displayTitle") && !HasKey(fs, "noteCard");
  }

  /** The degraded note is returned exactly when no shape located note data:
      a located mapping never yields it, not even one that looks like its
      diagnostic `raw`, since that has no title and gets "未命名笔记". */
  lemma DegradedIffNotLocated(state: Fields, url: string, uuid: string)
    ensures ParseSpec(state, url, uuid) == Ok(DegradedNote(state, url, uuid)) <==> Locate(state).noteData == JNull
  {
    var nd := Locate(state).noteData;
    if nd != JNull && nd.JObj? {
      var fs := nd.fields;
      var r := NoteFrom(fs, Locate(state).noteId, url, uuid);
      assert ParseSpec(state, url, uuid) == r;
      if r.Ok? && r.value.raw == DegradedNote(state, url, uuid).raw {
        assert fs == [("state_keys", KeyList(state)), ("error", JStr(DegradedError))];
        DiagnosticHasNoTitle(KeyList(state));
        assert r.value.title == UntitledTitle;
        assert UntitledTitle[1] != DegradedTitle[1];
      }
    }
  }

  /** The degraded note: fixed title, no text, no images, the top-level keys
      in `raw`, and the URL id or else the uuid as id. */
  lemma DegradedNoteContents(state: Fields, url: string, uuid: string)
    requires Locate(state).noteData == JNull
    ensures var n := ParseSpec(state, url, uuid).value;
      n.title == DegradedTitle && n.text == "" && n.images == [] && n.ocrText == ""
      && n.id == (if NoteIdFromPatterns(url).Some? then NoteIdFromPatterns(url).value else uuid)
      && Keys(n.raw.fields) == ["state_keys", "error"]
      && Get(n.raw.fields, "state_keys").items == seq(|state|, i requires 0 <= i < |state| => JStr(state[i].0))
  {
  }

  /** The deep search does not rescue anything: a note one mapping down under
      a key that no shape probes is found by the search, yet the result is
      the degraded note. */
  lemma DeepSearchResultUnused(t: string, url: string, uuid: string)
    requires t != ""
    ensures var state := [("feed", JObj([("note", JObj([("title", JStr(t))]))]))];
      FindNoteData(JObj(state), SearchDepth) == Some(JObj([("title", JStr(t))]))
      && ParseSpec(state, url, uuid) == Ok(DegradedNote(state, url, uuid))
  {
    FeedNoteFound(t);
    FeedNoteNotLocated(t);
  }

  lemma FeedNoteFound(t: string)
    requires t != ""
    ensures FindNoteData(JObj([("feed", JObj([("note", JObj([("title", JStr(t))]))]))]), SearchDepth)
      == Some(JObj([("title", JStr(t))]))
  {
    var note := JObj([("title", JStr(t))]);
    var inner := [("note", note)];
    var state := [("feed", JObj(inner))];
    forall k | k in CandidateKeys ensures Candidate(state, k).None? {
      assert !HasKey(state, k);
    }
    assert FirstCandidate(state, CandidateKeys).None?;
    assert !Skipped("feed") by {
      assert "feed"[..2] == "fe";
    }
    assert Candidate(inner, "note") == Some(note);
    assert FindNoteData(JObj(inner), 2) == Some(note);
    assert FindInFields(state, SearchDepth) == Some(note);
  }

  lemma FeedNoteNotLocated(t: string)
    ensures Locate([("feed", JObj([("note", JObj([("title", JStr(t))]))]))]).noteData == JNull
  {
    var state := [("feed", JObj([("note", JObj([("title", JStr(t))]))]))];
    assert !NoteKey("feed") by {
      assert Lower("feed") == "feed";
      if Contains("feed", "note") {
        ContainsMeans("feed", "note");
        var k :| OccursAt("feed", k, "note");
        OccursAtChar("feed", k, "note", 0);
        assert false;
      }
    }
    assert Shape4From(state, 1) == JNull;
  }

  /** A detail map that lacks `firstNoteId` yields an empty, untitled note
      whose id is `firstNoteId`, rather than the degraded note. */
  lemma Shape1MissGivesUntitledNote(state: Fields, root: Fields, id: string, detail: Fields, url: string, uuid: string)
    requires HasKey(state, "note") && Get(state, "note") == JObj(root)
    requires Get(root, "firstNoteId") == JStr(id) && id != ""
    requires Get(root, "noteDetailMap") == JObj(detail) && detail != []
    requires !HasKey(detail, id)
    ensures ParseSpec(state, url, uuid) == Ok(Note(id, url, UntitledTitle, "", "", [], JObj([])))
  {
    Shape1MissYieldsEmpty(state, root, id, detail);
    EmptyNoteFields(id, url, uuid);
  }

  /** An empty mapping has an empty title and an empty text. */
  lemma EmptyTitleAndText()
    ensures TitleValue([]) == Ok(JStr("")) && FieldText(JStr("")) == ""
    ensures TextValue([]) == JStr("")
  {
    var empty: Fields := [];
    var texts := Unwrapped(empty, TextKeys) + [JStr("")];
    assert forall i :: 0 <= i < |texts| ==> !Truthy(texts[i]);
  }

  /** An empty note mapping with a truthy `firstNoteId` gives an untitled,
      empty note with that id. */
  lemma EmptyNoteFields(id: string, url: string, uuid: string)
    requires id != ""
    ensures NoteFrom([], JStr(id), url, uuid) == Ok(Note(id, url, UntitledTitle, "", "", [], JObj([])))
  {
    var empty: Fields := [];
    EmptyTitleAndText();
    assert NoteIdText(empty, JStr(id), url, uuid) == id;
    ImagesFromNoProductiveKey(empty, ImageKeys);
  }
}
