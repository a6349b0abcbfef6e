/** The four prioritised probes of `_parse_note_from_state` that locate the
    note data in the state, and the id the first probe may fix. Python's
    `None` and the decoded JSON `null` are the same value, so `JNull` stands
    for "not located yet" exactly as `note_data is None` does. */
module NoteShapes {
  import opened Strings
  import opened PyJson

  /** What the probes settle on: the note data (`JNull` when none) and the id
      the first probe fixed (`JNull` when none). */
  datatype Located = Located(noteData: Json, noteId: Json)

  /** `firstNoteId` after the normalisation of a mapping id (the first truthy
      of its `id`, its `noteId`, its `str`) and of any other non-`str`,
      non-`int` value to its `str`. Booleans count as `int` in Python. */
  function NormalizeFirstId(firstId: Json): (r: Json)
    ensures !firstId.JObj? && Truthy(firstId) ==> Truthy(r)
  {
    match firstId
    case JObj(fs) => Or(Or(Get(fs, "id"), Get(fs, "noteId")), JStr(PyStr(firstId)))
    case JStr(_) => firstId
    case JInt(_) => firstId
    case JBool(_) => firstId
    case _ =>
      PyStrEmpty(firstId);
      JStr(PyStr(firstId))
  }

  /** `detail_map.get(first_id, {})`: `None` when the id is unhashable (a list
      or a mapping) and the lookup raises `TypeError`. Decoded keys are all
      strings, so only a string id can hit. */
  function DetailLookup(detailMap: Fields, firstId: Json): (r: Option<Json>)
    ensures r.None? <==> firstId.JList? || firstId.JObj?
    ensures r.Some? && !firstId.JStr? ==> r.value == JObj([])
  {
    match firstId
    case JList(_) => None
    case JObj(_) => None
    case JStr(s) => Some(GetOr(detailMap, s, JObj([])))
    case _ => Some(JObj([]))
  }

  /** Shape 1: `state['note']['noteDetailMap'][firstNoteId]['note']`, or the
      first element of a list-valued map. */
  function Shape1(state: Fields): Located {
    var root := Get(state, "note");
    if !(HasKey(state, "note") && root.JObj?) then Located(JNull, JNull)
    else
      var firstId := Get(root.fields, "firstNoteId");
      var detailMap := Get(root.fields, "noteDetailMap");
      if !(Truthy(firstId) && Truthy(detailMap)) then Located(JNull, JNull)
      else if detailMap.JObj? then
        var id := NormalizeFirstId(firstId);
        match DetailLookup(detailMap.fields, id)
        case None => Located(JNull, JNull)
        case Some(inner) =>
          if inner.JObj? then Located(GetOr(inner.fields, "note", inner), JStr(PyStr(id)))
          else Located(JNull, JNull)
      else if detailMap.JList? then
        var first := detailMap.items[0];
        if first.JObj? then
          Located(GetOr(first.fields, "note", first),
                  Or(Or(Get(first.fields, "id"), Get(first.fields, "noteId")), JStr(PyStr(firstId))))
        else Located(JNull, JNull)
      else Located(JNull, JNull)
  }

  /** Shape 2: `state['noteData']['data']['noteData']`, else `state['noteData']`
      when that is a mapping. */
  function Shape2(state: Fields): Json {
    var nd := Get(state, "noteData");
    if !(HasKey(state, "noteData") && nd.JObj?) then JNull
    else
      var data := Get(nd.fields, "data");
      if HasKey(nd.fields, "data") && data.JObj? && HasKey(data.fields, "noteData")
      then Get(data.fields, "noteData")
      else nd
  }

  /** Shape 3: `state['noteDetail']`, whatever it holds. */
  function Shape3(state: Fields): Json {
    Get(state, "noteDetail")
  }

  /** A key whose lower-cased name contains "note". No non-ASCII character
      lower-cases to one of `n`, `o`, `t`, `e`, so ASCII lowering decides this
      exactly as `str.lower` does. */
  predicate NoteKey(key: string) {
    Contains(Lower(key), "note")
  }

  /** What shape 4 does with one mapping value: `Some` of `.note`,
      `.data.note` or `.data.noteData` (breaking the loop, even on `null`), or
      `None` to go on with the next key. */
  function Probe(v: Fields): Option<Json> {
    var data := Get(v, "data");
    if HasKey(v, "note") then Some(Get(v, "note"))
    else if HasKey(v, "data") && data.JObj? then
      if HasKey(data.fields, "note") then Some(Get(data.fields, "note"))
      else if HasKey(data.fields, "noteData") then Some(Get(data.fields, "noteData"))
      else None
    else None
  }

  /** Shape 4 from the `i`-th key on. */
  function Shape4From(state: Fields, i: nat): Json
    requires i <= |state|
    decreases |state| - i
  {
    if i == |state| then JNull
    else
      var key := state[i].0;
      var value := Get(state, key);
      if NoteKey(key) && value.JObj? && Probe(value.fields).Some? then Probe(value.fields).value
      else Shape4From(state, i + 1)
  }

  function Shape4(state: Fields): Json {
    Shape4From(state, 0)
  }

  /** The probes in order, each only while the note data is still `None`. */
  function Locate(state: Fields): Located {
    var s1 := Shape1(state);
    var nd :=
      if s1.noteData != JNull then s1.noteData
      else if Shape2(state) != JNull then Shape2(state)
      else if Shape3(state) != JNull then Shape3(state)
      else Shape4(state);
    Located(nd, s1.noteId)
  }

  /** The probing as the source does it: sequential guarded blocks, then a
      loop over the keys that breaks on the first probe that answers. */
  method LocateNote(state: Fields) returns (loc: Located)
    ensures loc == Locate(state)
  {
    var s1 := Shape1(state);
    var noteData := s1.noteData;
    if noteData == JNull {
      noteData := Shape2(state);
    }
    if noteData == JNull {
      noteData := Shape3(state);
    }
    if noteData == JNull {
      var keys := Keys(state);
      var i := 0;
      while i < |keys|
        invariant 0 <= i <= |keys|
        invariant noteData == JNull
        invariant Shape4(state) == Shape4From(state, i)
        decreases |keys| - i
      {
        var value := Get(state, keys[i]);
        if NoteKey(keys[i]) && value.JObj? {
          var p := Probe(value.fields);
          if p.Some? {
            noteData := p.value;
            break;
          }
        }
        i := i + 1;
      }
    }
    loc := Located(noteData, s1.noteId);
  }

  /** A later probe is consulted only when every earlier one found nothing. */
  lemma LocateOrder(state: Fields)
    ensures Shape1(state).noteData != JNull ==> Locate(state).noteData == Shape1(state).noteData
    ensures Shape1(state).noteData == JNull && Shape2(state) != JNull ==>
      Locate(state).noteData == Shape2(state)
    ensures Shape1(state).noteData == JNull && Shape2(state) == JNull && Shape3(state) != JNull ==>
      Locate(state).noteData == Shape3(state)
    ensures Shape1(state).noteData == JNull && Shape2(state) == JNull && Shape3(state) == JNull ==>
      Locate(state).noteData == Shape4(state)
    ensures Locate(state).noteId == Shape1(state).noteId
  {
  }

  /** The `i`-th entry of the state is a note-named key whose mapping the probe answers. */
  predicate Shape4Candidate(state: Fields, i: nat)
    requires i < |state|
  {
    NoteKey(state[i].0) && Get(state, state[i].0).JObj? && Probe(Get(state, state[i].0).fields).Some?
  }

  /** No entry of the state between `lo` (inclusive) and `hi` (exclusive) is a shape-4 candidate. */
  predicate NoShape4Candidate(state: Fields, lo: nat, hi: nat)
    requires lo <= hi <= |state|
  {
    forall j :: lo <= j < hi ==> !Shape4Candidate(state, j)
  }

  /** A non-null shape-4 answer is the probe's value at the first note-named
      mapping key the probe answers. */
  lemma {:induction false} Shape4FirstAnswer(state: Fields, i: nat)
    requires i <= |state|
    ensures Shape4From(state, i) != JNull ==>
      exists k :: i <= k < |state| && Shape4Candidate(state, k)
        && Probe(Get(state, state[k].0).fields) == Some(Shape4From(state, i))
        && NoShape4Candidate(state, i, k)
    decreases |state| - i
  {
    if i < |state| {
      Shape4Step(state, i);
      if Shape4Candidate(state, i) {
        assert NoShape4Candidate(state, i, i);
      } else {
        Shape4FirstAnswer(state, i + 1);
        if Shape4From(state, i) != JNull {
          var k :| i + 1 <= k < |state| && Shape4Candidate(state, k)
            && Probe(Get(state, state[k].0).fields) == Some(Shape4From(state, i + 1))
            && NoShape4Candidate(state, i + 1, k);
          NoShape4CandidateExtend(state, i, k);
        }
      }
    }
  }

  /** With no candidate left in the state, the shape-4 scan gives `None` (`JNull`). */
  lemma {:induction false} Shape4NoCandidate(state: Fields, i: nat)
    requires i <= |state|
    requires NoShape4Candidate(state, i, |state|)
    ensures Shape4From(state, i) == JNull
    decreases |state| - i
  {
    if i < |state| {
      Shape4Step(state, i);
      assert NoShape4Candidate(state, i + 1, |state|);
      Shape4NoCandidate(state, i + 1);
    }
  }

  /** One step of the shape-4 scan: a candidate answers, anything else passes on. */
  lemma Shape4Step(state: Fields, i: nat)
    requires i < |state|
    ensures Shape4Candidate(state, i) ==> Some(Shape4From(state, i)) == Probe(Get(state, state[i].0).fields)
    ensures !Shape4Candidate(state, i) ==> Shape4From(state, i) == Shape4From(state, i + 1)
  {
  }

  lemma NoShape4CandidateExtend(state: Fields, i: nat, k: nat)
    requires i < k <= |state| && !Shape4Candidate(state, i) && NoShape4Candidate(state, i + 1, k)
    ensures NoShape4Candidate(state, i, k)
  {
  }

  /** A shape-1 lookup that misses the detail map yields `{}` as the note data
      (so no later shape is tried) and `str(firstNoteId)` as the id. */
  lemma Shape1MissYieldsEmpty(state: Fields, root: Fields, id: string, detail: Fields)
    requires HasKey(state, "note") && Get(state, "note") == JObj(root)
    requires Get(root, "firstNoteId") == JStr(id) && id != ""
    requires Get(root, "noteDetailMap") == JObj(detail) && detail != []
    requires !HasKey(detail, id)
    ensures Locate(state) == Located(JObj([]), JStr(id))
  {
  }

  /** A shape-1 detail whose `note` is `null` falls through to shape 2, yet the
      shape-1 id stays. */
  lemma Shape1NullKeepsId(id: string, title: Json)
    requires id != ""
    ensures var state := [("note", JObj([("firstNoteId", JStr(id)),
                                          ("noteDetailMap", JObj([(id, JObj([("note", JNull)]))]))])),
                          ("noteData", JObj([("title", title)]))];
      Locate(state) == Located(JObj([("title", title)]), JStr(id))
  {
    var detail := [(id, JObj([("note", JNull)]))];
    var root := [("firstNoteId", JStr(id)), ("noteDetailMap", JObj(detail))];
    var nd := [("title", title)];
    var state := [("note", JObj(root)), ("noteData", JObj(nd))];
    assert Get(root, "firstNoteId") == JStr(id);
    assert root[0].0 != "noteDetailMap";
    assert KeyIndex(root[1..], "noteDetailMap") == 0;
    assert Get(root, "noteDetailMap") == JObj(detail);
    assert Shape1(state) == Located(JNull, JStr(id));
    assert !HasKey(nd, "data");
    assert state[0].0 != "noteData";
    assert KeyIndex(state[1..], "noteData") == 0;
    assert Get(state, "noteData") == JObj(nd);
    assert Shape2(state) == JObj(nd);
  }

  /** Shape 4 stops at a `note: null` under the first note-named key, although
      a later key holds a note. */
  lemma Shape4BreaksOnNull(note: Json)
    ensures Shape4([("noteA", JObj([("note", JNull)])), ("noteB", JObj([("note", note)]))]) == JNull
  {
    var state := [("noteA", JObj([("note", JNull)])), ("noteB", JObj([("note", note)]))];
    assert Lower("noteA")[..4] == "note";
    assert NoteKey("noteA");
  }
}
