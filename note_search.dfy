/** `find_note_data`: the bounded depth-first search of the state for an
    object that looks like a note. It looks under `note`, `noteData`,
    `noteDetail` and `noteCard` first, then recurses into mapping values and
    into the first five elements of list values, one level less each time. */
module NoteSearch {
  import opened Strings
  import opened PyJson

  const CandidateKeys: seq<string> := ["note", "noteData", "noteDetail", "noteCard"]
  /** `max_depth=3`. */
  const SearchDepth: int := 3
  /** `value[:5]`. */
  const ListLimit: nat := 5

  /** The one-level unwrap of line 127-128: `val.get('_value') or val.get('_rawValue')`. */
  function ShallowUnwrap(val: Json): Json {
    if val.JObj? && (HasKey(val.fields, "_value") || HasKey(val.fields, "_rawValue"))
    then Or(Get(val.fields, "_value"), Get(val.fields, "_rawValue"))
    else val
  }

  /** A mapping with a truthy `title`, `desc` or `noteId`. */
  predicate NoteLike(v: Json) {
    v.JObj? && (Truthy(Get(v.fields, "title")) || Truthy(Get(v.fields, "desc"))
      || Truthy(Get(v.fields, "noteId")))
  }

  /** What the candidate key `key` of `fs` yields, if it looks like a note. */
  function Candidate(fs: Fields, key: string): Option<Json> {
    var val := ShallowUnwrap(Get(fs, key));
    if HasKey(fs, key) && NoteLike(val) then Some(val) else None
  }

  function FirstCandidate(fs: Fields, keys: seq<string>): (r: Option<Json>)
    ensures r.Some? ==> exists k :: k in keys && Candidate(fs, k) == r
    ensures r.None? ==> forall k :: k in keys ==> Candidate(fs, k).None?
    decreases |keys|
  {
    if |keys| == 0 then None
    else if Candidate(fs, keys[0]).Some? then Candidate(fs, keys[0])
    else FirstCandidate(fs, keys[1..])
  }

  /** Keys the recursion skips. */
  predicate Skipped(key: string) {
    StartsWith(key, "__") || key == "dep" || key == "__v_isRef"
  }

  function Bound(d: int): nat {
    if d > 0 then d else 0
  }

  /** `find_note_data(obj, max_depth=depth)`. */
  function FindNoteData(obj: Json, depth: int): Option<Json>
    decreases Bound(depth), 2, 0
  {
    if depth <= 0 || !obj.JObj? then None
    else match FirstCandidate(obj.fields, CandidateKeys)
      case Some(v) => Some(v)
      case None => FindInFields(obj.fields, depth)
  }

  /** The `for key, value in obj.items()` loop. */
  function FindInFields(fs: Fields, depth: int): Option<Json>
    requires depth >= 1
    decreases Bound(depth), 1, |fs|
  {
    if |fs| == 0 then None
    else
      var value := fs[0].1;
      var here :=
        if Skipped(fs[0].0) then None
        else if value.JObj? then FindNoteData(value, depth - 1)
        else if value.JList? && |value.items| > 0 then
          FindInList(FirstFive(value.items), depth - 1)
        else None;
      if here.Some? then here else FindInFields(fs[1..], depth)
  }

  /** `value[:5]`. */
  function FirstFive(items: seq<Json>): (r: seq<Json>)
    ensures |r| <= ListLimit && |r| <= |items| && r == items[..|r|]
    ensures |r| == ListLimit || r == items
  {
    items[..if |items| < ListLimit then |items| else ListLimit]
  }

  /** The `for item in value[:5]` loop; a non-mapping item yields nothing. */
  function FindInList(items: seq<Json>, depth: int): Option<Json>
    requires depth >= 0
    decreases Bound(depth), 3, |items|
  {
    if |items| == 0 then None
    else
      var here := FindNoteData(items[0], depth);
      if here.Some? then here else FindInList(items[1..], depth)
  }

  /** Reference definition of what the search may return: `v` is a note-like
      candidate of `obj`, or of a mapping reached through at most `depth - 1`
      non-skipped keys, taking only list elements at index below five. */
  ghost predicate Reaches(obj: Json, v: Json, depth: int)
    decreases Bound(depth), 0
  {
    depth > 0 && obj.JObj? &&
    ((exists k :: k in CandidateKeys && Candidate(obj.fields, k) == Some(v))
     || (exists i :: 0 <= i < |obj.fields| && !Skipped(obj.fields[i].0) && ReachesVia(obj.fields[i].1, v, depth - 1)))
  }

  /** `v` is reached from a value of a visited key: the value itself, or one
      of the first five elements of a list. */
  ghost predicate ReachesVia(value: Json, v: Json, depth: int)
    decreases Bound(depth), 1
  {
    depth >= 0 &&
    (Reaches(value, v, depth)
     || (value.JList? && exists j :: 0 <= j < |value.items| && j < ListLimit && Reaches(value.items[j], v, depth)))
  }

  lemma {:induction false} FindSound(obj: Json, depth: int)
    ensures FindNoteData(obj, depth).Some? ==>
      Reaches(obj, FindNoteData(obj, depth).value, depth) && NoteLike(FindNoteData(obj, depth).value)
    decreases Bound(depth), 2, 0
  {
    if depth > 0 && obj.JObj? {
      var r := FirstCandidate(obj.fields, CandidateKeys);
      if r.None? {
        FieldsSound(obj.fields, depth);
        if FindInFields(obj.fields, depth).Some? {
          var v := FindInFields(obj.fields, depth).value;
          var i :| 0 <= i < |obj.fields| && !Skipped(obj.fields[i].0) && ReachesVia(obj.fields[i].1, v, depth - 1);
        }
      }
    }
  }

  lemma {:induction false} FieldsSound(fs: Fields, depth: int)
    requires depth >= 1
    ensures FindInFields(fs, depth).Some? ==>
      NoteLike(FindInFields(fs, depth).value) &&
      exists i :: 0 <= i < |fs| && !Skipped(fs[i].0) && ReachesVia(fs[i].1, FindInFields(fs, depth).value, depth - 1)
    decreases Bound(depth), 1, |fs|
  {
    if |fs| > 0 {
      var value := fs[0].1;
      var r := FindInFields(fs, depth);
      if !Skipped(fs[0].0) && value.JObj? {
        FindSound(value, depth - 1);
      } else if !Skipped(fs[0].0) && value.JList? && |value.items| > 0 {
        var n := if |value.items| < ListLimit then |value.items| else ListLimit;
        ListSound(value.items[..n], depth - 1);
        if FindInList(value.items[..n], depth - 1).Some? {
          var v := FindInList(value.items[..n], depth - 1).value;
          var j :| 0 <= j < n && Reaches(value.items[..n][j], v, depth - 1);
          assert value.items[..n][j] == value.items[j];
          assert ReachesVia(value, v, depth - 1);
        }
      }
      FieldsSound(fs[1..], depth);
      if r.Some? && r != FindInFields(fs[1..], depth) {
        assert ReachesVia(fs[0].1, r.value, depth - 1);
      } else if r.Some? {
        var i :| 0 <= i < |fs[1..]| && !Skipped(fs[1..][i].0) && ReachesVia(fs[1..][i].1, r.value, depth - 1);
        assert fs[1..][i] == fs[i + 1];
      }
    }
  }

  lemma {:induction false} ListSound(items: seq<Json>, depth: int)
    requires depth >= 0
    ensures FindInList(items, depth).Some? ==>
      NoteLike(FindInList(items, depth).value) &&
      exists j :: 0 <= j < |items| && Reaches(items[j], FindInList(items, depth).value, depth)
    decreases Bound(depth), 3, |items|
  {
    if |items| > 0 {
      FindSound(items[0], depth);
      ListSound(items[1..], depth);
      var r := FindInList(items, depth);
      if r.Some? && FindNoteData(items[0], depth).None? {
        var j :| 0 <= j < |items[1..]| && Reaches(items[1..][j], r.value, depth);
        assert items[1..][j] == items[j + 1];
      }
    }
  }

  lemma {:induction false} FindComplete(obj: Json, v: Json, depth: int)
    requires Reaches(obj, v, depth)
    ensures FindNoteData(obj, depth).Some?
    decreases Bound(depth), 2, 0, 0
  {
    if FirstCandidate(obj.fields, CandidateKeys).None? {
      var i :| 0 <= i < |obj.fields| && !Skipped(obj.fields[i].0) && ReachesVia(obj.fields[i].1, v, depth - 1);
      FieldsComplete(obj.fields, i, v, depth);
    }
  }

  lemma {:induction false} FieldsComplete(fs: Fields, i: nat, v: Json, depth: int)
    requires depth >= 1 && i < |fs| && !Skipped(fs[i].0) && ReachesVia(fs[i].1, v, depth - 1)
    ensures FindInFields(fs, depth).Some?
    decreases Bound(depth), 1, |fs|, 1
  {
    if i == 0 {
      HeadComplete(fs, v, depth);
    } else {
      assert fs[1..][i - 1] == fs[i];
      if FindInFields(fs, depth) != FindInFields(fs[1..], depth) {
      } else {
        FieldsComplete(fs[1..], i - 1, v, depth);
      }
    }
  }

  /** The first field's value reaches `v`. */
  lemma HeadComplete(fs: Fields, v: Json, depth: int)
    requires depth >= 1 && |fs| > 0 && !Skipped(fs[0].0) && ReachesVia(fs[0].1, v, depth - 1)
    ensures FindInFields(fs, depth).Some?
    decreases Bound(depth), 1, |fs|, 0
  {
    ViaComplete(fs[0].1, v, depth - 1);
  }

  /** A value that reaches `v` is searched with success: a mapping directly,
      a list through its first five elements. */
  lemma {:induction false} ViaComplete(value: Json, v: Json, depth: int)
    requires depth >= 0 && ReachesVia(value, v, depth)
    ensures value.JObj? ==> FindNoteData(value, depth).Some?
    ensures value.JList? ==> |value.items| > 0 && FindInList(FirstFive(value.items), depth).Some?
    decreases Bound(depth), 4, 0, 0
  {
    if value.JObj? {
      FindComplete(value, v, depth);
    } else {
      var j :| 0 <= j < |value.items| && j < ListLimit && Reaches(value.items[j], v, depth);
      assert FirstFive(value.items)[j] == value.items[j];
      ListComplete(FirstFive(value.items), j, v, depth);
    }
  }

  lemma {:induction false} ListComplete(items: seq<Json>, j: nat, v: Json, depth: int)
    requires depth >= 0 && j < |items| && Reaches(items[j], v, depth)
    ensures FindInList(items, depth).Some?
    decreases Bound(depth), 3, |items|, 0
  {
    if j == 0 {
      FindComplete(items[0], v, depth);
    } else if FindNoteData(items[0], depth).None? {
      assert items[1..][j - 1] == items[j];
      ListComplete(items[1..], j - 1, v, depth);
    }
  }

  /** The search succeeds exactly when some note-like object is reachable
      within the depth and fan-out bounds, and what it returns is such an object. */
  lemma FindNoteDataCorrect(obj: Json, depth: int)
    ensures FindNoteData(obj, depth).Some? <==> exists v :: Reaches(obj, v, depth)
    ensures FindNoteData(obj, depth).Some? ==>
      Reaches(obj, FindNoteData(obj, depth).value, depth) && NoteLike(FindNoteData(obj, depth).value)
  {
    FindSound(obj, depth);
    if FindNoteData(obj, depth).Some? {
      var w := FindNoteData(obj, depth).value;
      assert Reaches(obj, w, depth);
    }
    forall v | Reaches(obj, v, depth) ensures FindNoteData(obj, depth).Some? {
      FindComplete(obj, v, depth);
    }
  }

  /** Once the depth budget is spent, nothing is found. */
  lemma FindStopsAtDepthZero(obj: Json, depth: int)
    requires depth <= 0
    ensures FindNoteData(obj, depth).None?
    ensures forall v :: !Reaches(obj, v, depth)
  {
  }

  /** Only the first five elements of a list are looked at: a note in the
      sixth element is not found. */
  lemma SixthListElementIgnored(note: Json, filler: Json)
    requires NoteLike(note) && !filler.JObj?
    ensures FindNoteData(JObj([("feeds", JList([filler, filler, filler, filler, filler, JObj([("note", note)])]))]), SearchDepth).None?
  {
    var items := [filler, filler, filler, filler, filler, JObj([("note", note)])];
    var fs := [("feeds", JList(items))];
    forall k | k in CandidateKeys ensures Candidate(fs, k).None? {
      assert !HasKey(fs, k);
    }
    assert FirstCandidate(fs, CandidateKeys).None?;
    assert !Skipped("feeds") by {
      assert "feeds"[..2] == "fe";
    }
    var first := items[..5];
    assert first == [filler, filler, filler, filler, filler];
    assert FindInList(first[4..], 2).None?;
    assert FindInList(first[3..], 2).None?;
    assert FindInList(first[2..], 2).None?;
    assert FindInList(first[1..], 2).None?;
    assert FindInList(first, 2).None?;
    assert FindInFields(fs[1..], 3).None?;
  }
}
