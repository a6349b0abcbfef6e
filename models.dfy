/** The two records of the extractor: the normalised `Note` and the
    `InterviewQuestion` derived from it, with `get_full_tag`. */
module Models {
  import opened Strings
  import opened PyJson

  /** A note as handed to OCR, display and storage. `raw` keeps the located
      note object (or diagnostic data when none was found). */
  datatype Note = Note(
    id: string,
    url: string,
    title: string,
    text: string,
    ocrText: string,
    images: seq<string>,
    raw: Json)

  /** The title given to a note without one. */
  const UntitledTitle: string := "未命名笔记"

  /** `Note(id=..., url=..., title=..., text=...)` with the dataclass defaults
      for the remaining fields. */
  function NewNote(id: string, url: string, title: string, text: string): (n: Note)
    ensures n.id == id && n.url == url && n.title == title && n.text == text
    ensures n.ocrText == "" && n.images == [] && n.raw == JObj([])
  {
    Note(id, url, title, text, "", [], JObj([]))
  }

  /** A standardised interview question. The creation timestamp is not modelled. */
  datatype InterviewQuestion = InterviewQuestion(
    id: string,
    noteId: string,
    sourceUrl: string,
    category: string,
    question: string,
    answer: string,
    company: Option<string>,
    position: Option<string>,
    companyTag: Option<string>,
    roundTag: Option<string>,
    tags: seq<string>,
    difficulty: string,
    sourceHasAnswer: bool,
    language: Option<string>)

  /** The truthy value of an optional string, as a zero- or one-element list. */
  function Present(o: Option<string>): (r: seq<string>)
    ensures |r| <= 1 && forall i :: 0 <= i < |r| ==> r[i] != []
  {
    match o
    case Some(s) => if s != "" then [s] else []
    case None => []
  }

  /** The tag parts in the order company, position, round. */
  function TagParts(q: InterviewQuestion): seq<string> {
    Present(q.company) + Present(q.position) + Present(q.roundTag)
  }

  /** `get_full_tag()` as a value: the parts joined with "-", else `company_tag or ""`. */
  function FullTag(q: InterviewQuestion): string {
    var parts := TagParts(q);
    if parts != [] then Join("-", parts)
    else match q.companyTag
      case Some(t) => t
      case None => ""
  }

  /** `get_full_tag`: appends each truthy part to `parts`, then joins. */
  method GetFullTag(q: InterviewQuestion) returns (tag: string)
    ensures tag == FullTag(q)
  {
    var parts: seq<string> := [];
    if q.company.Some? && q.company.value != "" {
      parts := parts + [q.company.value];
    }
    assert parts == Present(q.company);
    if q.position.Some? && q.position.value != "" {
      parts := parts + [q.position.value];
    }
    assert parts == Present(q.company) + Present(q.position);
    if q.roundTag.Some? && q.roundTag.value != "" {
      parts := parts + [q.roundTag.value];
    }
    assert parts == TagParts(q);
    if parts != [] {
      tag := Join("-", parts);
    } else if q.companyTag.Some? {
      tag := q.companyTag.value;
    } else {
      tag := "";
    }
  }

  /** With no part set, the result is `company_tag`, or "" when it is missing. */
  lemma FullTagFallsBack(q: InterviewQuestion)
    requires TagParts(q) == []
    ensures FullTag(q) == (if q.companyTag.Some? then q.companyTag.value else "")
  {
  }

  /** `company_tag` is ignored as soon as one part is set. */
  lemma FullTagIgnoresCompanyTag(q: InterviewQuestion, t: Option<string>)
    requires TagParts(q) != []
    ensures FullTag(q.(companyTag := t)) == FullTag(q)
  {
  }

  /** With k parts that contain no "-", splitting the tag at "-" gives the
      parts back in order, and the tag holds exactly k-1 separators: no
      leading, trailing or doubled separator. */
  lemma FullTagSplitsIntoParts(q: InterviewQuestion)
    requires TagParts(q) != []
    requires forall i :: 0 <= i < |TagParts(q)| ==> '-' !in TagParts(q)[i]
    ensures Split(FullTag(q), '-') == TagParts(q)
    ensures Count(FullTag(q), '-') == |TagParts(q)| - 1
  {
    SplitJoin(TagParts(q), '-');
    JoinCount(TagParts(q), '-');
  }
}
