/** The three note-id URL patterns, tried in this order both by the URL fallback
    of `_parse_note_from_state` and by `extract_note_id_from_url`:
      `/explore/([a-f0-9]+)`, `/discovery/item/([a-f0-9]+)`, `/user/[^/]+/([a-f0-9]+)`.
    Each `re.search` is written out as a scan over start positions; the greedy
    `[a-f0-9]+` captures the maximal run of lower-case hex digits. */
module UrlPatterns {
  import opened Strings
  import opened PyJson

  datatype Pattern = Explore | DiscoveryItem | User

  predicate IsHexLower(c: char) {
    ('0' <= c <= '9') || ('a' <= c <= 'f')
  }

  /** End of the run of `[a-f0-9]` characters starting at `j`. */
  function HexRunEnd(s: string, j: nat): (e: nat)
    requires j <= |s|
    ensures j <= e <= |s|
    ensures forall k :: j <= k < e ==> IsHexLower(s[k])
    ensures e < |s| ==> !IsHexLower(s[e])
    decreases |s| - j
  {
    if j < |s| && IsHexLower(s[j]) then HexRunEnd(s, j + 1) else j
  }

  /** End of the run of `[^/]` characters starting at `j`. */
  function NonSlashEnd(s: string, j: nat): (e: nat)
    requires j <= |s|
    ensures j <= e <= |s|
    ensures forall k :: j <= k < e ==> s[k] != '/'
    ensures e < |s| ==> s[e] == '/'
    decreases |s| - j
  {
    if j < |s| && s[j] != '/' then NonSlashEnd(s, j + 1) else j
  }

  /** Where the `([a-f0-9]+)` group would begin for a match starting at `i`,
      once the literal part (and, for `User`, the `[^/]+/` segment) matched. */
  function GroupStart(url: string, i: nat, pat: Pattern): (g: Option<nat>)
    ensures g.Some? ==> i < g.value <= |url|
  {
    match pat
    case Explore => if OccursAt(url, i, "/explore/") then Some(i + 9) else None
    case DiscoveryItem => if OccursAt(url, i, "/discovery/item/") then Some(i + 16) else None
    case User =>
      if OccursAt(url, i, "/user/") then
        var e := NonSlashEnd(url, i + 6);
        if i + 6 < e < |url| then Some(e + 1) else None
      else None
  }

  /** The group captured by `pat` when the match starts at position `i`. */
  function MatchAt(url: string, i: nat, pat: Pattern): (r: Option<string>)
    ensures r.Some? ==> |r.value| >= 1 && forall k :: 0 <= k < |r.value| ==> IsHexLower(r.value[k])
  {
    match GroupStart(url, i, pat)
    case None => None
    case Some(g) => if g < |url| && IsHexLower(url[g]) then Some(url[g..HexRunEnd(url, g)]) else None
  }

  function SearchFrom(url: string, pat: Pattern, i: nat): Option<string>
    decreases |url| - i
  {
    if i >= |url| then None
    else match MatchAt(url, i, pat)
      case Some(id) => Some(id)
      case None => SearchFrom(url, pat, i + 1)
  }

  /** `re.search(pattern, url).group(1)`, or `None`. */
  function Search(url: string, pat: Pattern): Option<string> {
    SearchFrom(url, pat, 0)
  }

  /** The three patterns in order; the first that matches anywhere wins. */
  function NoteIdFromPatterns(url: string): Option<string> {
    match Search(url, Explore)
    case Some(id) => Some(id)
    case None =>
      match Search(url, DiscoveryItem)
      case Some(id) => Some(id)
      case None => Search(url, User)
  }

  lemma {:induction false} SearchFromLeftmost(url: string, pat: Pattern, i: nat)
    ensures SearchFrom(url, pat, i).Some? ==>
      exists k :: i <= k < |url| && MatchAt(url, k, pat) == SearchFrom(url, pat, i)
        && forall j :: i <= j < k ==> MatchAt(url, j, pat).None?
    ensures SearchFrom(url, pat, i).None? ==> forall k :: i <= k ==> MatchAt(url, k, pat).None?
    decreases |url| - i
  {
    if i < |url| {
      SearchFromLeftmost(url, pat, i + 1);
      if MatchAt(url, i, pat).None? && SearchFrom(url, pat, i + 1).Some? {
        var k :| i + 1 <= k < |url| && MatchAt(url, k, pat) == SearchFrom(url, pat, i + 1)
          && forall j :: i + 1 <= j < k ==> MatchAt(url, j, pat).None?;
        assert forall j :: i <= j < k ==> MatchAt(url, j, pat).None?;
      }
    } else {
      forall k | i <= k ensures MatchAt(url, k, pat).None? {
        assert GroupStart(url, k, pat).None?;
      }
    }
  }

  /** `re.search` finds the leftmost start position at which the pattern matches,
      and reports no match only when no position matches. */
  lemma SearchIsLeftmost(url: string, pat: Pattern)
    ensures Search(url, pat).Some? ==>
      exists k :: 0 <= k < |url| && MatchAt(url, k, pat) == Search(url, pat)
        && forall j :: 0 <= j < k ==> MatchAt(url, j, pat).None?
    ensures Search(url, pat).None? <==> forall k :: MatchAt(url, k, pat).None?
  {
    SearchFromLeftmost(url, pat, 0);
  }

  /** The captured id is the whole run of hex digits after the literal part:
      it begins at the group start and the character after it is not `[a-f0-9]`. */
  lemma MatchIsMaximalRun(url: string, i: nat, pat: Pattern)
    requires MatchAt(url, i, pat).Some?
    ensures var g := GroupStart(url, i, pat).value;
      var id := MatchAt(url, i, pat).value;
      g + |id| <= |url| && url[g..g + |id|] == id
      && (g + |id| == |url| || !IsHexLower(url[g + |id|]))
  {
  }

  lemma OccursAtChar(s: string, k: int, p: string, m: nat)
    requires OccursAt(s, k, p) && m < |p|
    ensures s[k + m] == p[m]
  {
    assert s[k..k + |p|][m] == s[k + m];
  }

  /** The second character of each pattern's literal part. */
  function Lead(pat: Pattern): char {
    match pat
    case Explore => 'e'
    case DiscoveryItem => 'd'
    case User => 'u'
  }

  /** Every pattern starts with `/` and a pattern-specific letter. */
  lemma MatchNeedsLead(url: string, k: nat, pat: Pattern)
    requires MatchAt(url, k, pat).Some?
    ensures k + 1 < |url| && url[k] == '/' && url[k + 1] == Lead(pat)
  {
    match pat
    case Explore =>
      OccursAtChar(url, k, "/explore/", 0);
      OccursAtChar(url, k, "/explore/", 1);
    case DiscoveryItem =>
      OccursAtChar(url, k, "/discovery/item/", 0);
      OccursAtChar(url, k, "/discovery/item/", 1);
    case User =>
      OccursAtChar(url, k, "/user/", 0);
      OccursAtChar(url, k, "/user/", 1);
  }

  /** `/explore/note123` is not an explore id: `n` is not a hex digit. */
  lemma ExploreNeedsHex()
    ensures Search("/explore/note123", Explore) == None
  {
    var url := "/explore/note123";
    forall k: nat ensures MatchAt(url, k, Explore).None? {
      if k == 0 {
        ExploreAtStartFails();
      } else if MatchAt(url, k, Explore).Some? {
        MatchNeedsLead(url, k, Explore);
        assert false;
      }
    }
    SearchIsLeftmost(url, Explore);
  }

  lemma ExploreAtStartFails()
    ensures MatchAt("/explore/note123", 0, Explore).None?
  {
    var url := "/explore/note123";
    assert url[..9] == "/explore/";
    assert GroupStart(url, 0, Explore) == Some(9);
    assert url[9] == 'n';
  }
}
