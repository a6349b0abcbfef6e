# xhs-extractor in Dafny

xhs-extractor turns a Xiaohongshu (RED) note into a plain `Note` record:
id, URL, title, body text, image URLs and OCR text. Its entry point takes a
share text. It finds the first `http(s)://` link in that text, then loads
the note page in a browser. It decodes `window.__INITIAL_STATE__` and reads
the note out of that state with `_parse_note_from_state`. The state's
layout varies, so the function probes four known shapes and falls back to a
degraded note. An older HTML parser (`xhs_parser`) does the same from a
fetched page. Cookies are kept as `key=value; ...` strings. OCR walks
whatever nested structure the engine returns and filters out noise strings.
A Streamlit front end saves each note as a markdown file.

This project models these parts, file by file:

- **State decoding.** `py_json.dfy` holds the decoded JSON value, with
  Python truthiness, `or`, `str()` and `dict.get`. `vue_value.dfy` holds
  the Vue-reactive unwrap.
- **Note parsing.** `note_shapes.dfy` covers the four shape probes.
  `note_search.dfy` covers the bounded deep search. `note_fields.dfy`
  covers title, text, id and image selection. `xhs_fetch.dfy` puts the
  whole function together.
- **Note ids.** `url_patterns.dfy` holds the three note-id regular
  expressions, written as scans.
- **The older parser.** `xhs_parser.dfy`.
- **Share text.** `xhs_share.dfy` extracts the link from a share text.
- **Cookies.** `cookie_manager.dfy` parses a cookie header and formats one
  back.
- **OCR text.** `ocr.dfy`: the noise filter, the result walk and the
  per-image joining.
- **Markdown export.** `web_app.dfy`: file-name sanitising and the markdown
  text.
- **Records.** `models.dfy`: the `Note` and `InterviewQuestion` records and
  `get_full_tag`.
- **Scenarios.** `fetch_examples.dfy` restates the parsing scenarios of the
  unit tests over arbitrary strings.

Where the source works step by step (loops with `break`, lists appended in
place), the model has a `method` with the same loop. That method is proved
equal to a specification function. The properties the source promises are
then proved about that function.

## Model

| member | source | states |
|---|---|---|
| VueValue.Unwrap | xhs_extractor_module/xhs_fetch.py:187-200 | `extract_vue_value` never returns a wrapper: `_value`, `_rawValue`, or a lone non-dunder `value` key are followed down to a plain value |
| VueValue.UnwrapKeepsPlainValues | xhs_extractor_module/xhs_fetch.py:189-200 | anything that is not a wrapper (None, scalars, lists, ordinary mappings) is returned unchanged |
| VueValue.UnwrapIdempotent | xhs_extractor_module/xhs_fetch.py:187-200 | unwrapping twice is unwrapping once |
| VueValue.UnwrapPrecedence | xhs_extractor_module/xhs_fetch.py:193-199 | `_value` wins over `_rawValue`, which wins over a lone `value` |
| VueValue.ValueWithSiblingIsData | xhs_extractor_module/xhs_fetch.py:198 | a mapping with `value` and another plain key is data, not a wrapper |
| VueValue.PlainKeys | xhs_extractor_module/xhs_fetch.py:198 | the keys not starting with `__`: no more than the mapping has, none of them dunder |
| NoteShapes.NormalizeFirstId | xhs_extractor_module/xhs_fetch.py:50-54 | a truthy non-mapping `firstNoteId` stays truthy after normalisation |
| NoteShapes.DetailLookup | xhs_extractor_module/xhs_fetch.py:57-67 | the lookup fails (the caught `TypeError`) exactly for an unhashable list or mapping id; any other non-string id finds no key, since decoded keys are strings, and gets the default `{}` |
| NoteShapes.LocateNote | xhs_extractor_module/xhs_fetch.py:36-107 | the sequential probes, with the shape-4 loop and its `break`, give `Locate(state)` |
| NoteShapes.Locate | xhs_extractor_module/xhs_fetch.py:36-107 | the located note data: shape 1's data, else shape 2's, else shape 3's, else shape 4's, with shape 1's id; its order is stated by `LocateOrder` |
| NoteShapes.LocateOrder | xhs_extractor_module/xhs_fetch.py:39-107 | shape 1 wins, then shape 2, then shape 3, then shape 4, each only while the note data is still None; the id comes from shape 1 alone |
| NoteShapes.Shape4FirstAnswer | xhs_extractor_module/xhs_fetch.py:90-107 | a shape-4 answer is what the probe gives for the first note-named key whose value is a mapping the probe answers; no earlier key qualifies |
| NoteShapes.Shape4NoCandidate | xhs_extractor_module/xhs_fetch.py:90-107 | when no note-named key holds a mapping the probe answers, shape 4 finds nothing |
| NoteShapes.Shape1MissYieldsEmpty | xhs_extractor_module/xhs_fetch.py:58-61 | a detail map that lacks the first id yields `{}` as note data and `firstNoteId` as id |
| NoteShapes.Shape1NullKeepsId | xhs_extractor_module/xhs_fetch.py:58-84 | a null `note` under the detail map lets shape 2 supply the data, while shape 1's id is kept |
| NoteShapes.Shape4BreaksOnNull | xhs_extractor_module/xhs_fetch.py:96-98 | shape 4 breaks on a `note` key even when it holds null, so a later key is never reached |
| NoteSearch.FirstCandidate | xhs_extractor_module/xhs_fetch.py:123-130 | a result is the note-like candidate under one of the four keys; no result means none of them is note-like |
| NoteSearch.FirstFive | xhs_extractor_module/xhs_fetch.py:141 | `value[:5]`: a prefix of at most five items, the whole list when shorter |
| NoteSearch.FindSound | xhs_extractor_module/xhs_fetch.py:115-146 | what `find_note_data` returns is note-like and reachable within the depth and fan-out bounds |
| NoteSearch.FieldsSound | xhs_extractor_module/xhs_fetch.py:133-146 | a result of the key loop comes from a non-skipped key's value |
| NoteSearch.ListSound | xhs_extractor_module/xhs_fetch.py:141-145 | a result of the list loop comes from one of its items |
| NoteSearch.FindComplete | xhs_extractor_module/xhs_fetch.py:115-146 | if a note-like object is reachable, the search finds something |
| NoteSearch.FieldsComplete | xhs_extractor_module/xhs_fetch.py:133-146 | if some non-skipped key's value reaches a note, the key loop succeeds |
| NoteSearch.HeadComplete | xhs_extractor_module/xhs_fetch.py:136-145 | if the first key's value reaches a note, the key loop succeeds |
| NoteSearch.ViaComplete | xhs_extractor_module/xhs_fetch.py:136-145 | a mapping value is searched with success, and so is a list whose first five items reach the note |
| NoteSearch.ListComplete | xhs_extractor_module/xhs_fetch.py:141-145 | if some item reaches a note, the list loop succeeds |
| NoteSearch.FindNoteDataCorrect | xhs_extractor_module/xhs_fetch.py:115-146 | the search succeeds exactly when some note-like object is reachable, and what it returns is one |
| NoteSearch.FindNoteData | xhs_extractor_module/xhs_fetch.py:115-146 | the depth-bounded search: nothing at depth 0 or for a non-mapping, else the first candidate key's value, else the search of the values; `FindNoteDataCorrect` says when it succeeds |
| NoteSearch.FindStopsAtDepthZero | xhs_extractor_module/xhs_fetch.py:117-118 | at depth 0 nothing is found and nothing is reachable |
| NoteSearch.SixthListElementIgnored | xhs_extractor_module/xhs_fetch.py:141 | a note in the sixth element of a list is not found |
| NoteFields.OrChain | xhs_extractor_module/xhs_fetch.py:203-208 | a Python `or` chain gives the first truthy operand, else the last one |
| NoteFields.Unwrapped | xhs_extractor_module/xhs_fetch.py:203-231 | the unwrapped `get` of each key, in order |
| NoteFields.FieldTextOfUnwrapped | xhs_extractor_module/xhs_fetch.py:209-211 | for an unwrapped value the text is its `str` when truthy and "" otherwise, and it is non-empty exactly when the value is truthy |
| NoteFields.TitleSelection | xhs_extractor_module/xhs_fetch.py:203-211 | the title is the first truthy of `title`, `displayTitle` and `noteCard.displayTitle`, unwrapped; it fails with `AttributeError` exactly when the first two are falsy and `noteCard` is present but not a mapping |
| NoteFields.TitleValue | xhs_extractor_module/xhs_fetch.py:203-211 | the title value before `str`: the first truthy of `title`, `displayTitle`, `noteCard.displayTitle` and "", raising when `noteCard` is not a mapping; stated by `TitleSelection` |
| NoteFields.TextValue | xhs_extractor_module/xhs_fetch.py:213-223 | the selected text value is never a wrapper |
| NoteFields.TextSelection | xhs_extractor_module/xhs_fetch.py:213-223 | the text is the first truthy of `desc`, `noteContent`, `content` and `text`, unwrapped; when none is truthy it is "" |
| NoteFields.UrlIdOr | xhs_extractor_module/xhs_fetch.py:237-250 | the URL's note id when a pattern matches, else the uuid |
| NoteFields.NoteIdText | xhs_extractor_module/xhs_fetch.py:225-255 | the note id text: `str` of `NoteIdValue` when truthy, else the uuid; stated by `NoteIdSelection` and `NoteIdTextNonEmpty` |
| NoteFields.NoteIdValue | xhs_extractor_module/xhs_fetch.py:225-253 | the id value after the fallbacks and the two unwraps; shown always truthy by `NoteIdTextNonEmpty` |
| NoteFields.NoteIdSelection | xhs_extractor_module/xhs_fetch.py:225-253 | the id is the shape-1 id, else the first truthy of `noteId`, `id` and `note_id`, else the URL id or the uuid |
| NoteFields.NoteIdTextNonEmpty | xhs_extractor_module/xhs_fetch.py:225-255 | with a non-empty uuid the value the last line tests is always truthy, so its `uuid.uuid4()` branch is dead, and the id is never empty |
| NoteFields.NoteIdNonEmpty | xhs_extractor_module/xhs_fetch.py:241-247 | an id taken from the URL is non-empty |
| NoteFields.ProbeUrl | xhs_extractor_module/xhs_fetch.py:280-284 | the first URL key whose unwrapped value is an "http" string wins; none means no key has one |
| NoteFields.NestedUrl | xhs_extractor_module/xhs_fetch.py:287-297 | a URL found under `info` or `imageInfo` starts with "http" |
| NoteFields.NestedUrlFirstMatch | xhs_extractor_module/xhs_fetch.py:287-297 | the nested URL is the probe answer of the first nested key whose unwrapped value is a mapping holding a URL; no earlier nested key holds one |
| NoteFields.NestedUrlNone | xhs_extractor_module/xhs_fetch.py:287-297 | the nested probe finds nothing exactly when no nested key holds a mapping with a URL |
| NoteFields.ElementUrl | xhs_extractor_module/xhs_fetch.py:276-297 | the URL field of a mapping element starts with "http" |
| NoteFields.ElementUrlDirectFirst | xhs_extractor_module/xhs_fetch.py:276-297 | a URL under a direct key wins, and only without one is the nested probe used |
| NoteFields.Offer | xhs_extractor_module/xhs_fetch.py:268-297 | the URL one element offers: a bare `http` string as it is, the URL field of a mapping, nothing otherwise; used by `AddElementMeans` and `CollectListContents` |
| NoteFields.AddElement | xhs_extractor_module/xhs_fetch.py:267-300 | one element appends at most one "http" URL; one taken from a mapping is new to the list |
| NoteFields.CollectList | xhs_extractor_module/xhs_fetch.py:267-300 | collecting keeps a list of "http" URLs |
| NoteFields.AddElementMeans | xhs_extractor_module/xhs_fetch.py:268-300 | one element appends the URL it offers, except a mapping's URL already in the list; a bare string is appended even when present |
| NoteFields.CollectListContents | xhs_extractor_module/xhs_fetch.py:267-300 | a URL is in the collected list exactly when it was there before or some element of the list offers it |
| NoteFields.KeyImages | xhs_extractor_module/xhs_fetch.py:261-300 | one image key contributes only "http" URLs |
| NoteFields.ProbeUrlKeys | xhs_extractor_module/xhs_fetch.py:280-284 | the loop over URL keys with its `break` computes `ProbeUrl` |
| NoteFields.ElementUrlOf | xhs_extractor_module/xhs_fetch.py:277-297 | the direct probe, then the nested one, computes `ElementUrl` |
| NoteFields.ProbeNestedKeys | xhs_extractor_module/xhs_fetch.py:287-297 | the loop over `info` and `imageInfo` with its `break` computes `NestedUrl` |
| NoteFields.CollectElements | xhs_extractor_module/xhs_fetch.py:267-300 | the loop over one list's elements computes `CollectList` |
| NoteFields.CollectImages | xhs_extractor_module/xhs_fetch.py:257-303 | the loop over the four image keys, stopping after the first that produced images, computes `ImagesFrom` |
| NoteFields.ImagesFrom | xhs_extractor_module/xhs_fetch.py:257-303 | the images of the first image key that yields any, else none; stated by `ImagesFromFirstProductiveKey` and `ImagesFromNoProductiveKey` |
| NoteFields.ImagesAreHttp | xhs_extractor_module/xhs_fetch.py:257-303 | every collected image URL starts with "http" |
| NoteFields.ImagesFromFirstProductiveKey | xhs_extractor_module/xhs_fetch.py:302-303 | the images are exactly those of the first key that contributes any |
| NoteFields.ImagesFromNoProductiveKey | xhs_extractor_module/xhs_fetch.py:257-303 | when no key contributes, there are no images |
| NoteFields.CollectListDistinct | xhs_extractor_module/xhs_fetch.py:299-300 | with no bare string URLs, the collected URLs have no duplicates |
| NoteFields.BareUrlsRepeat | xhs_extractor_module/xhs_fetch.py:271-274 | a bare string URL is appended without the duplicate check, so it can repeat |
| XhsFetch.KeyList | xhs_extractor_module/xhs_fetch.py:183 | `list(state.keys())`: one string per key, in order |
| XhsFetch.ParseNoteFromState | xhs_extractor_module/xhs_fetch.py:20-313 | the imperative parse computes `ParseSpec` |
| XhsFetch.ParseSpec | xhs_extractor_module/xhs_fetch.py:20-313 | the parse: the degraded note when nothing is located, an `AttributeError` for non-mapping note data, else the note built from the fields; stated by `ParseFailsOnlyOnNonMappings`, `DegradedIffNotLocated` and `ParsedNoteShape` |
| XhsFetch.ParsedNoteShape | xhs_extractor_module/xhs_fetch.py:176-312 | a parsed note has a non-empty id and title, the given URL, no OCR text and only "http" images; when some shape located note data, that data is the note's `raw` |
| XhsFetch.ParseFailsOnlyOnNonMappings | xhs_extractor_module/xhs_fetch.py:203-206 | parsing raises `AttributeError` exactly when located note data is not a mapping, or the title lookup reaches a `noteCard` that is not one |
| XhsFetch.DiagnosticHasNoTitle | xhs_extractor_module/xhs_fetch.py:183 | the diagnostic mapping has no title |
| XhsFetch.DegradedIffNotLocated | xhs_extractor_module/xhs_fetch.py:109-184 | the degraded note is returned exactly when no shape located note data |
| XhsFetch.DegradedNoteContents | xhs_extractor_module/xhs_fetch.py:156-184 | the degraded note has the fixed title, no text, images or OCR text, the URL id or else the uuid as id, and the state's keys in `raw` |
| XhsFetch.DegradedNote | xhs_extractor_module/xhs_fetch.py:156-184 | the degraded note built when no shape locates data; stated by `DegradedNoteContents` |
| XhsFetch.DeepSearchResultUnused | xhs_extractor_module/xhs_fetch.py:148-184 | a note the deep search finds is not used: the degraded note is still returned |
| XhsFetch.FeedNoteFound | xhs_extractor_module/xhs_fetch.py:115-149 | the deep search finds a note one mapping down under a key no shape probes |
| XhsFetch.FeedNoteNotLocated | xhs_extractor_module/xhs_fetch.py:39-107 | no shape locates that note |
| XhsFetch.Shape1MissGivesUntitledNote | xhs_extractor_module/xhs_fetch.py:57-313 | a detail map that lacks `firstNoteId` gives an untitled, empty note with that id, not the degraded note |
| XhsFetch.EmptyNoteFields | xhs_extractor_module/xhs_fetch.py:203-313 | an empty note mapping with a truthy shape id gives "未命名笔记", no text, no images, and that id |
| XhsFetch.EmptyTitleAndText | xhs_extractor_module/xhs_fetch.py:203-223 | an empty note mapping has title "" and text "" |
| UrlPatterns.HexRunEnd | xhs_extractor_module/xhs_fetch.py:159 | `[a-f0-9]+` is matched greedily, up to the first other character |
| UrlPatterns.NonSlashEnd | xhs_extractor_module/xhs_fetch.py:161 | `[^/]+` is matched up to the next '/' |
| UrlPatterns.GroupStart | xhs_extractor_module/xhs_fetch.py:158-162 | the captured group starts after the literal prefix |
| UrlPatterns.MatchAt | xhs_extractor_module/xhs_fetch.py:158-162 | a match captures a non-empty run of `[a-f0-9]` |
| UrlPatterns.SearchFromLeftmost | xhs_extractor_module/xhs_fetch.py:165 | `re.search` from position i returns the match at the leftmost matching position; none when no position matches |
| UrlPatterns.SearchIsLeftmost | xhs_extractor_module/xhs_fetch.py:165 | the same from position 0; no result exactly when no position matches |
| UrlPatterns.Search | xhs_extractor_module/xhs_fetch.py:158-170 | `re.search` of one id pattern: the capture at the leftmost match; stated by `SearchIsLeftmost` and `MatchIsMaximalRun` |
| UrlPatterns.MatchIsMaximalRun | xhs_extractor_module/xhs_fetch.py:159-161 | the capture is the text after the prefix and is a maximal hex run |
| UrlPatterns.MatchNeedsLead | xhs_extractor_module/xhs_fetch.py:158-162 | every pattern match starts with '/' and the pattern's letter |
| UrlPatterns.ExploreNeedsHex | xhs_extractor_module/xhs_fetch.py:159 | `/explore/note123` has no explore id: 'n' is not a hex digit |
| UrlPatterns.ExploreAtStartFails | xhs_extractor_module/xhs_fetch.py:159 | the match at the start of `/explore/note123` fails |
| XhsParser.ExtractNoteIdFromUrl | xhs_extractor_module/xhs_parser.py:20-49 | the loop over the three patterns with its early return computes `NoteIdFromUrl` |
| XhsParser.NoteIdFromUrl | xhs_extractor_module/xhs_parser.py:20-49 | the note id of a URL: a short link is read through its redirect target (none when the request raised), then the first of the three patterns that matches; stated by `NoteIdFromUrlMeans` |
| XhsParser.NoteIdFromUrlMeans | xhs_extractor_module/xhs_parser.py:28-49 | a short link whose HEAD request raised gives None; an ordinary URL ignores the redirect; an id is the hex run of the first pattern that matches the target |
| XhsParser.ChooseNoteDataOrder | xhs_extractor_module/xhs_parser.py:116-122 | `note` when truthy, else `noteDetail` when truthy, else, when some key is note-named, the value of the first such key, even a falsy one; with no note-named key the result is truthy exactly when `note` or `noteDetail` is |
| XhsParser.NoteKeyValueFromFirst | xhs_extractor_module/xhs_parser.py:119-122 | when some key is note-named, the key loop gives the value of the first one; with none, the fallback |
| XhsParser.ChooseNoteDataSteps | xhs_extractor_module/xhs_parser.py:116-122 | the `or` and the key loop with `break` compute `ChooseNoteData` |
| XhsParser.ChooseNoteData | xhs_extractor_module/xhs_parser.py:116-122 | `note or noteDetail`, else the first note-named key's value; stated by `ChooseNoteDataOrder` |
| XhsParser.LookupValue | xhs_extractor_module/xhs_parser.py:141-150 | one probe can fail only with `AttributeError` (`.get` on a non-mapping), never with `TypeError` |
| XhsParser.FirstTruthyLookup | xhs_extractor_module/xhs_parser.py:141-150 | the `or` chain's value is truthy exactly when some probe place holds a truthy value |
| XhsParser.FirstTruthyLookupOrder | xhs_extractor_module/xhs_parser.py:141-150 | the chain gives the value of the first place that raises or is truthy, or of the last place, every earlier place being reached and falsy |
| XhsParser.FirstTruthyLookupAllFalsy | xhs_extractor_module/xhs_parser.py:141-150 | a falsy answer is the last place's value, and every place was falsy |
| XhsParser.ElementUrl | xhs_extractor_module/xhs_parser.py:133-150 | the URL one element offers: nothing for a falsy element, a string as it is, the chain's truthy string for a mapping; the chain's error propagates and a truthy non-string raises; used by `CollectFromContents` |
| XhsParser.Elements | xhs_extractor_module/xhs_parser.py:129-131 | iterating visits list items, the characters of a string or the keys of a mapping; an int, bool or None raises |
| XhsParser.CollectFrom | xhs_extractor_module/xhs_parser.py:130-154 | the loop only appends: earlier URLs stay in place |
| XhsParser.CollectFromKeepsInvariant | xhs_extractor_module/xhs_parser.py:152-154 | the image list stays a list of distinct "http" URLs |
| XhsParser.CollectFromContents | xhs_extractor_module/xhs_parser.py:130-154 | when no element raises, a URL is in the result exactly when it was there before or some element offered it and it starts with "http" |
| XhsParser.CollectImageUrls | xhs_extractor_module/xhs_parser.py:130-154 | the image loop, stopping at the first element that raises, computes `CollectFrom` |
| XhsParser.ParseInitialStateSteps | xhs_extractor_module/xhs_parser.py:106-239 | the imperative state reading and fix-up computes `ParseInitialState` |
| XhsParser.ExtractSpec | xhs_extractor_module/xhs_parser.py:106-156 | title, text and images read from the chosen note data, empty when that is falsy, not a mapping, or its `noteCard` read raises |
| XhsParser.ParseInitialState | xhs_extractor_module/xhs_parser.py:106-239 | the state reading followed by `Finish`; stated by `ParserImagesDistinctHttp` and `FinishTitle` |
| XhsParser.ParserImagesDistinctHttp | xhs_extractor_module/xhs_parser.py:129-154 | the parser's images are distinct "http" URLs |
| XhsParser.BareUrlsDeduplicated | xhs_extractor_module/xhs_parser.py:152-154 | unlike the state parser, this parser deduplicates bare string URLs too |
| XhsParser.NullInfoKeepsEarlierUrls | xhs_extractor_module/xhs_parser.py:145 | an element whose `info` is null raises; the caught exception keeps the URLs appended before it |
| XhsParser.NullInfoRaises | xhs_extractor_module/xhs_parser.py:141-150 | an image element whose `info` is null raises `AttributeError` in the probe chain |
| XhsParser.FinishTitle | xhs_extractor_module/xhs_parser.py:214-234 | the text is stripped; a title of five or more characters is kept; a shorter one is replaced by the first text line, else "未命名笔记" |
| XhsParser.Finish | xhs_extractor_module/xhs_parser.py:214-234 | the fix-up: a non-string text raises `AttributeError` and a truthy title without a length raises `TypeError`; otherwise the text is stripped, a falsy or short title becomes the first text line, and an empty one "未命名笔记"; stated by `FinishTitle` |
| XhsParser.FirstLineTitleShape | xhs_extractor_module/xhs_parser.py:227-229 | the fallback title has no newline and at most 100 characters |
| XhsParser.StripInside | xhs_extractor_module/xhs_parser.py:214 | stripping never lengthens a string or adds characters |
| XhsShare.RunEnd | xhs_extractor_module/xhs_share.py:35 | `[^\s）)＞》>，,。]+` runs up to the first stop character |
| XhsShare.SchemeEnd | xhs_extractor_module/xhs_share.py:35 | the position after `http://` or `https://` lies within the text |
| XhsShare.LinkAtShape | xhs_extractor_module/xhs_share.py:35 | a match at i is a valid link equal to the text from i, ending at a stop character or the end |
| XhsShare.LinkFromLeftmost | xhs_extractor_module/xhs_share.py:35 | the search returns the match at the leftmost position that matches; none when no position matches |
| XhsShare.CleanupIsNoop | xhs_extractor_module/xhs_share.py:39-43 | `strip()` and the trailing-punctuation `rstrip` leave a matched link unchanged |
| XhsShare.ExtractUrlIsLeftmostLink | xhs_extractor_module/xhs_share.py:28-48 | None or "" gives None; otherwise None exactly when no position matches; a result is the valid link at the leftmost match |
| XhsShare.ExtractUrl | xhs_extractor_module/xhs_share.py:12-48 | the share-text link: None for None or "", else the leftmost match, stripped; stated by `ExtractUrlIsLeftmostLink` |
| XhsShare.RunEndIs | xhs_extractor_module/xhs_share.py:35 | the run ends at the first stop character after its start, or at the end |
| XhsShare.LinkStartsWithH | xhs_extractor_module/xhs_share.py:35 | a match starts at an 'h' |
| XhsShare.LinkAtValid | xhs_extractor_module/xhs_share.py:35 | a valid link that ends at a stop character or the end is matched where it starts |
| XhsShare.NoLinkWithoutH | xhs_extractor_module/xhs_share.py:35 | no match starts before the first 'h' |
| XhsShare.LinkInContext | xhs_extractor_module/xhs_share.py:12-48 | a valid link with no 'h' before it and a stop character or the end after it is exactly what is extracted |
| XhsShare.FakeShareTextRoundTrip | xhs_extractor_module/xhs_fetch.py:511 | the share text built around a note URL gives that URL back |
| CookieManager.InsertMeans | xhs_extractor_module/cookie_manager.py:48 | `cookies[key] = value` binds the key to the value and leaves other keys alone; a new key is appended, an existing one keeps its place |
| CookieManager.InsertNew | xhs_extractor_module/cookie_manager.py:48 | a new key goes at the end |
| CookieManager.Insert | xhs_extractor_module/cookie_manager.py:48 | `cookies[key] = value` on an insertion-ordered dictionary; stated by `InsertMeans` |
| CookieManager.ItemPairs | xhs_extractor_module/cookie_manager.py:44-48 | one parse result per item |
| CookieManager.ParseCookieString | xhs_extractor_module/cookie_manager.py:24-50 | the imperative parse computes `ParseCookieSpec` |
| CookieManager.ParseCookieSpec | xhs_extractor_module/cookie_manager.py:24-50 | `parse_cookie_string`: {} for None or "", else the pairs of the `;` items of the body inserted in order; stated by `AddPairsLookup` and `CookieRoundTrip` |
| CookieManager.InsertItems | xhs_extractor_module/cookie_manager.py:44-48 | the loop over the `;`-separated items inserts every parsed pair in order |
| CookieManager.StripCookiePrefix | xhs_extractor_module/cookie_manager.py:39-41 | strip, then drop a case-insensitive `cookie:` prefix and strip again |
| CookieManager.Body | xhs_extractor_module/cookie_manager.py:39-41 | the stripped string without a case-insensitive `cookie:` prefix; stated by `HeaderBody` and `BodyOfCookieString` |
| CookieManager.AddPairsLookup | xhs_extractor_module/cookie_manager.py:44-48 | the resulting dictionary has unique keys, and each key holds the value of its last item |
| CookieManager.ParseBlank | xhs_extractor_module/cookie_manager.py:35-36 | None, "" or a blank string gives an empty dictionary |
| CookieManager.ItemPairTrimmed | xhs_extractor_module/cookie_manager.py:45-48 | whatever the item, the key and value it parses to are stripped |
| CookieManager.InsertKeepsTrimmed | xhs_extractor_module/cookie_manager.py:48 | inserting a stripped key and value keeps every entry stripped |
| CookieManager.AddPairsTrimmed | xhs_extractor_module/cookie_manager.py:44-48 | inserting the parsed items in order gives only stripped keys and values |
| CookieManager.ParsedCookiesTrimmed | xhs_extractor_module/cookie_manager.py:24-50 | for every input, every key and value of the parsed dictionary is stripped |
| CookieManager.ItemSplitsAtFirstEquals | xhs_extractor_module/cookie_manager.py:46-48 | an item splits at its first '=', so a value may contain '=' |
| CookieManager.AddPairsNext | xhs_extractor_module/cookie_manager.py:44-48 | one more item inserts its pair, or changes nothing when it has no '=' |
| CookieManager.ItemPairOfPieces | xhs_extractor_module/cookie_manager.py:45-48 | a stripped `key=value` item with no '=' in the key parses to that pair |
| CookieManager.ItemPairSameStrip | xhs_extractor_module/cookie_manager.py:45 | items that strip alike parse alike |
| CookieManager.PairTexts | xhs_extractor_module/cookie_manager.py:92 | one `key=value` text per pair, in order |
| CookieManager.CookieString | xhs_extractor_module/cookie_manager.py:82-92 | `cookie_dict_to_string`: the pair texts joined by "; "; stated by `CookieRoundTrip` and `CookieStringEmpty` |
| CookieManager.BodyOfCookieString | xhs_extractor_module/cookie_manager.py:39-41 | a formatted cookie string is already stripped and has no `cookie:` prefix to drop |
| CookieManager.CookieSplit | xhs_extractor_module/cookie_manager.py:44 | splitting a formatted string at ';' gives the pair texts, each after the first preceded by a space |
| CookieManager.CookieItemsRebuild | xhs_extractor_module/cookie_manager.py:44-48 | parsing those items rebuilds the dictionary |
| CookieManager.CookieRoundTrip | xhs_extractor_module/cookie_manager.py:24-92 | `parse_cookie_string(cookie_dict_to_string(d)) == d` for keys without '=' or ';', keys and values without surrounding spaces, and no `cookie:` clash |
| CookieManager.CookieHeaderPrefixDropped | xhs_extractor_module/cookie_manager.py:39-41 | a `Cookie: ` header prefix is dropped: the round trip still holds |
| CookieManager.HeaderBody | xhs_extractor_module/cookie_manager.py:39-41 | the body of `Cookie: s` is s for a stripped, non-empty s |
| CookieManager.CookieStringEmpty | xhs_extractor_module/cookie_manager.py:92 | an empty dictionary formats as "" |
| Ocr.DictGetMeans | xhs_extractor_module/ocr.py:163-165 | `key in data` exactly when some entry has the key, and then `data[key]` is the first such entry's value |
| Ocr.RemoveChar | xhs_extractor_module/ocr.py:146 | `replace(c, '')` removes every c and keeps every other character |
| Ocr.Kept | xhs_extractor_module/ocr.py:180-183 | a string is appended or not, nothing else |
| Ocr.KeptText | xhs_extractor_module/ocr.py:173-177 | a candidate text contributes itself or nothing; whether it is kept is decided by the noise filter |
| Ocr.ExtractTexts | xhs_extractor_module/ocr.py:156-189 | the recursive walk appends exactly `Extract(data, depth)` to the list |
| Ocr.Extract | xhs_extractor_module/ocr.py:156-189 | the texts the recursive walk collects; stated by `ExtractKeepsNoNoise`, `DictOrder` and `StringListCollected` |
| Ocr.ExtractFromDict | xhs_extractor_module/ocr.py:161-168 | the mapping branch appends the priority keys' texts, then every value's texts |
| Ocr.ExtractPriority | xhs_extractor_module/ocr.py:163-165 | the loop over "text", "result" and "content" |
| Ocr.ExtractValues | xhs_extractor_module/ocr.py:167-168 | the loop over all values |
| Ocr.ExtractFromItems | xhs_extractor_module/ocr.py:169-185 | the list and tuple branch, item by item |
| Ocr.ExtractItem | xhs_extractor_module/ocr.py:171-185 | one item: a tuple starting with a string contributes that string only |
| Ocr.OcrTextOf | xhs_extractor_module/ocr.py:126-197 | the imperative text extraction computes `OcrText` |
| Ocr.OcrText | xhs_extractor_module/ocr.py:126-197 | the recognised text: "" for a falsy result, else the collected strings joined by newlines; stated by `FalsyResultHasNoText` and `OcrTextLines` |
| Ocr.DeepNodesIgnored | xhs_extractor_module/ocr.py:158-159 | below depth 10 nothing is collected |
| Ocr.ExtractKeepsNoNoise | xhs_extractor_module/ocr.py:156-189 | no collected string is noise |
| Ocr.PriorityKeepsNoNoise | xhs_extractor_module/ocr.py:163-165 | nor is any string under the priority keys |
| Ocr.ValuesKeepNoNoise | xhs_extractor_module/ocr.py:167-168 | nor is any string under the values |
| Ocr.ItemsKeepNoNoise | xhs_extractor_module/ocr.py:170-185 | nor is any string in the items |
| Ocr.ItemKeepsNoNoise | xhs_extractor_module/ocr.py:171-185 | nor is any string of one item |
| Ocr.FalsyResultHasNoText | xhs_extractor_module/ocr.py:126-197 | a falsy engine result gives no strings; the text is the strings joined by newlines |
| Ocr.CleanOnly | xhs_extractor_module/ocr.py:180-183 | filtering a list of strings never lengthens it |
| Ocr.StringListCollected | xhs_extractor_module/ocr.py:169-183 | a list of strings yields its non-noise strings, in order |
| Ocr.TupleFirstElementOnly | xhs_extractor_module/ocr.py:171-177 | a `(text, confidence, ...)` tuple contributes only its text |
| Ocr.DictOrder | xhs_extractor_module/ocr.py:161-168 | a mapping yields "text", "result", "content", then every value |
| Ocr.PriorityKeyCollectedTwice | xhs_extractor_module/ocr.py:163-168 | a value under a priority key is collected twice, once per loop |
| Ocr.BoxAndTupleLayout | xhs_extractor_module/ocr.py:151 | the `[[box], (text, confidence)]` layout yields the text once |
| Ocr.TextEntry | xhs_extractor_module/ocr.py:152 | a `{'text': t, 'confidence': c}` entry yields t twice |
| Ocr.ResultEntry | xhs_extractor_module/ocr.py:152 | a `{'result': v}` entry yields v's texts twice, once per loop |
| Ocr.ResultTextLayout | xhs_extractor_module/ocr.py:152 | the `[{'result': [{'text': t, ...}]}]` layout yields t four times |
| Ocr.OcrTextLines | xhs_extractor_module/ocr.py:197 | when some strings were collected and none contains a newline, splitting the text at newlines gives them back |
| Ocr.StringNode | xhs_extractor_module/ocr.py:173-177 | a string node yields itself unless empty or noise |
| Ocr.SingleItem | xhs_extractor_module/ocr.py:169-185 | a list holding one mapping or list yields what that element yields one level deeper |
| Ocr.StringItemsCollected | xhs_extractor_module/ocr.py:169-183 | a list of strings yields the first n of them, cleaned, after n items |
| Ocr.RemoveAbsent | xhs_extractor_module/ocr.py:146 | removing a character that does not occur changes nothing |
| Ocr.DigitsLowered | xhs_extractor_module/ocr.py:142 | lower-casing leaves a digit string unchanged |
| Ocr.NotInListByFirst | xhs_extractor_module/ocr.py:142-144 | a string is not in a list whose entries all start differently |
| Ocr.NoneLabelled | xhs_extractor_module/ocr.py:220-227 | with no recognised image there is no labelled result |
| Ocr.LongNumbersKept | xhs_extractor_module/ocr.py:145-147 | strings of five or more digits are not noise |
| Ocr.IsNoise | xhs_extractor_module/ocr.py:133-148 | `_is_noise_text`: blank, a path (a leading slash or backslash, or a colon followed by either inside), one of the keywords `min`, `max`, `general`, `default`, `none`, `null`, `true`, `false`, or digits (ignoring '.' and '-') shorter than five characters; stated by `LongNumbersKept` and `ShortNumbersAreNoise` |
| Ocr.ShortNumbersAreNoise | xhs_extractor_module/ocr.py:145-147 | numbers of one to four digits are noise |
| Ocr.NotKeyword | xhs_extractor_module/ocr.py:142-144 | a string starting with a digit is no system keyword |
| Ocr.NoPathMarks | xhs_extractor_module/ocr.py:139-140 | a digit string has no path marks |
| Ocr.OcrImagesOf | xhs_extractor_module/ocr.py:213-236 | the loop computes `OcrImages` and counts the successes and failures, which add up to the number of images |
| Ocr.OcrImages | xhs_extractor_module/ocr.py:209-236 | the labelled texts of the recognised images joined by blank lines; stated by `LabelledSound`, `LabelledComplete` and `NothingRecognised` |
| Ocr.Labelled | xhs_extractor_module/ocr.py:220-233 | at most one labelled result per image |
| Ocr.LabelledMembers | xhs_extractor_module/ocr.py:220-227 | a result is labelled exactly when its image was recognised, with the label of its 1-based index |
| Ocr.LabelledSound | xhs_extractor_module/ocr.py:220-227 | every labelled result comes from a recognised image |
| Ocr.LabelledComplete | xhs_extractor_module/ocr.py:220-227 | every recognised image has its labelled result |
| Ocr.NothingRecognised | xhs_extractor_module/ocr.py:213-236 | no recognised image gives "" |
| Ocr.OneImage | xhs_extractor_module/ocr.py:224-236 | one recognised image gives its labelled text |
| Ocr.FirstLabel | xhs_extractor_module/ocr.py:225 | the label of image 1 |
| WebApp.ReplaceIllegal | xhs_extractor_module/web_app.py:32 | each illegal character becomes '_', all others stay |
| WebApp.SanitizedIsSafe | xhs_extractor_module/web_app.py:29-41 | the name is non-empty, at most 200 characters, free of illegal characters, and does not start with '.' or ' ' |
| WebApp.SanitizeFilename | xhs_extractor_module/web_app.py:29-41 | replace each illegal character (angle brackets, colon, double quote, slash, backslash, vertical bar, question mark, asterisk) by '_', strip dots and spaces, cut to 200, and when empty use "未命名笔记"; stated by `SanitizedIsSafe` and `CleanNameUnchanged` |
| WebApp.CleanNameUnchanged | xhs_extractor_module/web_app.py:29-41 | a name that is already clean is returned unchanged |
| WebApp.SanitizeNotIdempotent | xhs_extractor_module/web_app.py:34-37 | sanitising twice can differ: the cut at 200 can leave a trailing space that a second pass strips |
| WebApp.ImageLines | xhs_extractor_module/web_app.py:130-135 | one line per image, numbered from 1 |
| WebApp.HeaderText | xhs_extractor_module/web_app.py:113-118 | the header: title, link, note id, separator, body heading and text |
| WebApp.BuildMarkdown | xhs_extractor_module/web_app.py:112-135 | the appends to `md_content` compute `Markdown` |
| WebApp.Markdown | xhs_extractor_module/web_app.py:112-135 | the markdown text of a note; stated by `MarkdownLayout` and `MarkdownStartsWithTitle` |
| WebApp.AppendImageSection | xhs_extractor_module/web_app.py:127-135 | the image loop appends the image section |
| WebApp.ImageSectionText | xhs_extractor_module/web_app.py:127-135 | the image section: separator, heading, then the lines |
| WebApp.MarkdownLayout | xhs_extractor_module/web_app.py:113-135 | the block layout: title first, the OCR section only with `use_ocr` and OCR text, the image section only with images, and one line per image linking the downloaded file or the URL |
| WebApp.MarkdownStartsWithTitle | xhs_extractor_module/web_app.py:113 | the file starts with the title heading |
| WebApp.NatToStringValue | xhs_extractor_module/web_app.py:132 | the decimal text of a number denotes that number |
| WebApp.Pad3Value | xhs_extractor_module/web_app.py:132 | `{i:03d}` keeps the number's value |
| WebApp.ImageFileNamesDistinct | xhs_extractor_module/web_app.py:132-158 | distinct images get distinct file names, and the name the markdown links is the name the download loop writes |
| Models.NewNote | xhs_extractor_module/models.py:10-21 | a note built from id, URL, title and text has the dataclass defaults: no OCR text, no images, empty `raw` |
| Models.GetFullTag | xhs_extractor_module/models.py:52-61 | the loop that appends the truthy company, position and round computes `FullTag` |
| Models.FullTag | xhs_extractor_module/models.py:52-61 | `get_full_tag`: the truthy parts joined by '-', else `company_tag or ""`; stated by `FullTagFallsBack`, `FullTagIgnoresCompanyTag` and `FullTagSplitsIntoParts` |
| Models.Present | xhs_extractor_module/models.py:55-60 | a part contributes at most one non-empty string: only a truthy one is kept |
| Models.FullTagFallsBack | xhs_extractor_module/models.py:61 | with no part, the tag is `company_tag or ""` |
| Models.FullTagIgnoresCompanyTag | xhs_extractor_module/models.py:54-61 | with some part, `company_tag` has no effect |
| Models.FullTagSplitsIntoParts | xhs_extractor_module/models.py:54-61 | when no part contains '-', splitting the tag at '-' gives back the parts, and it has one '-' fewer than parts |
| FetchExamples.Structure1 | xhs_extractor_module/test_xhs_fetch.py:22-49 | shape 1 with id, title, text and two `url` images: all come through unchanged |
| FetchExamples.Structure1Located | xhs_extractor_module/test_xhs_fetch.py:24-41 | shape 1 locates the note and its id |
| FetchExamples.Structure1Images | xhs_extractor_module/test_xhs_fetch.py:48-49 | both image URLs are collected, in order |
| FetchExamples.Structure2 | xhs_extractor_module/test_xhs_fetch.py:51-73 | shape 2 with `displayTitle`, `noteContent` and one `originUrl` image |
| FetchExamples.Structure2Images | xhs_extractor_module/test_xhs_fetch.py:73 | the image comes from the third image key |
| FetchExamples.MissingData | xhs_extractor_module/test_xhs_fetch.py:75-86 | a state with no shape gives the degraded note with the URL's id |
| FetchExamples.ExploreUrlId | xhs_extractor_module/test_xhs_fetch.py:81 | the explore URL's id is `abc123` |
| FetchExamples.ExploreMissesBefore | xhs_extractor_module/xhs_fetch.py:159 | the explore pattern matches nowhere before `/explore/` in that URL |
| FetchExamples.ExploreMatchesAt | xhs_extractor_module/xhs_fetch.py:159 | it matches at `/explore/` and captures `abc123` |
| FetchExamples.ImageFieldVariants | xhs_extractor_module/test_xhs_fetch.py:88-115 | `urlDefault`, `picUrl` and `info.url` elements all contribute, in order |
| FetchExamples.InfoUrlElement | xhs_extractor_module/test_xhs_fetch.py:102 | an element with its URL in `info.url` contributes it unless already collected |
| FetchExamples.PicUrlThenInfo | xhs_extractor_module/test_xhs_fetch.py:101-102 | after one URL, a `picUrl` element and an `info.url` element add theirs in order |
| FetchExamples.Structure1Title | xhs_extractor_module/test_xhs_fetch.py:31 | the shape-1 note's `title` is the title |
| FetchExamples.Structure1Text | xhs_extractor_module/test_xhs_fetch.py:32 | its `desc` is the text |
| FetchExamples.Structure1ImageList | xhs_extractor_module/test_xhs_fetch.py:33-36 | its `imageList` yields both URLs |
| FetchExamples.Structure1Fields | xhs_extractor_module/test_xhs_fetch.py:29-37 | the note mapping alone gives the expected `Note` |
| FetchExamples.TwoUrlElements | xhs_extractor_module/test_xhs_fetch.py:34-35 | two `url` elements give both URLs in order |
| FetchExamples.Structure2Located | xhs_extractor_module/test_xhs_fetch.py:53-66 | shape 2 locates `noteData.data.noteData`, with no shape id |
| FetchExamples.Structure2Title | xhs_extractor_module/test_xhs_fetch.py:58 | `displayTitle` is the title when `title` is absent |
| FetchExamples.Structure2Text | xhs_extractor_module/test_xhs_fetch.py:59 | `noteContent` is the text when `desc` is absent |
| FetchExamples.Structure2Id | xhs_extractor_module/test_xhs_fetch.py:57 | `noteId` is the id when there is no shape-1 id |
| FetchExamples.Structure2ImageKey | xhs_extractor_module/test_xhs_fetch.py:60-62 | the `images` key yields the `originUrl` URL |
| FetchExamples.ImagesFromThirdKey | xhs_extractor_module/xhs_fetch.py:259-303 | when the first two image keys yield nothing, the third key's images are taken |
| FetchExamples.MissingKeyNoImages | xhs_extractor_module/xhs_fetch.py:262-265 | an absent image key yields nothing |

## Left out

- **Browser and network.**
  - Not modelled: the Playwright browser session, the login state, the HTTP requests and the HTML fallback of the older parser. Fetching a page and decoding its JSON are also out.
  - The state arrives as a decoded value.
  - The URL a short link's HEAD request ends at is a parameter of `XhsParser.NoteIdFromUrl`, with `None` when the request raised.
- **Randomness.** `uuid.uuid4()` is a parameter (`uuid`), required to be non-empty where that matters (`str(uuid.uuid4())` never is empty).
- **The note id's last fallback.** `import uuid` inside `_parse_note_from_state` (`xhs_fetch.py:172`, `xhs_fetch.py:249`) makes `uuid` a local name. If the `str(uuid.uuid4())` branch of `xhs_fetch.py:255` were reached without one of those imports having run, it would raise `UnboundLocalError`. `NoteIdText` returns the `uuid` parameter there instead. `NoteFields.NoteIdTextNonEmpty` shows that branch is never taken, so the difference cannot be observed.
- **The older parser's diagnostics.** The `raw` mapping of `fetch_xhs_note` (`xhs_parser.py:52`) is not modelled (`XhsParser.Parsed` has no such field): its `url` and `html_length` (`xhs_parser.py:110`), and the `initial_state` and `extracted_images_count` it adds (`xhs_parser.py:156-157`), which become the note's `raw` field (`xhs_parser.py:238`). The note model (`models.py:21`) marks that field as debugging output, and nothing in the core reads it.
- **Printing.** Debug printing is left out, and so are the state's key listing and the search path strings, which only feed messages.
- **Floating point.** Floats in the state are not modelled: the JSON value has null, booleans, integers, strings, lists and mappings. Python's `str()` is exact for these, except that `repr` escaping of unusual characters in strings is simplified.
- **Case and digits.**
  - `Lower` lower-cases ASCII only, and `isdigit` is taken on ASCII digits.
  - This is exact for the OCR keyword check and for the "note" key test.
  - For the `cookie:` prefix, a Kelvin sign (U+212A) in place of 'k' would be accepted by Python and not by the model.
- **The OCR engine.**
  - Not modelled: the engine (PaddleOCR), image downloads and temporary files.
  - The engine result of one image is a parameter, with non-string dictionary keys left out.
  - So is each image's outcome in `ocr_images`: its text, or `None` when it raised.
  - The other branches of `ocr_image_from_url` and `extract_ocr_from_note` are out.
- **The OCR noise filter.** `Ocr.Extract` and the walk methods take the noise filter as a parameter. `OcrText` passes `IsNoise`, the model of `_is_noise_text`. So the walk's results hold for any filter, and `IsNoise` itself is described by the lemmas on numbers, keywords and paths.
- **Cookies.**
  - `CookieManager.InsertItems` calls the function `ItemPair` for the per-item strip and split rather than writing those steps out.
  - `load_saved_cookies`, `save_cookies` and the cookie directory are file I/O and are out.
- **Web app.** Streamlit, directory creation, the file write, the image download loop and the progress display are left out. The file names the download loop writes (`web_app.py:158`) appear only in `WebApp.ImageFileNamesDistinct`.
- **Models.** `InterviewQuestion.created_at` and `new_id` (a clock and a uuid) are left out.
- **The older parser's HTML fallback.** `XhsParser.ParseInitialState` reads title, text and images from `__INITIAL_STATE__` only. The HTML fallback of `fetch_xhs_note` (`xhs_parser.py:161-211`) is not modelled. It runs whenever the state gives a falsy `text`, and then:
  - takes the text from the page's content containers or long `div` texts (`xhs_parser.py:164-192`);
  - replaces a title that is falsy or shorter than five characters by the page's `<title>` (`xhs_parser.py:195-198`);
  - fills an empty image list from the page's `<img>` tags (`xhs_parser.py:201-211`).
  So whenever the state gives no text, the source's title, text and images may differ from the model's.
