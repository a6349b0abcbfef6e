/** `extract_xhs_url_from_share_text`: the first `http(s)://` link in a share
    text, i.e. `re.search(r"(https?://[^\s）)＞》>，,。\n\r\t]+)", text)` written
    as a scan, followed by `strip()` and `rstrip` of the stop characters. */
module XhsShare {
  import opened Strings
  import opened PyJson

  /** The characters that end a link: `\s` and `）)＞》>，,。`. */
  predicate IsStop(c: char) {
    IsSpace(c) || c == '）' || c == ')' || c == '＞' || c == '》' || c == '>'
    || c == '，' || c == ',' || c == '。'
  }

  /** The characters of the final `rstrip`. */
  const TrailingPunctuation: set<char> := {'）', ')', '＞', '》', '>', '，', ',', '。', '\n', '\r', '\t'}

  /** End of the run of non-stop characters starting at `j`. */
  function RunEnd(s: string, j: nat): (e: nat)
    requires j <= |s|
    ensures j <= e <= |s|
    ensures forall k :: j <= k < e ==> !IsStop(s[k])
    ensures e < |s| ==> IsStop(s[e])
    decreases |s| - j
  {
    if j < |s| && !IsStop(s[j]) then RunEnd(s, j + 1) else j
  }

  /** Where the `[^...]+` part starts for a match at `i`: after "https://",
      else after "http://". When "https://" is there but no link character
      follows, dropping the optional `s` cannot help, since then `://` would
      have to start at the `s`. */
  function SchemeEnd(text: string, i: nat): (p: Option<nat>)
    ensures p.Some? ==> p.value <= |text|
  {
    if OccursAt(text, i, "https://") then Some(i + 8)
    else if OccursAt(text, i, "http://") then Some(i + 7)
    else None
  }

  /** The link matched at position `i`, if any. */
  function LinkAt(text: string, i: nat): (r: Option<string>)
  {
    match SchemeEnd(text, i)
    case None => None
    case Some(p) =>
      var e := RunEnd(text, p);
      if p < e then Some(text[i..e]) else None
  }

  function LinkFrom(text: string, i: nat): Option<string>
    decreases |text| - i
  {
    if i >= |text| then None
    else match LinkAt(text, i)
      case Some(u) => Some(u)
      case None => LinkFrom(text, i + 1)
  }

  /** `extract_xhs_url_from_share_text(text)`, with `None` for Python's `None`. */
  function ExtractUrl(text: Option<string>): Option<string> {
    match text
    case None => None
    case Some(t) =>
      if t == "" then None
      else match LinkFrom(t, 0)
        case None => None
        case Some(m) => Some(RStripChars(Strip(m), TrailingPunctuation))
    }

  /** What a match looks like: a scheme, at least one link character, no stop
      character anywhere, and it runs up to a stop character or the end. */
  predicate ValidLink(u: string) {
    ((StartsWith(u, "https://") && |u| > 8) || (StartsWith(u, "http://") && |u| > 7))
    && forall k :: 0 <= k < |u| ==> !IsStop(u[k])
  }

  lemma LinkAtShape(text: string, i: nat)
    requires LinkAt(text, i).Some?
    ensures var u := LinkAt(text, i).value;
      ValidLink(u) && i + |u| <= |text| && text[i..i + |u|] == u
      && (i + |u| == |text| || IsStop(text[i + |u|]))
  {
    var p := SchemeEnd(text, i).value;
    var u := LinkAt(text, i).value;
    if OccursAt(text, i, "https://") {
      assert u[..8] == text[i..i + 8];
    } else {
      assert u[..7] == text[i..i + 7];
    }
    forall k | 0 <= k < |u| ensures !IsStop(u[k]) {
      assert u[k] == text[i + k];
      if k >= p - i {
      } else if OccursAt(text, i, "https://") {
        assert u[k] == "https://"[k];
      } else {
        assert u[k] == "http://"[k];
      }
    }
  }

  lemma {:induction false} LinkFromLeftmost(text: string, i: nat)
    ensures LinkFrom(text, i).Some? ==>
      exists k :: i <= k < |text| && LinkAt(text, k) == LinkFrom(text, i)
        && forall j :: i <= j < k ==> LinkAt(text, j).None?
    ensures LinkFrom(text, i).None? ==> forall k :: i <= k ==> LinkAt(text, k).None?
    decreases |text| - i
  {
    if i < |text| {
      LinkFromLeftmost(text, i + 1);
      if LinkAt(text, i).None? && LinkFrom(text, i + 1).Some? {
        var k :| i + 1 <= k < |text| && LinkAt(text, k) == LinkFrom(text, i + 1)
          && forall j :: i + 1 <= j < k ==> LinkAt(text, j).None?;
        assert forall j :: i <= j < k ==> LinkAt(text, j).None?;
      }
    } else {
      forall k | i <= k ensures LinkAt(text, k).None? {
        assert SchemeEnd(text, k).None?;
      }
    }
  }

  /** The final `strip` and `rstrip` never change a match. */
  lemma CleanupIsNoop(u: string)
    requires ValidLink(u)
    ensures Strip(u) == u
    ensures RStripChars(u, TrailingPunctuation) == u
  {
    StripByNoop(u, IsSpace);
    assert u[|u| - 1] !in TrailingPunctuation by {
      assert !IsStop(u[|u| - 1]);
    }
  }

  /** `None` and "" give `None`; otherwise the result is the leftmost match,
      returned as matched; there is none exactly when no position matches. */
  lemma ExtractUrlIsLeftmostLink(text: Option<string>)
    ensures text.None? || text == Some("") ==> ExtractUrl(text).None?
    ensures text.Some? && text.value != "" ==>
      (ExtractUrl(text).None? <==> forall k :: LinkAt(text.value, k).None?)
    ensures ExtractUrl(text).Some? ==>
      var t := text.value;
      var u := ExtractUrl(text).value;
      ValidLink(u) && exists k :: (0 <= k < |t| && LinkAt(t, k) == Some(u)
        && forall j :: 0 <= j < k ==> LinkAt(t, j).None?)
  {
    if text.Some? && text.value != "" {
      var t := text.value;
      LinkFromLeftmost(t, 0);
      if LinkFrom(t, 0).Some? {
        var k :| 0 <= k < |t| && LinkAt(t, k) == LinkFrom(t, 0)
          && forall j :: 0 <= j < k ==> LinkAt(t, j).None?;
        LinkAtShape(t, k);
        CleanupIsNoop(LinkFrom(t, 0).value);
      }
    }
  }

  /** Characters that cannot start a link do not change the search. */
  lemma {:induction false} LinkFromSkip(text: string, i: nat, j: nat)
    requires i <= j <= |text|
    requires forall k :: i <= k < j ==> LinkAt(text, k).None?
    ensures LinkFrom(text, i) == LinkFrom(text, j)
    decreases j - i
  {
    if i < j {
      LinkFromSkip(text, i + 1, j);
    }
  }

  lemma {:induction false} RunEndIs(s: string, j: nat, e: nat)
    requires j <= e <= |s|
    requires forall k :: j <= k < e ==> !IsStop(s[k])
    requires e == |s| || IsStop(s[e])
    ensures RunEnd(s, j) == e
    decreases e - j
  {
    if j < e {
      RunEndIs(s, j + 1, e);
    }
  }

  /** Every link starts with 'h'. */
  lemma LinkStartsWithH(t: string, k: nat)
    requires LinkAt(t, k).Some?
    ensures k < |t| && t[k] == 'h'
  {
    if OccursAt(t, k, "https://") {
      assert t[k..k + 8][0] == 'h';
    } else {
      assert t[k..k + 7][0] == 'h';
    }
  }

  /** A valid link followed by a stop character (or the end) is matched
      where it starts. */
  lemma LinkAtValid(t: string, n: nat, u: string)
    requires ValidLink(u) && n + |u| <= |t| && t[n..n + |u|] == u
    requires n + |u| == |t| || IsStop(t[n + |u|])
    ensures LinkAt(t, n) == Some(u)
  {
    var s := if StartsWith(u, "https://") then 8 else 7;
    if StartsWith(u, "https://") {
      assert u[..8] == "https://";
      assert t[n..n + 8] == "https://";
      assert |u| > 8 by {
        if StartsWith(u, "http://") {
          assert u[..8][4] == 's';
          assert u[..7][4] == ':';
        }
      }
    } else {
      assert u[..7] == "http://";
      assert t[n..n + 7] == "http://";
    }
    assert SchemeEnd(t, n) == Some(n + s);
    forall k | n + s <= k < n + |u| ensures !IsStop(t[k]) {
      assert t[k] == t[n..n + |u|][k - n];
    }
    RunEndIs(t, n + s, n + |u|);
  }

  /** Text without an 'h' holds no link. */
  lemma NoLinkWithoutH(t: string, n: nat)
    requires n <= |t|
    requires forall k :: 0 <= k < n ==> t[k] != 'h'
    ensures forall k :: 0 <= k < n ==> LinkAt(t, k).None?
  {
    forall k | 0 <= k < n ensures LinkAt(t, k).None? {
      if LinkAt(t, k).Some? {
        LinkStartsWithH(t, k);
      }
    }
  }

  /** A link after text without any 'h' and before a stop character (or the
      end) is extracted exactly. */
  lemma LinkInContext(pre: string, u: string, rest: string)
    requires 'h' !in pre
    requires ValidLink(u)
    requires rest == [] || IsStop(rest[0])
    ensures ExtractUrl(Some(pre + u + rest)) == Some(u)
  {
    var t := pre + u + rest;
    var n := |pre|;
    assert forall k :: 0 <= k < n ==> t[k] == pre[k];
    NoLinkWithoutH(t, n);
    LinkFromSkip(t, 0, n);
    assert t[n..n + |u|] == u;
    assert n + |u| == |t| || IsStop(t[n + |u|]) by {
      if rest != [] {
        assert t[n + |u|] == rest[0];
      }
    }
    LinkAtValid(t, n, u);
    assert LinkFrom(t, n) == Some(u);
    CleanupIsNoop(u);
  }

  /** The share text the fetcher builds around a bare note URL. */
  function FakeShareText(url: string): string {
    "笔记链接: " + url + " 复制后打开【小红书】查看笔记！"
  }

  /** Wrapping a link as a share text and extracting it gives the link back. */
  lemma FakeShareTextRoundTrip(url: string)
    requires ValidLink(url)
    ensures ExtractUrl(Some(FakeShareText(url))) == Some(url)
  {
    LinkInContext("笔记链接: ", url, " 复制后打开【小红书】查看笔记！");
  }
}
