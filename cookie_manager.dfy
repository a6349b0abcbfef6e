/** `CookieManager.parse_cookie_string` and `cookie_dict_to_string`. A cookie
    dictionary is a sequence of pairs in insertion order; overwriting a key
    keeps its place, as a Python `dict` does. The manager's file paths only
    serve the file I/O, which is not modelled. */
module CookieManager {
  import opened Strings
  import opened PyJson

  type Jar = seq<(string, string)>

  lemma KeyIndexIs(d: Jar, key: string, i: nat)
    requires i <= |d| && (i < |d| ==> d[i].0 == key)
    requires forall j :: 0 <= j < i ==> d[j].0 != key
    ensures KeyIndex(d, key) == i
  {
  }

  /** `d.get(key)`. */
  function Lookup(d: Jar, key: string): Option<string> {
    var i := KeyIndex(d, key);
    if i < |d| then Some(d[i].1) else None
  }

  predicate UniqueKeys(d: Jar) {
    forall i, j :: 0 <= i < j < |d| ==> d[i].0 != d[j].0
  }

  /** `d[key] = value`: a new key goes last, an existing one keeps its place. */
  function Insert(d: Jar, key: string, value: string): Jar {
    var i := KeyIndex(d, key);
    if i < |d| then d[i := (key, value)] else d + [(key, value)]
  }

  /** After `d[key] = value` the key holds `value`, every other key keeps its
      value, keys stay unique, a new key goes last and an existing key keeps
      its place. */
  lemma InsertMeans(d: Jar, key: string, value: string)
    ensures var r := Insert(d, key, value);
      && Lookup(r, key) == Some(value)
      && (forall k :: k != key ==> Lookup(r, k) == Lookup(d, k))
      && (UniqueKeys(d) ==> UniqueKeys(r))
      && (Lookup(d, key).None? ==> r == d + [(key, value)])
      && (Lookup(d, key).Some? ==> |r| == |d| && forall i :: 0 <= i < |d| ==> r[i].0 == d[i].0)
  {
    var i := KeyIndex(d, key);
    var r := Insert(d, key, value);
    KeyIndexIs(r, key, i);
    forall k | k != key ensures Lookup(r, k) == Lookup(d, k) {
      var j := KeyIndex(d, k);
      if j < |d| {
        assert r[j] == d[j];
        KeyIndexIs(r, k, j);
      } else {
        KeyIndexIs(r, k, |r|);
      }
    }
  }

  lemma InsertNew(d: Jar, key: string, value: string)
    requires Lookup(d, key).None?
    ensures Insert(d, key, value) == d + [(key, value)]
  {
  }

  /** One `;`-separated item: stripped, then split. */
  function ItemPair(item: string): Option<(string, string)> {
    SplitPair(Strip(item))
  }

  /** A stripped item split at its first '=', both halves stripped; an item
      without '=' is ignored. */
  function SplitPair(t: string): Option<(string, string)> {
    if '=' in t then
      var i := IndexOf(t, '=');
      Some((Strip(t[..i]), Strip(t[i + 1..])))
    else None
  }

  /** The stripped input with a leading "cookie:" (in any case) removed. */
  function Body(s: string): string {
    var t := Strip(s);
    if StartsWith(Lower(t), "cookie:") then Strip(t[7..]) else t
  }

  /** What each item parses to, in order. */
  function ItemPairs(items: seq<string>): (ps: seq<Option<(string, string)>>)
    ensures |ps| == |items|
  {
    seq(|items|, i requires 0 <= i < |items| => ItemPair(items[i]))
  }

  /** The dictionary after inserting every parsed pair in order; items without
      '=' (`None`) are skipped. */
  function AddPairs(ps: seq<Option<(string, string)>>): Jar
    decreases |ps|
  {
    if ps == [] then []
    else
      var rest := AddPairs(ps[..|ps| - 1]);
      match ps[|ps| - 1]
      case None => rest
      case Some(p) => Insert(rest, p.0, p.1)
  }

  /** `parse_cookie_string(cookie_str)`, with `None` for Python's `None`. */
  function ParseCookieSpec(cookieStr: Option<string>): Jar {
    if cookieStr.None? || cookieStr.value == "" then []
    else AddPairs(ItemPairs(Split(Body(cookieStr.value), ';')))
  }

  /** Every key and every value of the dictionary is stripped. */
  predicate AllTrimmed(d: Jar) {
    forall i :: 0 <= i < |d| ==> Trimmed(d[i].0) && Trimmed(d[i].1)
  }

  /** An item's key and value are both stripped. */
  lemma ItemPairTrimmed(item: string)
    ensures ItemPair(item).Some? ==> Trimmed(ItemPair(item).value.0) && Trimmed(ItemPair(item).value.1)
  {
    var t := Strip(item);
    if '=' in t {
      var i := IndexOf(t, '=');
      StripTrimmed(t[..i]);
      StripTrimmed(t[i + 1..]);
    }
  }

  /** `d[key] = value` with a stripped key and value keeps every entry stripped. */
  lemma InsertKeepsTrimmed(d: Jar, key: string, value: string)
    requires AllTrimmed(d) && Trimmed(key) && Trimmed(value)
    ensures AllTrimmed(Insert(d, key, value))
  {
  }

  /** Inserting the parsed items in order gives a dictionary of stripped keys and values. */
  lemma {:induction false} AddPairsTrimmed(items: seq<string>)
    ensures AllTrimmed(AddPairs(ItemPairs(items)))
    decreases |items|
  {
    if items != [] {
      var n := |items| - 1;
      assert ItemPairs(items)[..n] == ItemPairs(items[..n]);
      AddPairsTrimmed(items[..n]);
      ItemPairTrimmed(items[n]);
      match ItemPair(items[n]) {
        case None =>
        case Some(p) => InsertKeepsTrimmed(AddPairs(ItemPairs(items[..n])), p.0, p.1);
      }
    }
  }

  /** Whatever the input, every parsed key and value comes out stripped. */
  lemma ParsedCookiesTrimmed(cookieStr: Option<string>)
    ensures forall p | p in ParseCookieSpec(cookieStr) :: Trimmed(p.0) && Trimmed(p.1)
  {
    if cookieStr.Some? && cookieStr.value != "" {
      AddPairsTrimmed(Split(Body(cookieStr.value), ';'));
    }
  }

  /** `parse_cookie_string`: `None` and "" give the empty dictionary;
      otherwise the items of the body are inserted in order. */
  method ParseCookieString(cookieStr: Option<string>) returns (cookies: Jar)
    ensures cookies == ParseCookieSpec(cookieStr)
  {
    cookies := [];
    if cookieStr.None? || cookieStr.value == "" {
      return;
    }
    var s := StripCookiePrefix(cookieStr.value);
    cookies := InsertItems(Split(s, ';'));
  }

  /** The loop over the `;`-separated items, inserting the key and value of
      every item that holds '='. */
  method InsertItems(items: seq<string>) returns (cookies: Jar)
    ensures cookies == AddPairs(ItemPairs(items))
  {
    cookies := [];
    ghost var ps := ItemPairs(items);
    for i := 0 to |items|
      invariant cookies == AddPairs(ps[..i])
    {
      match ItemPair(items[i]) {
        case Some(p) =>
          AddPairsSome(ps, i, p.0, p.1);
          cookies := Insert(cookies, p.0, p.1);
        case None =>
          AddPairsNone(ps, i);
      }
    }
    assert ps[..|items|] == ps;
  }

  /** The input stripped, then a leading "cookie:" in any case dropped and
      the rest stripped again. */
  method StripCookiePrefix(cookieStr: string) returns (s: string)
    ensures s == Body(cookieStr)
  {
    s := Strip(cookieStr);
    if StartsWith(Lower(s), "cookie:") {
      s := Strip(s[7..]);
    }
  }

  lemma AddPairsSome(ps: seq<Option<(string, string)>>, i: nat, key: string, value: string)
    requires i < |ps| && ps[i] == Some((key, value))
    ensures AddPairs(ps[..i + 1]) == Insert(AddPairs(ps[..i]), key, value)
  {
    AddPairsNext(ps, i);
  }

  lemma AddPairsNone(ps: seq<Option<(string, string)>>, i: nat)
    requires i < |ps| && ps[i] == None
    ensures AddPairs(ps[..i + 1]) == AddPairs(ps[..i])
  {
    AddPairsNext(ps, i);
  }

  lemma AddPairsNext(ps: seq<Option<(string, string)>>, i: nat)
    requires i < |ps|
    ensures AddPairs(ps[..i + 1]) ==
      match ps[i]
      case None => AddPairs(ps[..i])
      case Some(p) => Insert(AddPairs(ps[..i]), p.0, p.1)
  {
    assert ps[..i + 1][..i] == ps[..i];
    assert ps[..i + 1][i] == ps[i];
  }

  /** The value the last pair naming `key` gives it. */
  function LastValue(ps: seq<Option<(string, string)>>, key: string): Option<string>
    decreases |ps|
  {
    if ps == [] then None
    else
      var p := ps[|ps| - 1];
      if p.Some? && p.value.0 == key then Some(p.value.1)
      else LastValue(ps[..|ps| - 1], key)
  }

  /** Each key appears once, holding the value of its last item. */
  lemma {:induction false} AddPairsLookup(ps: seq<Option<(string, string)>>, key: string)
    ensures UniqueKeys(AddPairs(ps))
    ensures Lookup(AddPairs(ps), key) == LastValue(ps, key)
    decreases |ps|
  {
    if ps != [] {
      AddPairsLookup(ps[..|ps| - 1], key);
      match ps[|ps| - 1] {
        case None =>
        case Some(p) => InsertMeans(AddPairs(ps[..|ps| - 1]), p.0, p.1);
      }
    }
  }

  /** `None`, "" and blank input give the empty dictionary. */
  lemma ParseBlank(cookieStr: Option<string>)
    requires cookieStr.None? || Strip(cookieStr.value) == ""
    ensures ParseCookieSpec(cookieStr) == []
  {
    if cookieStr.Some? && cookieStr.value != "" {
      assert Body(cookieStr.value) == "";
      assert Split("", ';') == [""];
      assert ItemPairs([""]) == [None];
      assert ItemPairs([""])[..0] == [];
    }
  }

  /** An item is split at its first '=' only, so the value keeps any later
      '='; a trimmed key and value come back as they were. */
  lemma ItemSplitsAtFirstEquals(key: string, value: string)
    requires '=' !in key && Trimmed(key) && Trimmed(value)
    ensures ItemPair(key + "=" + value) == Some((key, value))
  {
    assert Strip(key + "=" + value) == key + "=" + value by {
      PairTextTrimmed(key, value);
    }
    assert Strip(key) == key by {
      StripByNoop(key, IsSpace);
    }
    assert Strip(value) == value by {
      StripByNoop(value, IsSpace);
    }
    ItemPairOfPieces(key, value);
  }

  lemma PairTextTrimmed(key: string, value: string)
    requires Trimmed(key) && Trimmed(value)
    ensures Strip(key + "=" + value) == key + "=" + value
  {
    var item := key + "=" + value;
    if key != "" {
      assert item[0] == key[0];
    }
    if value != "" {
      assert item[|item| - 1] == value[|value| - 1];
    }
    StripByNoop(item, IsSpace);
  }

  lemma ItemPairOfPieces(key: string, value: string)
    requires '=' !in key
    requires Strip(key) == key && Strip(value) == value && Strip(key + "=" + value) == key + "=" + value
    ensures ItemPair(key + "=" + value) == Some((key, value))
  {
    var item := key + "=" + value;
    var i := |key|;
    assert IndexOf(item, '=') == i by {
      forall k | 0 <= k < i ensures item[k] != '=' {
        assert item[k] == key[k];
      }
      assert item[i] == '=';
    }
    assert item[..i] == key;
    assert item[i + 1..] == value;
  }

  /** An item only matters through its stripped text. */
  lemma ItemPairSameStrip(a: string, b: string)
    requires Strip(a) == Strip(b)
    ensures ItemPair(a) == ItemPair(b)
  {
  }

  /** Dropping leading spaces does not change `strip()`. */
  lemma {:induction false} StripLeftSpaces(s: string, a: nat)
    requires a <= |s|
    requires forall k :: 0 <= k < a ==> IsSpace(s[k])
    ensures Strip(s[a..]) == Strip(s)
    decreases a
  {
    if a > 0 {
      assert s[1..][a - 1..] == s[a..];
      StripLeftSpaces(s[1..], a - 1);
      assert LStripBy(s, IsSpace) == LStripBy(s[1..], IsSpace);
    }
  }

  /** `f"{key}={value}"`. */
  function PairText(p: (string, string)): string {
    p.0 + "=" + p.1
  }

  function PairTexts(d: Jar): (r: seq<string>)
    ensures |r| == |d| && forall i :: 0 <= i < |d| ==> r[i] == PairText(d[i])
  {
    seq(|d|, i requires 0 <= i < |d| => PairText(d[i]))
  }

  /** `cookie_dict_to_string(d)`. */
  function CookieString(d: Jar): string {
    Join("; ", PairTexts(d))
  }

  /** The conditions under which a dictionary survives a round trip: unique
      keys without '=' or ';', values without ';', no surrounding whitespace,
      and no "cookie:" at the start of the first key. */
  predicate RoundTrips(d: Jar) {
    UniqueKeys(d)
    && (forall i :: 0 <= i < |d| ==>
          '=' !in d[i].0 && ';' !in d[i].0 && ';' !in d[i].1 && Trimmed(d[i].0) && Trimmed(d[i].1))
    && (|d| > 0 ==> !StartsWith(Lower(d[0].0), "cookie:"))
  }

  function Spaced(xs: seq<string>): (r: seq<string>)
    ensures |r| == |xs| && forall i :: 0 <= i < |xs| ==> r[i] == " " + xs[i]
  {
    seq(|xs|, i requires 0 <= i < |xs| => " " + xs[i])
  }

  lemma JoinHead(sep: string, x: string, a: string, rest: seq<string>)
    ensures Join(sep, [x + a] + rest) == x + Join(sep, [a] + rest)
  {
    if rest != [] {
      assert ([x + a] + rest)[1..] == rest;
      assert ([a] + rest)[1..] == rest;
    }
  }

  /** Joining with "; " is joining with ";" after a space before each later part. */
  lemma {:induction false} JoinSpaced(ps: seq<string>)
    requires |ps| >= 1
    ensures Join("; ", ps) == Join(";", [ps[0]] + Spaced(ps[1..]))
    decreases |ps|
  {
    if |ps| > 1 {
      JoinSpaced(ps[1..]);
      assert ps[1..][1..] == ps[2..];
      assert Spaced(ps[1..]) == [" " + ps[1]] + Spaced(ps[2..]);
      JoinHead(";", " ", ps[1], Spaced(ps[2..]));
      assert ([ps[0]] + Spaced(ps[1..]))[1..] == Spaced(ps[1..]);
    }
  }

  lemma {:induction false} JoinEnds(sep: string, ps: seq<string>)
    requires |ps| >= 1
    ensures |Join(sep, ps)| >= |ps[0]| && Join(sep, ps)[..|ps[0]|] == ps[0]
    ensures |Join(sep, ps)| >= |ps[|ps| - 1]| && Join(sep, ps)[|Join(sep, ps)| - |ps[|ps| - 1]|..] == ps[|ps| - 1]
    decreases |ps|
  {
    if |ps| > 1 {
      JoinEnds(sep, ps[1..]);
      var j := Join(sep, ps);
      assert j == ps[0] + sep + Join(sep, ps[1..]);
    }
  }

  /** The first and last characters of a serialised dictionary are not
      whitespace, so the initial `strip()` keeps it, and it does not start
      with "cookie:". */
  lemma BodyOfCookieString(d: Jar)
    requires RoundTrips(d) && |d| > 0
    ensures Strip(CookieString(d)) == CookieString(d)
    ensures Body(CookieString(d)) == CookieString(d)
  {
    var s := CookieString(d);
    var ps := PairTexts(d);
    var k := d[0].0;
    PairTextEnds(d[0]);
    PairTextEnds(d[|d| - 1]);
    JoinTrimmed("; ", ps);
    StripByNoop(s, IsSpace);
    assert s[..|k| + 1] == k + "=" by {
      assert s[..|ps[0]|][..|k| + 1] == ps[0][..|k| + 1];
    }
    NoCookiePrefix(k, d[0].1, s);
  }

  /** `key=value` with trimmed halves is trimmed and starts with `key=`. */
  lemma PairTextEnds(p: (string, string))
    requires Trimmed(p.0) && Trimmed(p.1)
    ensures var t := PairText(p);
      !IsSpace(t[0]) && !IsSpace(t[|t| - 1]) && t[..|p.0| + 1] == p.0 + "="
  {
    var t := PairText(p);
    if p.0 != "" {
      assert t[0] == p.0[0];
    }
    if p.1 != "" {
      assert t[|t| - 1] == p.1[|p.1| - 1];
    }
  }

  /** Parts whose first part starts, and whose last part ends, with a
      non-space join into a trimmed text that starts with the first part. */
  lemma JoinTrimmed(sep: string, ps: seq<string>)
    requires |ps| >= 1 && ps[0] != "" && ps[|ps| - 1] != ""
    requires !IsSpace(ps[0][0]) && !IsSpace(ps[|ps| - 1][|ps[|ps| - 1]| - 1])
    ensures var s := Join(sep, ps);
      s != "" && !IsSpace(s[0]) && !IsSpace(s[|s| - 1]) && |s| >= |ps[0]| && s[..|ps[0]|] == ps[0]
  {
    var s := Join(sep, ps);
    var first := ps[0];
    var last := ps[|ps| - 1];
    JoinEnds(sep, ps);
    assert s[0] == s[..|first|][0];
    assert s[|s| - 1] == s[|s| - |last|..][|last| - 1];
  }

  lemma NoCookiePrefix(k: string, v: string, s: string)
    requires '=' !in k && !StartsWith(Lower(k), "cookie:")
    requires |s| >= |k| + 1 && s[..|k| + 1] == k + "="
    ensures !StartsWith(Lower(s), "cookie:")
  {
    if |k| >= 7 {
      assert Lower(k)[..7] == Lower(s)[..7] by {
        forall i | 0 <= i < 7 ensures Lower(k)[i] == Lower(s)[i] {
          assert s[..|k| + 1][i] == k[i];
        }
      }
    } else {
      assert s[..|k| + 1][|k|] == '=';
      assert Lower(s)[|k|] == '=';
    }
  }

  /** A spaced item strips back to `key=value`. */
  lemma SpacedItemPair(p: (string, string))
    requires '=' !in p.0 && Trimmed(p.0) && Trimmed(p.1)
    ensures ItemPair(" " + PairText(p)) == Some(p)
    ensures ItemPair(PairText(p)) == Some(p)
  {
    var t := PairText(p);
    StripLeftSpaces(" " + t, 1);
    assert (" " + t)[1..] == t;
    ItemPairSameStrip(" " + t, t);
    ItemSplitsAtFirstEquals(p.0, p.1);
  }

  /** Inserting pairs with fresh keys one by one rebuilds the dictionary. */
  lemma {:induction false} AddPairsRebuilds(d: Jar, ps: seq<Option<(string, string)>>, n: nat)
    requires UniqueKeys(d) && |ps| == |d| && n <= |d|
    requires forall i :: 0 <= i < |d| ==> ps[i] == Some(d[i])
    ensures AddPairs(ps[..n]) == d[..n]
    decreases n
  {
    if n > 0 {
      AddPairsRebuilds(d, ps, n - 1);
      var prev := d[..n - 1];
      var p := d[n - 1];
      assert Lookup(prev, p.0).None? by {
        KeyIndexIs(prev, p.0, n - 1);
      }
      InsertNew(prev, p.0, p.1);
      AddPairsNext(ps, n - 1);
      SnocPrefix(d, n);
    }
  }

  lemma AddPairsRebuildAll(d: Jar, ps: seq<Option<(string, string)>>)
    requires UniqueKeys(d) && |ps| == |d|
    requires forall i :: 0 <= i < |d| ==> ps[i] == Some(d[i])
    ensures AddPairs(ps) == d
  {
    AddPairsRebuilds(d, ps, |d|);
    assert ps[..|d|] == ps;
    assert d[..|d|] == d;
  }

  lemma SnocPrefix<T>(xs: seq<T>, n: nat)
    requires 0 < n <= |xs|
    ensures xs[..n] == xs[..n - 1] + [xs[n - 1]]
  {
  }

  /** The items `split(';')` sees in a serialised dictionary: every pair
      but the first keeps the space of the "; " separator. */
  function CookieItems(d: Jar): (items: seq<string>)
    requires |d| > 0
    ensures |items| == |d|
    ensures items[0] == PairText(d[0])
    ensures forall i :: 1 <= i < |d| ==> items[i] == " " + PairText(d[i])
  {
    var ps := PairTexts(d);
    [ps[0]] + Spaced(ps[1..])
  }

  lemma CookieSplit(d: Jar)
    requires RoundTrips(d) && |d| > 0
    ensures Split(CookieString(d), ';') == CookieItems(d)
  {
    var ps := PairTexts(d);
    var items := CookieItems(d);
    JoinSpaced(ps);
    forall i | 0 <= i < |items| ensures ';' !in items[i] {
      var k := d[i].0;
      var v := d[i].1;
      assert ';' !in PairText(d[i]) by {
        assert PairText(d[i]) == k + "=" + v;
      }
    }
    SplitJoin(items, ';');
  }

  lemma CookieItemsRebuild(d: Jar)
    requires RoundTrips(d) && |d| > 0
    ensures AddPairs(ItemPairs(CookieItems(d))) == d
  {
    var ps := ItemPairs(CookieItems(d));
    forall i | 0 <= i < |d| ensures ps[i] == Some(d[i]) {
      CookieItemPair(d, i);
    }
    AddPairsRebuildAll(d, ps);
  }

  lemma CookieItemPair(d: Jar, i: nat)
    requires RoundTrips(d) && i < |d|
    ensures ItemPair(CookieItems(d)[i]) == Some(d[i])
  {
    assert '=' !in d[i].0 && Trimmed(d[i].0) && Trimmed(d[i].1);
    SpacedItemPair(d[i]);
  }

  /** `parse_cookie_string(cookie_dict_to_string(d)) == d` under the
      conditions above. */
  lemma CookieRoundTrip(d: Jar)
    requires RoundTrips(d)
    ensures ParseCookieSpec(Some(CookieString(d))) == d
  {
    if |d| == 0 {
      assert CookieString(d) == "";
    } else {
      var s := CookieString(d);
      assert s != "" by {
        JoinEnds("; ", PairTexts(d));
      }
      BodyOfCookieString(d);
      CookieSplit(d);
      ParseOfBody(s, CookieItems(d));
      CookieItemsRebuild(d);
    }
  }

  lemma ParseOfBody(s: string, items: seq<string>)
    requires s != "" && Body(s) == s && Split(s, ';') == items
    ensures ParseCookieSpec(Some(s)) == AddPairs(ItemPairs(items))
  {
  }

  /** A "Cookie: " header prefix, as copied from a browser, is dropped. */
  lemma CookieHeaderPrefixDropped(d: Jar)
    requires RoundTrips(d) && |d| > 0
    ensures ParseCookieSpec(Some("Cookie: " + CookieString(d))) == d
  {
    var s := CookieString(d);
    assert s != "" by {
      JoinEnds("; ", PairTexts(d));
    }
    BodyOfCookieString(d);
    HeaderBody(s);
    SameBody("Cookie: " + s, s);
    CookieRoundTrip(d);
  }

  lemma SameBody(a: string, b: string)
    requires a != "" && b != "" && Body(a) == Body(b)
    ensures ParseCookieSpec(Some(a)) == ParseCookieSpec(Some(b))
  {
  }

  /** Behind a "Cookie: " prefix, a stripped text is the body. */
  lemma HeaderBody(s: string)
    requires s != "" && Strip(s) == s
    ensures Body("Cookie: " + s) == s
  {
    var h := "Cookie: " + s;
    assert Strip(h) == h by {
      assert h[0] == 'C';
      assert h[|h| - 1] == s[|s| - 1];
      StrippedIsTrimmed(s);
      StripByNoop(h, IsSpace);
    }
    HeaderPrefix(s);
    assert Strip(" " + s) == s by {
      StripLeftSpaces(" " + s, 1);
      assert (" " + s)[1..] == s;
    }
  }

  lemma HeaderPrefix(x: string)
    ensures StartsWith(Lower("Cookie: " + x), "cookie:")
    ensures ("Cookie: " + x)[7..] == " " + x
  {
    var h := "Cookie: " + x;
    forall i | 0 <= i < 7 ensures Lower(h)[i] == "cookie:"[i] {
      assert h[i] == "Cookie: "[i];
    }
    assert Lower(h)[..7] == "cookie:";
  }

  /** An empty dictionary serialises to "". */
  lemma CookieStringEmpty()
    ensures CookieString([]) == ""
  {
  }
}
