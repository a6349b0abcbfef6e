/** Python string primitives the extractor relies on, written out over `seq<char>`:
    `str.strip`/`lstrip`/`rstrip`, `str.split` on one character, `str.join`,
    `str.startswith`, the substring test `in`, and ASCII `str.lower`. */
module Strings {

  /** Python's `str.isspace` set, which is also what `\s` matches in a `str` regex. */
  predicate IsSpace(c: char) {
    ('\t' <= c <= '\r') || ('\U{1C}' <= c <= ' ') || c == '\U{85}' || c == '\U{A0}'
    || c == '\U{1680}' || ('\U{2000}' <= c <= '\U{200A}') || c == '\U{2028}'
    || c == '\U{2029}' || c == '\U{202F}' || c == '\U{205F}' || c == '\U{3000}'
  }

  predicate StartsWith(s: string, prefix: string) {
    |prefix| <= |s| && s[..|prefix|] == prefix
  }

  /** `p` occurs in `s` at position `i`. */
  predicate OccursAt(s: string, i: int, p: string) {
    0 <= i && i + |p| <= |s| && s[i..i + |p|] == p
  }

  /** Python's `p in s` for strings, as a search from position `i`. */
  predicate ContainsFrom(s: string, p: string, i: nat)
    decreases |s| - i
  {
    i + |p| <= |s| && (OccursAt(s, i, p) || ContainsFrom(s, p, i + 1))
  }

  predicate Contains(s: string, p: string) {
    ContainsFrom(s, p, 0)
  }

  lemma {:induction false} ContainsFromMeans(s: string, p: string, i: nat)
    ensures ContainsFrom(s, p, i) <==> exists k :: i <= k && OccursAt(s, k, p)
    decreases |s| - i
  {
    if i + |p| <= |s| {
      ContainsFromMeans(s, p, i + 1);
      if !OccursAt(s, i, p) {
        forall k | i <= k && OccursAt(s, k, p) ensures i + 1 <= k { }
      }
    } else {
      forall k | i <= k ensures !OccursAt(s, k, p) { }
    }
  }

  /** `p in s` holds exactly when `p` occurs at some position of `s`. */
  lemma ContainsMeans(s: string, p: string)
    ensures Contains(s, p) <==> exists k :: OccursAt(s, k, p)
  {
    ContainsFromMeans(s, p, 0);
  }

  function LowerChar(c: char): char {
    if 'A' <= c <= 'Z' then (c as int + 32) as char else c
  }

  /** `str.lower()` on the ASCII letters; every other character is kept. */
  function Lower(s: string): (r: string)
    ensures |r| == |s|
    ensures forall i :: 0 <= i < |s| ==> r[i] == LowerChar(s[i])
  {
    seq(|s|, i requires 0 <= i < |s| => LowerChar(s[i]))
  }

  /** `lstrip` with a character class. */
  function LStripBy(s: string, drop: char -> bool): (r: string)
    ensures |r| <= |s| && r == s[|s| - |r|..]
    ensures r != [] ==> !drop(r[0])
    ensures forall i :: 0 <= i < |s| - |r| ==> drop(s[i])
    decreases |s|
  {
    if |s| > 0 && drop(s[0]) then LStripBy(s[1..], drop) else s
  }

  /** `rstrip` with a character class. */
  function RStripBy(s: string, drop: char -> bool): (r: string)
    ensures |r| <= |s| && r == s[..|r|]
    ensures r != [] ==> !drop(r[|r| - 1])
    ensures forall i :: |r| <= i < |s| ==> drop(s[i])
    decreases |s|
  {
    if |s| > 0 && drop(s[|s| - 1]) then RStripBy(s[..|s| - 1], drop) else s
  }

  function StripBy(s: string, drop: char -> bool): string {
    RStripBy(LStripBy(s, drop), drop)
  }

  /** `str.strip()`: whitespace removed from both ends. */
  function Strip(s: string): string {
    StripBy(s, IsSpace)
  }

  /** `str.strip(chars)`. */
  function StripChars(s: string, chars: set<char>): string {
    StripBy(s, c => c in chars)
  }

  /** `str.rstrip(chars)`. */
  function RStripChars(s: string, chars: set<char>): string {
    RStripBy(s, c => c in chars)
  }

  lemma StripByNoop(s: string, drop: char -> bool)
    requires s == [] || (!drop(s[0]) && !drop(s[|s| - 1]))
    ensures StripBy(s, drop) == s
  {
  }

  /** A string with no whitespace at either end is its own `strip()`. */
  predicate Trimmed(s: string) {
    s == [] || (!IsSpace(s[0]) && !IsSpace(s[|s| - 1]))
  }

  lemma StrippedIsTrimmed(s: string)
    requires Strip(s) == s
    ensures Trimmed(s)
  {
    assert LStripBy(s, IsSpace) != [] ==> !IsSpace(LStripBy(s, IsSpace)[0]);
  }

  /** `strip()` leaves no whitespace at either end. */
  lemma StripTrimmed(s: string)
    ensures Trimmed(Strip(s))
  {
    var l := LStripBy(s, IsSpace);
    var r := RStripBy(l, IsSpace);
    if r != [] {
      assert r[0] == l[0];
    }
  }

  /** `s[:n]`. */
  function Take(s: string, n: nat): (r: string)
    ensures |r| == (if |s| <= n then |s| else n) && r == s[..|r|]
  {
    if |s| <= n then s else s[..n]
  }

  /** Index of the first `c` in `s`, or `|s|`. */
  function IndexOf(s: string, c: char): (i: nat)
    ensures i <= |s|
    ensures i < |s| ==> s[i] == c
    ensures forall k :: 0 <= k < i ==> s[k] != c
    decreases |s|
  {
    if |s| == 0 then 0 else if s[0] == c then 0 else 1 + IndexOf(s[1..], c)
  }

  /** `s.split(c)` with a one-character separator. */
  function Split(s: string, c: char): (r: seq<string>)
    ensures |r| >= 1
    decreases |s|
  {
    var i := IndexOf(s, c);
    if i == |s| then [s] else [s[..i]] + Split(s[i + 1..], c)
  }

  lemma SplitNoSep(a: string, c: char)
    requires c !in a
    ensures Split(a, c) == [a]
  {
  }

  lemma SplitCons(a: string, c: char, b: string)
    requires c !in a
    ensures Split(a + [c] + b, c) == [a] + Split(b, c)
  {
    var s := a + [c] + b;
    assert s[|a|] == c;
    assert IndexOf(s, c) == |a|;
    assert s[..|a|] == a && s[|a| + 1..] == b;
  }

  /** `sep.join(parts)`. */
  function Join(sep: string, parts: seq<string>): string
    decreases |parts|
  {
    if |parts| == 0 then "" else if |parts| == 1 then parts[0] else parts[0] + sep + Join(sep, parts[1..])
  }

  /** Splitting a one-character join recovers the parts when no part holds the separator. */
  lemma {:induction false} SplitJoin(parts: seq<string>, c: char)
    requires |parts| >= 1
    requires forall i :: 0 <= i < |parts| ==> c !in parts[i]
    ensures Split(Join([c], parts), c) == parts
    decreases |parts|
  {
    if |parts| == 1 {
      SplitNoSep(parts[0], c);
    } else {
      SplitJoin(parts[1..], c);
      SplitCons(parts[0], c, Join([c], parts[1..]));
      assert parts == [parts[0]] + parts[1..];
    }
  }

  /** Number of occurrences of `c` in `s`. */
  function Count(s: string, c: char): nat
    decreases |s|
  {
    if |s| == 0 then 0 else (if s[0] == c then 1 else 0) + Count(s[1..], c)
  }

  lemma {:induction false} CountAppend(a: string, b: string, c: char)
    ensures Count(a + b, c) == Count(a, c) + Count(b, c)
    decreases |a|
  {
    if |a| == 0 {
      assert a + b == b;
    } else {
      CountAppend(a[1..], b, c);
      assert (a + b)[1..] == a[1..] + b;
    }
  }

  lemma {:induction false} CountAbsent(s: string, c: char)
    requires c !in s
    ensures Count(s, c) == 0
    decreases |s|
  {
    if |s| > 0 {
      CountAbsent(s[1..], c);
    }
  }

  /** A one-character join of k separator-free parts holds exactly k-1 separators. */
  lemma {:induction false} JoinCount(parts: seq<string>, c: char)
    requires |parts| >= 1
    requires forall i :: 0 <= i < |parts| ==> c !in parts[i]
    ensures Count(Join([c], parts), c) == |parts| - 1
    decreases |parts|
  {
    if |parts| == 1 {
      CountAbsent(parts[0], c);
    } else {
      JoinCount(parts[1..], c);
      CountAbsent(parts[0], c);
      CountAppend(parts[0] + [c], Join([c], parts[1..]), c);
      CountAppend(parts[0], [c], c);
      assert Count([c], c) == 1;
    }
  }

  function DigitChar(d: nat): char
    requires d < 10
  {
    ('0' as int + d) as char
  }

  /** Decimal rendering of a natural number, as `str(n)`. */
  function NatToString(n: nat): (r: string)
    ensures |r| >= 1
    ensures forall i :: 0 <= i < |r| ==> '0' <= r[i] <= '9'
    decreases n
  {
    if n < 10 then [DigitChar(n)] else NatToString(n / 10) + [DigitChar(n % 10)]
  }

  /** Decimal rendering of an integer, as Python's `str(n)`. */
  function IntToString(n: int): (r: string)
    ensures |r| >= 1
  {
    if n < 0 then "-" + NatToString(-n) else NatToString(n)
  }

  /** Python's `f"{n:03d}"` for a natural number: zero-padded to width 3. */
  function Pad3(n: nat): (r: string)
    ensures |r| >= 3
    ensures forall i :: 0 <= i < |r| ==> '0' <= r[i] <= '9'
  {
    var d := NatToString(n);
    if |d| >= 3 then d else seq(3 - |d|, _ => '0') + d
  }
}
