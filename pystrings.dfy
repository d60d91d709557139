/** The few methods of Python's `str` that the agent applies to text:
    `strip`, `rstrip`, `lower`, `capitalize` and `join`. */
module PyStrings {

  /** Characters for which Python's `str.isspace()` holds; `str.strip()`
      without an argument removes exactly these. */
  predicate IsSpace(c: char) {
    c == ' ' || ('\t' <= c <= '\r') || ('\U{1c}' <= c <= '\U{1f}')
    || c == '\U{85}' || c == '\U{a0}' || c == '\U{1680}'
    || ('\U{2000}' <= c <= '\U{200a}') || c == '\U{2028}' || c == '\U{2029}'
    || c == '\U{202f}' || c == '\U{205f}' || c == '\U{3000}'
  }

  predicate IsUpper(c: char) { 'A' <= c <= 'Z' }

  predicate IsLower(c: char) { 'a' <= c <= 'z' }

  function LowerChar(c: char): (r: char)
    ensures !IsUpper(r)
    ensures IsUpper(c) ==> IsLower(r)
    ensures !IsUpper(c) ==> r == c
  {
    if IsUpper(c) then (c as int + 32) as char else c
  }

  function UpperChar(c: char): (r: char)
    ensures !IsLower(r)
    ensures IsLower(c) ==> IsUpper(r)
    ensures !IsLower(c) ==> r == c
  {
    if IsLower(c) then (c as int - 32) as char else c
  }

  /** `s.lstrip(chars)`: drops the longest prefix of characters satisfying `drop`. */
  function LStrip(s: string, drop: char -> bool): (r: string)
    ensures |r| <= |s| && r == s[|s| - |r|..]
    ensures r != [] ==> !drop(r[0])
    ensures forall i :: 0 <= i < |s| - |r| ==> drop(s[i])
    decreases |s|
  {
    if s != [] && drop(s[0]) then LStrip(s[1..], drop) else s
  }

  /** `s.rstrip(chars)`: drops the longest suffix of characters satisfying `drop`. */
  function RStrip(s: string, drop: char -> bool): (r: string)
    ensures |r| <= |s| && r == s[..|r|]
    ensures r != [] ==> !drop(r[|r| - 1])
    ensures forall i :: |r| <= i < |s| ==> drop(s[i])
    decreases |s|
  {
    if s != [] && drop(s[|s| - 1]) then RStrip(s[..|s| - 1], drop) else s
  }

  /** `s.strip(chars)`: both ends. */
  function Strip(s: string, drop: char -> bool): (r: string)
    ensures |r| <= |s|
    ensures r != [] ==> !drop(r[0]) && !drop(r[|r| - 1])
  {
    RStrip(LStrip(s, drop), drop)
  }

  /** `s.strip()` with no argument. */
  function Trim(s: string): (r: string)
    ensures r != [] ==> !IsSpace(r[0]) && !IsSpace(r[|r| - 1])
  {
    Strip(s, IsSpace)
  }

  /** `r` is a slice of `s` (a prefix of `s[lo..]` for some `lo`), and every
      character of `s` outside that slice satisfies `drop`. */
  predicate StrippedFrom(s: string, r: string, drop: char -> bool)
  {
    exists lo :: 0 <= lo <= |s| && r <= s[lo..]
      && (forall i :: 0 <= i < lo ==> drop(s[i]))
      && (forall i :: lo + |r| <= i < |s| ==> drop(s[i]))
  }

  /** Strip keeps a middle slice of `s` and removes characters satisfying
      `drop`, and only those, from its two ends. */
  lemma StripRemovesOnlyDropped(s: string, drop: char -> bool)
    ensures StrippedFrom(s, Strip(s, drop), drop)
  {
    var l := LStrip(s, drop);
    var lo := |s| - |l|;
    var r := RStrip(l, drop);
    assert l == s[lo..];
    assert r == l[..|r|];
    forall i | lo + |r| <= i < |s| ensures drop(s[i]) {
      assert s[i] == l[i - lo] && drop(l[i - lo]);
    }
    assert Strip(s, drop) == r <= s[lo..];
  }

  /** A stripped slice splits its string into the removed prefix, the slice
      and the removed suffix. */
  lemma StrippedSplit(s: string, r: string, drop: char -> bool) returns (a: string, b: string)
    requires StrippedFrom(s, r, drop)
    ensures s == a + r + b
    ensures forall i :: 0 <= i < |a| ==> drop(a[i])
    ensures forall i :: 0 <= i < |b| ==> drop(b[i])
  {
    var lo :| 0 <= lo <= |s| && r <= s[lo..]
              && (forall i :: 0 <= i < lo ==> drop(s[i]))
              && (forall i :: lo + |r| <= i < |s| ==> drop(s[i]));
    assert s[lo..] == r + s[lo + |r|..];
    a, b := s[..lo], s[lo + |r|..];
    assert s == a + s[lo..];
    forall j | 0 <= j < |b| ensures drop(b[j]) {
      assert b[j] == s[lo + |r| + j];
    }
  }

  /** `strip()` removes whitespace, and only whitespace, from both ends. */
  lemma TrimRemovesOnlySpace(s: string)
    ensures StrippedFrom(s, Trim(s), IsSpace)
  {
    StripRemovesOnlyDropped(s, IsSpace);
  }

  /** A string with no removable character at either end is its own strip. */
  lemma StripFixed(s: string, drop: char -> bool)
    requires s != [] ==> !drop(s[0]) && !drop(s[|s| - 1])
    ensures Strip(s, drop) == s
  {
  }

  /** LStrip removes a removable prefix and stops at the first kept character. */
  lemma {:induction false} LStripPrefix(pre: string, rest: string, drop: char -> bool)
    requires forall i :: 0 <= i < |pre| ==> drop(pre[i])
    requires rest != [] && !drop(rest[0])
    ensures LStrip(pre + rest, drop) == rest
    decreases |pre|
  {
    if pre == [] {
      assert pre + rest == rest;
    } else {
      assert (pre + rest)[1..] == pre[1..] + rest;
      LStripPrefix(pre[1..], rest, drop);
    }
  }

  /** RStrip removes a removable suffix and stops at the last kept character. */
  lemma {:induction false} RStripSuffix(rest: string, post: string, drop: char -> bool)
    requires forall i :: 0 <= i < |post| ==> drop(post[i])
    requires rest != [] && !drop(rest[|rest| - 1])
    ensures RStrip(rest + post, drop) == rest
    decreases |post|
  {
    if post == [] {
      assert rest + post == rest;
    } else {
      var n := |rest + post|;
      assert (rest + post)[..n - 1] == rest + post[..|post| - 1];
      RStripSuffix(rest, post[..|post| - 1], drop);
    }
  }

  /** Strip is determined by its three parts: whatever surrounds a middle that
      starts and ends with a kept character, and consists of removable
      characters only, is removed. */
  lemma StripAround(pre: string, mid: string, post: string, drop: char -> bool)
    requires forall i :: 0 <= i < |pre| ==> drop(pre[i])
    requires forall i :: 0 <= i < |post| ==> drop(post[i])
    requires mid != [] && !drop(mid[0]) && !drop(mid[|mid| - 1])
    ensures Strip(pre + mid + post, drop) == mid
  {
    assert pre + mid + post == pre + (mid + post);
    LStripPrefix(pre, mid + post, drop);
    RStripSuffix(mid, post, drop);
  }

  /** `s.lower()` on ASCII letters. */
  function Lower(s: string): (r: string)
    ensures |r| == |s|
    ensures forall i :: 0 <= i < |r| ==> !IsUpper(r[i])
    ensures forall i :: 0 <= i < |s| ==> r[i] == LowerChar(s[i])
  {
    if s == [] then [] else [LowerChar(s[0])] + Lower(s[1..])
  }

  /** `s.capitalize()` on ASCII letters: first character upper case, the rest lower case. */
  function Capitalize(s: string): (r: string)
    ensures |r| == |s|
    ensures r != [] ==> r[0] == UpperChar(s[0]) && !IsLower(r[0])
    ensures forall i :: 1 <= i < |r| ==> r[i] == LowerChar(s[i]) && !IsUpper(r[i])
  {
    if s == [] then [] else [UpperChar(s[0])] + Lower(s[1..])
  }

  /** `sep.join(parts)`. */
  function Join(parts: seq<string>, sep: string): (r: string)
    ensures parts == [] ==> r == []
    ensures |parts| == 1 ==> r == parts[0]
  {
    if parts == [] then []
    else if |parts| == 1 then parts[0]
    else parts[0] + sep + Join(parts[1..], sep)
  }

  /** Joining one more part appends the separator and that part, and nothing else:
      no separator leads or trails. */
  lemma {:induction false} JoinSnoc(parts: seq<string>, sep: string, last: string)
    requires parts != []
    ensures Join(parts + [last], sep) == Join(parts, sep) + sep + last
    decreases |parts|
  {
    if |parts| == 1 {
      assert parts + [last] == [parts[0], last];
      assert ([parts[0], last])[1..] == [last];
    } else {
      assert (parts + [last])[1..] == parts[1..] + [last];
      JoinSnoc(parts[1..], sep, last);
    }
  }
}
