/**
 * Character classes and the few Python string operations the scraper uses:
 * `str.strip()`, `str.split(c)[0]` and `str.replace(c, '')`.
 */
module Text {

  /** Python's `str.isspace()`; the same set is the regular-expression class `\s` on str patterns. */
  predicate IsSpace(c: char) {
    || c == ' '
    || ('\t' <= c <= '\r')
    || ('\U{1c}' <= c <= '\U{1f}')
    || c == '\U{85}' || c == '\U{a0}' || c == '\U{1680}'
    || ('\U{2000}' <= c <= '\U{200a}')
    || c == '\U{2028}' || c == '\U{2029}' || c == '\U{202f}' || c == '\U{205f}' || c == '\U{3000}'
  }

  /** The class `\d`, restricted to ASCII digits. */
  predicate IsDigit(c: char) { '0' <= c <= '9' }

  /** The class `[\d.]`. */
  predicate IsDigitOrDot(c: char) { IsDigit(c) || c == '.' }

  /** The class `\w`, restricted to ASCII letters, digits and the underscore. */
  predicate IsWordChar(c: char) { 'a' <= c <= 'z' || 'A' <= c <= 'Z' || IsDigit(c) || c == '_' }

  /** The class `[^/]`. */
  predicate NotSlash(c: char) { c != '/' }

  /** The class ``[^`]``. */
  predicate NotBacktick(c: char) { c != '`' }

  /** ASCII lower-casing, the case folding used for case-insensitive matching. */
  function Lower(c: char): (d: char)
    ensures 'A' <= c <= 'Z' ==> 'a' <= d <= 'z' && d as int == c as int + 32
    ensures !('A' <= c <= 'Z') ==> d == c
  {
    if 'A' <= c <= 'Z' then (c as int + 32) as char else c
  }

  predicate SameIgnoringCase(a: string, b: string) {
    |a| == |b| && forall k :: 0 <= k < |a| ==> Lower(a[k]) == Lower(b[k])
  }

  /** `lit` occurs in `s` at position `i`. */
  predicate LitAt(s: string, i: nat, lit: string) {
    i + |lit| <= |s| && s[i..i + |lit|] == lit
  }

  /** `lit` occurs in `s` at position `i`, letters compared without regard to case. */
  predicate LitAtIgnoringCase(s: string, i: nat, lit: string) {
    i + |lit| <= |s| && SameIgnoringCase(s[i..i + |lit|], lit)
  }

  /** The end of the longest run of characters satisfying `p` that starts at `i`. */
  function RunEnd(s: string, i: nat, p: char -> bool): (e: nat)
    requires i <= |s|
    decreases |s| - i
    ensures i <= e <= |s|
    ensures forall k :: i <= k < e ==> p(s[k])
    ensures e < |s| ==> !p(s[e])
  {
    if i < |s| && p(s[i]) then RunEnd(s, i + 1, p) else i
  }

  /** The start of the longest run of characters satisfying `p` that ends at `j`. */
  function RunStart(s: string, j: nat, p: char -> bool): (b: nat)
    requires j <= |s|
    ensures b <= j
    ensures forall k :: b <= k < j ==> p(s[k])
    ensures b > 0 ==> !p(s[b - 1])
  {
    if j > 0 && p(s[j - 1]) then RunStart(s, j - 1, p) else j
  }

  /** Where `Strip` starts keeping characters: after the leading whitespace. */
  function StripStart(s: string): (a: nat)
    ensures a <= |s|
    ensures forall k :: 0 <= k < a ==> IsSpace(s[k])
    ensures a < |s| ==> !IsSpace(s[a])
  {
    RunEnd(s, 0, IsSpace)
  }

  /** Python's `s.strip()`: leading and trailing whitespace removed. */
  function Strip(s: string): (r: string)
    ensures r == [] <==> forall k :: 0 <= k < |s| ==> IsSpace(s[k])
    ensures r != [] ==> !IsSpace(r[0]) && !IsSpace(r[|r| - 1])
    ensures StripStart(s) + |r| <= |s| && r == s[StripStart(s)..StripStart(s) + |r|]
    ensures forall k :: StripStart(s) + |r| <= k < |s| ==> IsSpace(s[k])
  {
    var a := StripStart(s);
    var b := RunStart(s, |s|, IsSpace);
    if b <= a then
      []
    else
      assert s[a..b][0] == s[a] && s[a..b][b - a - 1] == s[b - 1];
      s[a..b]
  }

  /** A string that neither starts nor ends with whitespace is its own strip. */
  lemma StripTrimmed(x: string)
    requires x != [] && !IsSpace(x[0]) && !IsSpace(x[|x| - 1])
    ensures Strip(x) == x
  {
    assert StripStart(x) == 0;
  }

  /** A slice that neither starts nor ends with whitespace is its own strip. */
  lemma SliceTrimmed(s: string, a: nat, b: nat)
    requires a < b <= |s| && !IsSpace(s[a]) && !IsSpace(s[b - 1])
    ensures s[a..b] != [] && Strip(s[a..b]) == s[a..b]
  {
    var x := s[a..b];
    assert x[0] == s[a] && x[|x| - 1] == s[b - 1];
    StripTrimmed(x);
  }

  /** A whitespace character appended to a string does not change what `Strip` keeps of it. */
  lemma {:induction false} StripIgnoresTrailingSpace(x: string, c: char)
    requires IsSpace(c)
    ensures Strip(x + [c]) == Strip(x)
  {
    var s := x + [c];
    assert s[..|x|] == x;
    RunEndOnPrefix(s, |x|, 0, IsSpace);
    RunStartOnPrefix(s, |x|, |x|, IsSpace);
    var aS, bS := RunEnd(s, 0, IsSpace), RunStart(s, |s|, IsSpace);
    var aX, bX := RunEnd(x, 0, IsSpace), RunStart(x, |x|, IsSpace);
    assert bS == bX;
    if aX < |x| {
      assert aS == aX;
      if aX < bX {
        assert s[aS..bS] == x[aX..bX];
      }
    } else {
      assert aS >= |x| >= bS;
    }
    SameStrip(s, x, aS, bS, aX, bX);
  }

  /** Two strings whose whitespace runs at both ends frame the same kept text strip to the same string. */
  lemma SameStrip(s: string, x: string, aS: nat, bS: nat, aX: nat, bX: nat)
    requires aS == RunEnd(s, 0, IsSpace) && bS == RunStart(s, |s|, IsSpace)
    requires aX == RunEnd(x, 0, IsSpace) && bX == RunStart(x, |x|, IsSpace)
    requires (bS <= aS) == (bX <= aX)
    requires aS < bS ==> s[aS..bS] == x[aX..bX]
    ensures Strip(s) == Strip(x)
  {
  }

  /** A run that stops inside a prefix stops at the same place in the whole string. */
  lemma {:induction false} RunEndOnPrefix(s: string, n: nat, i: nat, p: char -> bool)
    requires i <= n <= |s|
    ensures RunEnd(s[..n], i, p) < n ==> RunEnd(s, i, p) == RunEnd(s[..n], i, p)
    ensures RunEnd(s[..n], i, p) == n ==> RunEnd(s, i, p) >= n
    decreases n - i
  {
    if i < n && p(s[i]) {
      RunEndOnPrefix(s, n, i + 1, p);
    }
  }

  /** A run that is bounded by a character outside `p` (or the end) ends there. */
  lemma RunEndAt(s: string, i: nat, e: nat, p: char -> bool)
    requires i <= e <= |s|
    requires forall k :: i <= k < e ==> p(s[k])
    requires e < |s| ==> !p(s[e])
    ensures RunEnd(s, i, p) == e
  {
  }

  /** A run that is preceded by a character outside `p` (or the start) starts there. */
  lemma RunStartAt(s: string, b: nat, j: nat, p: char -> bool)
    requires b <= j <= |s|
    requires forall k :: b <= k < j ==> p(s[k])
    requires b > 0 ==> !p(s[b - 1])
    ensures RunStart(s, j, p) == b
  {
  }

  /** A backward run from inside a prefix only looks at the prefix. */
  lemma {:induction false} RunStartOnPrefix(s: string, n: nat, m: nat, p: char -> bool)
    requires m <= n <= |s|
    ensures RunStart(s, m, p) == RunStart(s[..n], m, p)
  {
    if m > 0 && p(s[m - 1]) {
      assert s[..n][m - 1] == s[m - 1];
      RunStartOnPrefix(s, n, m - 1, p);
    }
  }

  /** Python's `s.split(c)[0]`: the part of `s` before the first `c`, or all of `s`. */
  function Before(s: string, c: char): (r: string)
    ensures r <= s
    ensures c !in r
    ensures |r| < |s| ==> s[|r|] == c
  {
    if s == [] || s[0] == c then [] else [s[0]] + Before(s[1..], c)
  }

  /** Python's `s.replace(c, '')`: every occurrence of `c` removed, the rest kept in order. */
  function Remove(s: string, c: char): (r: string)
    ensures c !in r
    ensures forall d :: d != c ==> (d in r <==> d in s)
    ensures |r| <= |s|
  {
    if s == [] then []
    else
      assert s == [s[0]] + s[1..];
      if s[0] == c then Remove(s[1..], c) else [s[0]] + Remove(s[1..], c)
  }

  /** Removal shortens the string by the number of occurrences removed. */
  lemma {:induction false} RemoveCount(s: string, c: char)
    ensures |Remove(s, c)| == |s| - multiset(s)[c]
    ensures forall d :: d != c ==> multiset(Remove(s, c))[d] == multiset(s)[d]
  {
    if s != [] {
      assert s == [s[0]] + s[1..];
      RemoveCount(s[1..], c);
    }
  }

  /** Removal distributes over concatenation. */
  lemma {:induction false} RemoveAppend(a: string, b: string, c: char)
    ensures Remove(a + b, c) == Remove(a, c) + Remove(b, c)
  {
    if a != [] {
      assert (a + b)[1..] == a[1..] + b;
      RemoveAppend(a[1..], b, c);
    } else {
      assert a + b == b;
    }
  }

  /** Removing a character that does not occur leaves the string unchanged. */
  lemma {:induction false} RemoveAbsent(s: string, c: char)
    requires c !in s
    ensures Remove(s, c) == s
  {
    if s != [] {
      RemoveAbsent(s[1..], c);
    }
  }
}
