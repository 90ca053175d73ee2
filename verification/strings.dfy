/**
  String helpers the module browser relies on: ASCII lower-casing, trimming of
  surrounding whitespace, substring containment and the lexicographic order of
  `std::string::operator<`. Strings are sequences of code points; comparing
  UTF-8 bytes as unsigned values orders them exactly as their code points, so
  the order below is the one the browser sorts by.
 */
module Strings {

  /** The characters that trimming removes from both ends of a search text. */
  predicate IsSpace(c: char) {
    c == ' ' || c == '\n' || c == '\r' || c == '\t'
  }

  /** `tolower` in the C locale: only 'A'..'Z' change. */
  function ToLowerChar(c: char): char {
    if 'A' <= c <= 'Z' then (c as int + 32) as char else c
  }

  /** Lower-cases every character independently. */
  function Lowercase(s: string): (r: string)
    ensures |r| == |s|
    ensures forall i :: 0 <= i < |s| ==> r[i] == ToLowerChar(s[i])
  {
    seq(|s|, i requires 0 <= i < |s| => ToLowerChar(s[i]))
  }

  lemma LowercaseDrop(s: string, i: nat)
    requires i <= |s|
    ensures Lowercase(s[i..]) == Lowercase(s)[i..]
  {
  }

  /** `q` occurs contiguously somewhere in `t`. */
  predicate IsSubstring(q: string, t: string) {
    exists i :: 0 <= i <= |t| && q <= t[i..]
  }

  lemma SubstringOfSelf(t: string)
    ensures IsSubstring(t, t)
  {
    assert t <= t[0..];
  }

  /** Whatever occurs in `t` also occurs in `x + t + y`. */
  lemma SubstringWiden(q: string, x: string, t: string, y: string)
    requires IsSubstring(q, t)
    ensures IsSubstring(q, x + t + y)
  {
    var i :| 0 <= i <= |t| && q <= t[i..];
    var w := x + t + y;
    assert w[|x| + i..] == t[i..] + y;
  }

  /** Lower-casing both sides keeps a contiguous occurrence. */
  lemma SubstringLowercase(q: string, t: string)
    requires IsSubstring(q, t)
    ensures IsSubstring(Lowercase(q), Lowercase(t))
  {
    var i :| 0 <= i <= |t| && q <= t[i..];
    LowercaseDrop(t, i);
    assert Lowercase(q) <= Lowercase(t)[i..];
  }

  // Trimming

  /** Every character of `s` is whitespace (vacuously so for no characters). */
  predicate AllSpace(s: string) {
    forall i :: 0 <= i < |s| ==> IsSpace(s[i])
  }

  /** Drops the leading whitespace of `s`. */
  function TrimStart(s: string): (r: string)
    ensures |r| <= |s| && r == s[|s| - |r|..]
    ensures r == [] || !IsSpace(r[0])
    ensures AllSpace(s[..|s| - |r|])
    decreases |s|
  {
    if |s| > 0 && IsSpace(s[0]) then
      var r := TrimStart(s[1..]);
      assert s[..|s| - |r|] == [s[0]] + s[1..][..|s| - 1 - |r|];
      r
    else s
  }

  /** Drops the trailing whitespace of `s`. */
  function TrimEnd(s: string): (r: string)
    ensures |r| <= |s| && r == s[..|r|]
    ensures r == [] || !IsSpace(r[|r| - 1])
    ensures AllSpace(s[|r|..])
    decreases |s|
  {
    if |s| > 0 && IsSpace(s[|s| - 1]) then
      var r := TrimEnd(s[..|s| - 1]);
      assert s[|r|..] == s[..|s| - 1][|r|..] + [s[|s| - 1]];
      r
    else s
  }

  /** `r` is `s[k..k + |r|]`, and everything of `s` before and after that
      span is whitespace. */
  predicate StrippedAt(r: string, s: string, k: int) {
    && 0 <= k <= |s| - |r|
    && s[k..k + |r|] == r
    && AllSpace(s[..k])
    && AllSpace(s[k + |r|..])
  }

  /** `r` is what is left of `s` after removing some whitespace at the front
      and some at the back, and nothing in between. */
  predicate StripsOnlyEnds(r: string, s: string) {
    exists k :: 0 <= k <= |s| && StrippedAt(r, s, k)
  }

  /** Removes whitespace from both ends: what remains is the span from the
      first to the last non-space character, or nothing when there is none. */
  function Trim(s: string): (r: string)
    ensures StripsOnlyEnds(r, s)
    ensures IsSubstring(r, s)
    ensures r == [] || (!IsSpace(r[0]) && !IsSpace(r[|r| - 1]))
    ensures r == [] <==> AllSpace(s)
  {
    var t := TrimStart(s);
    var r := TrimEnd(t);
    TrimStrips(s, t, r);
    r
  }

  /** The two halves of trimming together strip only the ends: `t` is `s`
      without a whitespace prefix, and `r` is `t` without a whitespace
      suffix. */
  lemma TrimStrips(s: string, t: string, r: string)
    requires |t| <= |s| && t == s[|s| - |t|..] && AllSpace(s[..|s| - |t|])
    requires |r| <= |t| && r == t[..|r|] && AllSpace(t[|r|..])
    requires t == [] || !IsSpace(t[0])
    requires r == [] || !IsSpace(r[|r| - 1])
    ensures StrippedAt(r, s, |s| - |t|)
    ensures StripsOnlyEnds(r, s) && IsSubstring(r, s)
    ensures r == [] || (!IsSpace(r[0]) && !IsSpace(r[|r| - 1]))
    ensures r == [] <==> AllSpace(s)
  {
    var pre, post := s[..|s| - |t|], t[|r|..];
    assert t == r + post;
    assert s == pre + t;
    StrippedConcat(pre, r, post);
    assert s == pre + r + post;
    assert r <= s[|pre|..];
    if r == [] {
      StrippedAtAllSpace(r, s, |pre|);
    } else {
      assert r[0] == t[0];
      StrippedAtSplit(r, s, |pre|, |pre|);
    }
  }

  /** Whitespace put around `r` is exactly what stripping removes. */
  lemma StrippedConcat(pre: string, r: string, post: string)
    requires AllSpace(pre) && AllSpace(post)
    ensures StrippedAt(r, pre + r + post, |pre|)
  {
    var s := pre + r + post;
    assert s[..|pre|] == pre;
    assert s[|pre|..|pre| + |r|] == r;
    assert s[|pre| + |r|..] == post;
  }

  /** Stripping down to nothing means there was only whitespace. */
  lemma StrippedAtAllSpace(r: string, s: string, k: int)
    requires StrippedAt(r, s, k) && r == []
    ensures AllSpace(s)
  {
    forall i | 0 <= i < |s| ensures IsSpace(s[i]) {
      StrippedAtSplit(r, s, k, i);
    }
  }

  /** Every character of `s` lies in the stripped prefix, the kept span or
      the stripped suffix. */
  lemma StrippedAtSplit(r: string, s: string, k: int, i: int)
    requires StrippedAt(r, s, k)
    requires 0 <= i < |s|
    ensures i < k ==> IsSpace(s[i])
    ensures k <= i < k + |r| ==> s[i] == r[i - k]
    ensures k + |r| <= i ==> IsSpace(s[i])
  {
    if i < k {
      assert s[i] == s[..k][i];
    } else if i < k + |r| {
      assert s[i] == s[k..k + |r|][i - k];
    } else {
      assert s[i] == s[k + |r|..][i - k - |r|];
    }
  }

  /** At most one string is left by stripping whitespace from the ends of
      `s` with neither end still whitespace. */
  lemma StripsUnique(s: string, r: string, t: string)
    requires StripsOnlyEnds(r, s) && StripsOnlyEnds(t, s)
    requires r == [] || (!IsSpace(r[0]) && !IsSpace(r[|r| - 1]))
    requires t == [] || (!IsSpace(t[0]) && !IsSpace(t[|t| - 1]))
    ensures r == t
  {
    var k :| 0 <= k <= |s| && StrippedAt(r, s, k);
    var j :| 0 <= j <= |s| && StrippedAt(t, s, j);
    if r == [] || t == [] {
      if r != [] {
        StrippedAtAllSpace(t, s, j);
        StrippedAtSplit(r, s, k, k);
      } else if t != [] {
        StrippedAtAllSpace(r, s, k);
        StrippedAtSplit(t, s, j, j);
      }
    } else {
      StrippedAtSplit(r, s, k, k);
      StrippedAtSplit(r, s, k, k + |r| - 1);
      StrippedAtSplit(t, s, j, j);
      StrippedAtSplit(t, s, j, j + |t| - 1);
      StrippedAtSplit(r, s, k, j);
      StrippedAtSplit(t, s, j, k);
      StrippedAtSplit(r, s, k, j + |t| - 1);
      StrippedAtSplit(t, s, j, k + |r| - 1);
      assert j == k && |r| == |t|;
    }
  }

  /** Trimming is determined by its contract: the only way to strip whitespace
      from the ends of `s` so that neither end is whitespace any more is
      `Trim(s)`. */
  lemma TrimUnique(s: string, r: string)
    requires StripsOnlyEnds(r, s)
    requires r == [] || (!IsSpace(r[0]) && !IsSpace(r[|r| - 1]))
    ensures r == Trim(s)
  {
    StripsUnique(s, r, Trim(s));
  }

  /** A text without whitespace at either end is its own trim. */
  lemma TrimmedIsFixed(q: string)
    requires q == [] || (!IsSpace(q[0]) && !IsSpace(q[|q| - 1]))
    ensures Trim(q) == q
  {
    assert q[0..|q|] == q && q[..0] == [] && q[|q|..] == [];
    assert StrippedAt(q, q, 0);
    TrimUnique(q, q);
  }

  lemma TrimIdempotent(s: string)
    ensures Trim(Trim(s)) == Trim(s)
  {
    TrimmedIsFixed(Trim(s));
  }

  // Lexicographic order

  /** `std::string` less-than: compare character by character, and a proper
      prefix comes first. */
  predicate LexLess(a: string, b: string)
    decreases |a|
  {
    if |a| == 0 then |b| > 0
    else if |b| == 0 then false
    else if a[0] != b[0] then a[0] < b[0]
    else LexLess(a[1..], b[1..])
  }

  lemma {:induction false} LexLessIrreflexive(a: string)
    ensures !LexLess(a, a)
    decreases |a|
  {
    if |a| > 0 {
      LexLessIrreflexive(a[1..]);
    }
  }

  lemma {:induction false} LexLessAsymmetric(a: string, b: string)
    requires LexLess(a, b)
    ensures !LexLess(b, a)
    decreases |a|
  {
    if |a| > 0 && |b| > 0 && a[0] == b[0] {
      LexLessAsymmetric(a[1..], b[1..]);
    }
  }

  lemma {:induction false} LexLessTransitive(a: string, b: string, c: string)
    requires LexLess(a, b) && LexLess(b, c)
    ensures LexLess(a, c)
    decreases |a|
  {
    if |a| > 0 && a[0] == b[0] && b[0] == c[0] {
      LexLessTransitive(a[1..], b[1..], c[1..]);
    }
  }

  /** Two different strings are always ordered one way or the other. */
  lemma {:induction false} LexLessTotal(a: string, b: string)
    requires a != b
    ensures LexLess(a, b) || LexLess(b, a)
    decreases |a|
  {
    if |a| > 0 && |b| > 0 && a[0] == b[0] {
      assert a == [a[0]] + a[1..] && b == [b[0]] + b[1..];
      LexLessTotal(a[1..], b[1..]);
    }
  }
}
