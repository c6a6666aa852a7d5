/**
 * String helpers with the meaning Python gives them: str.startswith,
 * str.endswith, the `in` substring test, str.replace, str.strip, and the
 * ordering list.sort() uses on strings (code point by code point).
 */
module Text {

  predicate StartsWith(s: string, prefix: string) {
    |prefix| <= |s| && s[..|prefix|] == prefix
  }

  predicate EndsWith(s: string, suffix: string) {
    |suffix| <= |s| && s[|s| - |suffix|..] == suffix
  }

  /** `sub in s`: some window of `s` equals `sub`. */
  predicate Contains(s: string, sub: string)
    decreases |s|
  {
    |sub| <= |s| && (s[..|sub|] == sub || Contains(s[1..], sub))
  }

  lemma {:induction false} ContainsAt(s: string, sub: string, i: nat)
    requires i + |sub| <= |s| && s[i..i + |sub|] == sub
    ensures Contains(s, sub)
    decreases i
  {
    if i > 0 {
      assert s[1..][i - 1..i - 1 + |sub|] == s[i..i + |sub|];
      ContainsAt(s[1..], sub, i - 1);
    }
  }

  lemma {:induction false} ContainsWitness(s: string, sub: string) returns (i: nat)
    requires Contains(s, sub)
    ensures i + |sub| <= |s| && s[i..i + |sub|] == sub
    decreases |s|
  {
    if s[..|sub|] == sub {
      i := 0;
    } else {
      var j := ContainsWitness(s[1..], sub);
      assert s[1..][j..j + |sub|] == s[j + 1..j + 1 + |sub|];
      i := j + 1;
    }
  }

  /**
   * `s.replace(pat, by)`: scans left to right and replaces every
   * non-overlapping occurrence of `pat`, not only the last one.
   */
  function ReplaceAll(s: string, pat: string, rep: string): string
    requires |pat| > 0
    decreases |s|
  {
    if |s| < |pat| then s
    else if s[..|pat|] == pat then rep + ReplaceAll(s[|pat|..], pat, rep)
    else [s[0]] + ReplaceAll(s[1..], pat, rep)
  }

  lemma {:induction false} ReplaceAllAbsent(s: string, pat: string, rep: string)
    requires |pat| > 0 && !Contains(s, pat)
    ensures ReplaceAll(s, pat, rep) == s
    decreases |s|
  {
    if |s| >= |pat| {
      ReplaceAllAbsent(s[1..], pat, rep);
      assert [s[0]] + s[1..] == s;
    }
  }

  /**
   * Replacing in `a + b` replaces in `b` only, when `a` holds no occurrence
   * and ends in a character the pattern does not contain, so that no
   * occurrence can straddle the two.
   */
  lemma {:induction false} ReplaceAllPrefix(a: string, b: string, pat: string, rep: string)
    requires |pat| > 0 && |a| > 0 && !Contains(a, pat) && a[|a| - 1] !in pat
    ensures ReplaceAll(a + b, pat, rep) == a + ReplaceAll(b, pat, rep)
    decreases |a|
  {
    var s := a + b;
    if |s| >= |pat| {
      assert s[..|pat|] != pat by {
        if |a| >= |pat| {
          assert s[..|pat|] == a[..|pat|];
        } else {
          assert s[..|pat|][|a| - 1] == a[|a| - 1];
        }
      }
      assert s[1..] == a[1..] + b;
      if |a| > 1 {
        ReplaceAllPrefix(a[1..], b, pat, rep);
        assert a == [a[0]] + a[1..];
      }
    }
  }

  /** A text without the first character of `sub` does not contain `sub`. */
  lemma {:induction false} MissingCharNotContained(s: string, sub: string)
    requires |sub| > 0 && sub[0] !in s
    ensures !Contains(s, sub)
    decreases |s|
  {
    if |sub| <= |s| {
      assert s[..|sub|][0] == s[0];
      MissingCharNotContained(s[1..], sub);
    }
  }

  /** The characters for which Python's str.isspace() holds. */
  predicate IsSpace(c: char) {
    || '\t' <= c <= '\r'
    || '\U{1c}' <= c <= ' '
    || c == '\U{85}' || c == '\U{a0}' || c == '\U{1680}'
    || '\U{2000}' <= c <= '\U{200a}'
    || c == '\U{2028}' || c == '\U{2029}' || c == '\U{202f}' || c == '\U{205f}' || c == '\U{3000}'
  }

  /** The white space `int()` skips: ASCII tab to carriage return and space, and non-ASCII `str.isspace` characters. */
  predicate IsIntSpace(c: char) {
    || '\t' <= c <= '\r' || c == ' '
    || (c >= '\U{80}' && IsSpace(c))
  }

  /** Which characters count as white space: those of `str.isspace`, or those `int()` skips. */
  datatype Spaces = StrSpaces | IntSpaces

  predicate IsSpaceIn(space: Spaces, c: char) {
    if space == StrSpaces then IsSpace(c) else IsIntSpace(c)
  }

  /** Every character of `t` is white space in the sense of `space`. */
  ghost predicate AllSpace(t: string, space: Spaces) {
    forall i :: 0 <= i < |t| ==> IsSpaceIn(space, t[i])
  }

  /** `s` with the leading characters satisfying `space` removed. */
  function StripLeft(s: string, space: Spaces): (r: string)
    ensures |r| <= |s| && r == s[|s| - |r|..]
    ensures r == [] || !IsSpaceIn(space, r[0])
    ensures AllSpace(s[..|s| - |r|], space)
  {
    if |s| > 0 && IsSpaceIn(space, s[0]) then
      var r := StripLeft(s[1..], space);
      assert s[..|s| - |r|] == [s[0]] + s[1..][..|s| - 1 - |r|];
      r
    else s
  }

  /** `s` with the trailing characters satisfying `space` removed. */
  function StripRight(s: string, space: Spaces): (r: string)
    ensures |r| <= |s| && r == s[..|r|]
    ensures r == [] || !IsSpaceIn(space, r[|r| - 1])
    ensures AllSpace(s[|r|..], space)
  {
    if |s| > 0 && IsSpaceIn(space, s[|s| - 1]) then
      var r := StripRight(s[..|s| - 1], space);
      assert s[|r|..] == s[..|s| - 1][|r|..] + [s[|s| - 1]];
      r
    else s
  }

  /** `r` is `s[lo..]` less a tail, with only white space cut off either side. */
  ghost predicate IsTrimmedSlice(s: string, r: string, lo: int, space: Spaces) {
    && 0 <= lo <= |s| - |r| && r == s[lo..lo + |r|]
    && AllSpace(s[..lo], space) && AllSpace(s[lo + |r|..], space)
  }

  /**
   * White space removed from both ends, for a given notion of white space:
   * the result is a contiguous slice of `s` that neither starts nor ends with
   * white space, and everything cut off is white space.
   */
  function StripWith(s: string, space: Spaces): (r: string)
    ensures IsTrimmedSlice(s, r, |s| - |StripLeft(s, space)|, space)
    ensures r == [] || (!IsSpaceIn(space, r[0]) && !IsSpaceIn(space, r[|r| - 1]))
  {
    var left := StripLeft(s, space);
    var r := StripRight(left, space);
    TrimmedSlice(s, left, r, space);
    r
  }

  /** Cutting white space off the front of `s`, then off the back of what is left, leaves a trimmed slice. */
  lemma TrimmedSlice(s: string, left: string, r: string, space: Spaces)
    requires |left| <= |s| && left == s[|s| - |left|..] && AllSpace(s[..|s| - |left|], space)
    requires left == [] || !IsSpaceIn(space, left[0])
    requires |r| <= |left| && r == left[..|r|] && AllSpace(left[|r|..], space)
    requires r == [] || !IsSpaceIn(space, r[|r| - 1])
    ensures IsTrimmedSlice(s, r, |s| - |left|, space)
    ensures r == [] || (!IsSpaceIn(space, r[0]) && !IsSpaceIn(space, r[|r| - 1]))
  {
    var lo := |s| - |left|;
    assert r == s[lo..lo + |r|] && s[lo + |r|..] == left[|r|..];
    if |r| > 0 {
      assert r[0] == left[0];
    }
  }

  lemma StripWithNoSpace(s: string, space: Spaces)
    requires s == [] || (!IsSpaceIn(space, s[0]) && !IsSpaceIn(space, s[|s| - 1]))
    ensures StripWith(s, space) == s
  {
  }

  /** White space in front of a text that does not start with white space is exactly what StripLeft removes. */
  lemma {:induction false} StripLeftPadded(w: string, u: string, space: Spaces)
    requires AllSpace(w, space)
    requires u != [] && !IsSpaceIn(space, u[0])
    ensures StripLeft(w + u, space) == u
    decreases |w|
  {
    if w == [] {
      assert w + u == u;
    } else {
      assert (w + u)[0] == w[0];
      assert (w + u)[1..] == w[1..] + u;
      StripLeftPadded(w[1..], u, space);
    }
  }

  /** White space after a text that does not end with white space is exactly what StripRight removes. */
  lemma {:induction false} StripRightPadded(u: string, w: string, space: Spaces)
    requires AllSpace(w, space)
    requires u != [] && !IsSpaceIn(space, u[|u| - 1])
    ensures StripRight(u + w, space) == u
    decreases |w|
  {
    if w == [] {
      assert u + w == u;
    } else {
      var s := u + w;
      assert s[|s| - 1] == w[|w| - 1];
      assert s[..|s| - 1] == u + w[..|w| - 1];
      StripRightPadded(u, w[..|w| - 1], space);
    }
  }

  /**
   * `s.strip()`: the result is a contiguous slice of `s` that neither starts
   * nor ends with a `str.isspace` character, and everything cut off is one.
   */
  function Strip(s: string): (r: string)
    ensures IsTrimmedSlice(s, r, |s| - |StripLeft(s, StrSpaces)|, StrSpaces)
    ensures r == [] || (!IsSpace(r[0]) && !IsSpace(r[|r| - 1]))
  {
    StripWith(s, StrSpaces)
  }

  lemma StripNoSpace(s: string)
    requires s == [] || (!IsSpace(s[0]) && !IsSpace(s[|s| - 1]))
    ensures Strip(s) == s
  {
    StripWithNoSpace(s, StrSpaces);
  }

  /** Python's `a <= b` on str: code point by code point, a prefix first. */
  predicate LexLe(a: string, b: string)
    decreases |a|
  {
    |a| == 0 || (|b| > 0 && (a[0] < b[0] || (a[0] == b[0] && LexLe(a[1..], b[1..]))))
  }

  lemma {:induction false} LexLeReflexive(a: string)
    ensures LexLe(a, a)
    decreases |a|
  {
    if |a| > 0 {
      LexLeReflexive(a[1..]);
    }
  }

  lemma {:induction false} LexLeTotal(a: string, b: string)
    ensures LexLe(a, b) || LexLe(b, a)
    decreases |a|
  {
    if |a| > 0 && |b| > 0 && a[0] == b[0] {
      LexLeTotal(a[1..], b[1..]);
    }
  }

  lemma {:induction false} LexLeTransitive(a: string, b: string, c: string)
    requires LexLe(a, b) && LexLe(b, c)
    ensures LexLe(a, c)
    decreases |a|
  {
    if |a| > 0 && a[0] == b[0] && b[0] == c[0] {
      LexLeTransitive(a[1..], b[1..], c[1..]);
    }
  }

  lemma {:induction false} LexLeAntisymmetric(a: string, b: string)
    requires LexLe(a, b) && LexLe(b, a)
    ensures a == b
    decreases |a|
  {
    if |a| > 0 {
      LexLeAntisymmetric(a[1..], b[1..]);
      assert a == [a[0]] + a[1..] && b == [b[0]] + b[1..];
    }
  }

  /** Adding the same prefix to both sides keeps the order. */
  lemma {:induction false} LexLePrefix(p: string, a: string, b: string)
    ensures LexLe(p + a, p + b) <==> LexLe(a, b)
    decreases |p|
  {
    if |p| == 0 {
      assert p + a == a && p + b == b;
    } else {
      var pa, pb := p + a, p + b;
      assert pa[0] == p[0] == pb[0];
      assert pa[1..] == p[1..] + a && pb[1..] == p[1..] + b;
      LexLePrefix(p[1..], a, b);
      assert LexLe(pa, pb) <==> LexLe(pa[1..], pb[1..]);
    }
  }

  ghost predicate Sorted(s: seq<string>) {
    forall i, j :: 0 <= i < j < |s| ==> LexLe(s[i], s[j])
  }

  /** The head of a sorted list is below every element of it. */
  lemma SortedHeadLeast(s: seq<string>, x: string)
    requires Sorted(s) && x in multiset(s)
    ensures |s| > 0 && LexLe(s[0], x)
  {
    var i :| 0 <= i < |s| && s[i] == x;
    if i == 0 {
      LexLeReflexive(x);
    }
  }

  /** Dropping equal heads from equal multisets leaves equal multisets. */
  lemma MultisetTails(a: seq<string>, b: seq<string>)
    requires |a| > 0 && |b| > 0 && a[0] == b[0] && multiset(a) == multiset(b)
    ensures multiset(a[1..]) == multiset(b[1..])
  {
    assert a == [a[0]] + a[1..] && b == [b[0]] + b[1..];
    assert multiset(a[1..]) == multiset(a) - multiset{a[0]};
    assert multiset(b[1..]) == multiset(b) - multiset{b[0]};
  }

  /** A sorted list is determined by its elements: list.sort() is deterministic. */
  lemma {:induction false} SortedUnique(a: seq<string>, b: seq<string>)
    requires Sorted(a) && Sorted(b) && multiset(a) == multiset(b)
    ensures a == b
    decreases |a|
  {
    if |a| == 0 {
      assert |multiset(b)| == 0;
    } else {
      assert |b| > 0 by { assert |multiset(b)| == |a|; }
      assert a[0] in multiset(b) && b[0] in multiset(a);
      SortedHeadLeast(b, a[0]);
      SortedHeadLeast(a, b[0]);
      LexLeAntisymmetric(a[0], b[0]);
      MultisetTails(a, b);
      SortedUnique(a[1..], b[1..]);
      assert a == [a[0]] + a[1..] && b == [b[0]] + b[1..];
    }
  }

  /** Puts `x` before the first element it does not exceed. */
  function Insert(x: string, s: seq<string>): seq<string>
    decreases |s|
  {
    if |s| == 0 then [x]
    else if LexLe(x, s[0]) then [x] + s
    else [s[0]] + Insert(x, s[1..])
  }

  /** Insertion sort as a function: the reference for what sorting a list yields. */
  function SortSeq(s: seq<string>): seq<string>
    decreases |s|
  {
    if |s| == 0 then [] else Insert(s[0], SortSeq(s[1..]))
  }

  lemma ConsSorted(h: string, t: seq<string>)
    requires Sorted(t) && forall j :: 0 <= j < |t| ==> LexLe(h, t[j])
    ensures Sorted([h] + t)
  {
    var r := [h] + t;
    forall i, j | 0 <= i < j < |r|
      ensures LexLe(r[i], r[j])
    {
      assert r[j] == t[j - 1];
      if i > 0 {
        assert r[i] == t[i - 1];
      }
    }
  }

  lemma {:induction false} InsertMultiset(x: string, s: seq<string>)
    ensures multiset(Insert(x, s)) == multiset(s) + multiset{x}
    decreases |s|
  {
    if |s| > 0 && !LexLe(x, s[0]) {
      InsertMultiset(x, s[1..]);
      assert s == [s[0]] + s[1..];
    }
  }

  lemma {:induction false} InsertSorted(x: string, s: seq<string>)
    requires Sorted(s)
    ensures Sorted(Insert(x, s))
    decreases |s|
  {
    if |s| == 0 {
    } else if LexLe(x, s[0]) {
      forall j | 0 <= j < |s|
        ensures LexLe(x, s[j])
      {
        if j > 0 {
          LexLeTransitive(x, s[0], s[j]);
        }
      }
      ConsSorted(x, s);
    } else {
      LexLeTotal(x, s[0]);
      var tail := s[1..];
      InsertSorted(x, tail);
      InsertMultiset(x, tail);
      var t := Insert(x, tail);
      forall j | 0 <= j < |t|
        ensures LexLe(s[0], t[j])
      {
        assert t[j] in multiset(t);
        if t[j] != x {
          assert t[j] in multiset(tail);
          var i :| 0 <= i < |tail| && tail[i] == t[j];
          assert tail[i] == s[i + 1];
        }
      }
      ConsSorted(s[0], t);
    }
  }

  lemma {:induction false} SortSeqSorted(s: seq<string>)
    ensures Sorted(SortSeq(s))
    ensures multiset(SortSeq(s)) == multiset(s)
    decreases |s|
  {
    if |s| > 0 {
      SortSeqSorted(s[1..]);
      InsertSorted(s[0], SortSeq(s[1..]));
      InsertMultiset(s[0], SortSeq(s[1..]));
      assert s == [s[0]] + s[1..];
    }
  }

  /** Any sorted arrangement of the elements of `s` is SortSeq(s). */
  lemma SortedIsSortSeq(s: seq<string>, r: seq<string>)
    requires Sorted(r) && multiset(r) == multiset(s)
    ensures r == SortSeq(s)
  {
    SortSeqSorted(s);
    SortedUnique(r, SortSeq(s));
  }
}
