/** Character and string primitives in the semantics of the Python `str`
    methods the pipeline calls (`strip`, `upper`, `lower`, `startswith`,
    `endswith`, `in`, `replace`, `isdigit`).

    The recursive definitions walk an index instead of slicing, so that Dafny
    can evaluate them on string literals; each one is paired with a lemma
    relating it to the slice-based reading of the same operation. */
module Strings {

  /** Python's `str.isspace` for a single code point. */
  predicate IsSpace(c: char) {
    || c == ' '
    || ('\t' <= c <= '\r')
    || ('\U{1c}' <= c <= '\U{1f}')
    || c == '\U{85}' || c == '\U{a0}' || c == '\U{1680}'
    || ('\U{2000}' <= c <= '\U{200a}')
    || c == '\U{2028}' || c == '\U{2029}' || c == '\U{202f}'
    || c == '\U{205f}' || c == '\U{3000}'
  }

  /** ASCII decimal digit (the subset of `str.isdigit` that codes use). */
  predicate IsDigit(c: char) {
    '0' <= c <= '9'
  }

  /** Upper-case mapping for ASCII and the Cyrillic letters of the Mongolian
      alphabet; every other code point is left unchanged. */
  function UpperChar(c: char): char {
    if 'a' <= c <= 'z' then (c as int - 32) as char
    else if '\U{430}' <= c <= '\U{44f}' then (c as int - 32) as char
    else if c == '\U{451}' then '\U{401}'
    else if c == '\U{4e9}' then '\U{4e8}'
    else if c == '\U{4af}' then '\U{4ae}'
    else c
  }

  /** Lower-case mapping, the inverse of `UpperChar` on the letters it covers. */
  function LowerChar(c: char): char {
    if 'A' <= c <= 'Z' then (c as int + 32) as char
    else if '\U{410}' <= c <= '\U{42f}' then (c as int + 32) as char
    else if c == '\U{401}' then '\U{451}'
    else if c == '\U{4e8}' then '\U{4e9}'
    else if c == '\U{4ae}' then '\U{4af}'
    else c
  }

  function Upper(s: string): (r: string)
    ensures |r| == |s|
    ensures forall k :: 0 <= k < |s| ==> r[k] == UpperChar(s[k])
  {
    UpperFrom(s, 0)
  }

  /** `t` is the upper-case form of `s` when it agrees with it character by
      character. */
  lemma UpperIs(s: string, t: string)
    requires |s| == |t|
    requires forall k :: 0 <= k < |s| ==> UpperChar(s[k]) == t[k]
    ensures Upper(s) == t
  {
  }

  function UpperFrom(s: string, i: nat): (r: string)
    requires i <= |s|
    ensures |r| == |s| - i
    ensures forall k :: 0 <= k < |r| ==> r[k] == UpperChar(s[i + k])
    decreases |s| - i
  {
    if i == |s| then [] else [UpperChar(s[i])] + UpperFrom(s, i + 1)
  }

  function Lower(s: string): (r: string)
    ensures |r| == |s|
    ensures forall k :: 0 <= k < |s| ==> r[k] == LowerChar(s[k])
  {
    LowerFrom(s, 0)
  }

  function LowerFrom(s: string, i: nat): (r: string)
    requires i <= |s|
    ensures |r| == |s| - i
    ensures forall k :: 0 <= k < |r| ==> r[k] == LowerChar(s[i + k])
    decreases |s| - i
  {
    if i == |s| then [] else [LowerChar(s[i])] + LowerFrom(s, i + 1)
  }

  lemma UpperIdempotent(s: string)
    ensures Upper(Upper(s)) == Upper(s)
  {
  }

  /** `t` is the lower-case form of `s` when it agrees with it character by
      character. */
  lemma LowerIs(s: string, t: string)
    requires |s| == |t|
    requires forall k :: 0 <= k < |s| ==> LowerChar(s[k]) == t[k]
    ensures Lower(s) == t
  {
  }

  /** Lower-casing neither creates nor removes a character that no letter
      maps to. */
  lemma LowerKeepsAbsent(s: string, c: char)
    requires c !in s
    requires forall x :: LowerChar(x) == c ==> x == c
    ensures c !in Lower(s)
  {
    forall k | 0 <= k < |s| ensures Lower(s)[k] != c {
      assert s[k] in s;
    }
  }

  lemma LowerIdempotent(s: string)
    ensures Lower(Lower(s)) == Lower(s)
  {
  }

  /** Index of the first non-space character at or after `i` (or `|s|`). */
  function SkipSpaces(s: string, i: nat): (j: nat)
    requires i <= |s|
    ensures i <= j <= |s|
    ensures forall k :: i <= k < j ==> IsSpace(s[k])
    ensures j < |s| ==> !IsSpace(s[j])
    decreases |s| - i
  {
    if i < |s| && IsSpace(s[i]) then SkipSpaces(s, i + 1) else i
  }

  /** One past the last non-space character in `s[lo..j]` (or `lo`). */
  function TrimEnd(s: string, lo: nat, j: nat): (e: nat)
    requires lo <= j <= |s|
    ensures lo <= e <= j
    ensures forall k :: e <= k < j ==> IsSpace(s[k])
    ensures e > lo ==> !IsSpace(s[e - 1])
    decreases j
  {
    if j > lo && IsSpace(s[j - 1]) then TrimEnd(s, lo, j - 1) else j
  }

  /** Python's `str.strip()`: the longest slice of `s` whose ends are not
      white space, obtained by dropping white space from both ends. */
  function Strip(s: string): (r: string)
    ensures |r| <= |s|
    ensures r == [] || (!IsSpace(r[0]) && !IsSpace(r[|r| - 1]))
    ensures (s == [] || (!IsSpace(s[0]) && !IsSpace(s[|s| - 1]))) ==> r == s
    ensures (forall k :: 0 <= k < |s| ==> !IsSpace(s[k])) ==> r == s
  {
    var a := SkipSpaces(s, 0);
    var e := TrimEnd(s, a, |s|);
    s[a..e]
  }

  lemma StripIdempotent(s: string)
    ensures Strip(Strip(s)) == Strip(s)
  {
  }

  /** `p[j..]` occurs in `s` at offset `i + j`. */
  predicate MatchesAt(s: string, p: string, i: nat, j: nat)
    requires i + |p| <= |s| && j <= |p|
    decreases |p| - j
  {
    j == |p| || (s[i + j] == p[j] && MatchesAt(s, p, i, j + 1))
  }

  lemma {:induction false} MatchesAtIsSlice(s: string, p: string, i: nat, j: nat)
    requires i + |p| <= |s| && j <= |p|
    ensures MatchesAt(s, p, i, j) <==> s[i + j..i + |p|] == p[j..]
    decreases |p| - j
  {
    if j < |p| {
      MatchesAtIsSlice(s, p, i, j + 1);
      assert s[i + j..i + |p|] == [s[i + j]] + s[i + j + 1..i + |p|];
      assert p[j..] == [p[j]] + p[j + 1..];
    }
  }

  /** `s.startswith(p)` */
  predicate StartsWith(s: string, p: string) {
    |p| <= |s| && MatchesAt(s, p, 0, 0)
  }

  /** `s.endswith(p)` */
  predicate EndsWith(s: string, p: string) {
    |p| <= |s| && MatchesAt(s, p, |s| - |p|, 0)
  }

  /** `p in s[i..]`, searching from offset `i`. */
  predicate ContainsFrom(s: string, p: string, i: nat)
    decreases |s| - i
  {
    i + |p| <= |s| && (MatchesAt(s, p, i, 0) || ContainsFrom(s, p, i + 1))
  }

  /** Python's substring test `p in s`. */
  predicate Contains(s: string, p: string) {
    ContainsFrom(s, p, 0)
  }

  lemma StartsWithIsPrefix(s: string, p: string)
    ensures StartsWith(s, p) <==> p <= s
  {
    if |p| <= |s| {
      MatchesAtIsSlice(s, p, 0, 0);
    }
  }

  lemma EndsWithIsSuffix(s: string, p: string)
    ensures EndsWith(s, p) <==> |p| <= |s| && s[|s| - |p|..] == p
  {
    if |p| <= |s| {
      MatchesAtIsSlice(s, p, |s| - |p|, 0);
    }
  }

  /** `p` occurs in `s` starting at offset `k` (the slice reading). */
  predicate OccursAt(s: string, p: string, k: nat) {
    k + |p| <= |s| && s[k..k + |p|] == p
  }

  lemma {:induction false} ContainsFromIsOccurrence(s: string, p: string, i: nat)
    ensures ContainsFrom(s, p, i) <==> exists k: nat :: i <= k && OccursAt(s, p, k)
    decreases |s| - i
  {
    if i + |p| <= |s| {
      MatchesAtIsSlice(s, p, i, 0);
      ContainsFromIsOccurrence(s, p, i + 1);
      if MatchesAt(s, p, i, 0) {
        assert OccursAt(s, p, i);
      }
      if exists k: nat :: i <= k && OccursAt(s, p, k) {
        var k: nat :| i <= k && OccursAt(s, p, k);
        if k > i {
          assert i + 1 <= k;
        }
      }
    }
  }

  /** `Contains` is exactly "occurs at some offset". */
  lemma ContainsIsOccurrence(s: string, p: string)
    ensures Contains(s, p) <==> exists k: nat :: OccursAt(s, p, k)
  {
    ContainsFromIsOccurrence(s, p, 0);
  }

  /** Lower-casing both sides keeps an occurrence where it is. */
  lemma LowerKeepsOccurrence(s: string, p: string, k: nat)
    requires OccursAt(s, p, k)
    ensures OccursAt(Lower(s), Lower(p), k)
  {
    forall i | 0 <= i < |p| ensures Lower(s)[k + i] == Lower(p)[i] {
      assert s[k..k + |p|][i] == s[k + i];
    }
    assert Lower(s)[k..k + |p|] == Lower(p);
  }

  /** A string containing `p` still contains it after lower-casing both. */
  lemma LowerKeepsContains(s: string, p: string)
    requires Contains(s, p)
    ensures Contains(Lower(s), Lower(p))
  {
    ContainsIsOccurrence(s, p);
    var k: nat :| OccursAt(s, p, k);
    LowerKeepsOccurrence(s, p, k);
    ContainsIsOccurrence(Lower(s), Lower(p));
  }

  /** A pattern one of whose characters does not occur in `s` is neither a
      substring, nor a prefix, nor a suffix of `s`. */
  lemma MissingCharNoMatch(s: string, p: string, j: nat)
    requires j < |p| && p[j] !in s
    ensures !Contains(s, p) && !StartsWith(s, p) && !EndsWith(s, p)
  {
    forall k: nat | k + |p| <= |s| ensures !OccursAt(s, p, k) {
      assert s[k..k + |p|][j] == s[k + j];
    }
    ContainsIsOccurrence(s, p);
    StartsWithIsPrefix(s, p);
    EndsWithIsSuffix(s, p);
    if |p| <= |s| {
      assert s[j] in s;
      assert s[|s| - |p|..][j] == s[|s| - |p| + j];
    }
  }

  /** A literal prefix makes `StartsWith` hold. */
  lemma PrefixStartsWith(s: string, p: string)
    requires |p| <= |s| && s[..|p|] == p
    ensures StartsWith(s, p)
  {
    StartsWithIsPrefix(s, p);
  }

  /** An occurrence at a known offset makes `p` a substring of `s`. */
  lemma OccurrenceContained(s: string, p: string, k: nat)
    requires OccursAt(s, p, k)
    ensures Contains(s, p)
  {
    ContainsIsOccurrence(s, p);
  }

  /** A prefix is in particular an occurrence. */
  lemma StartsWithContains(s: string, p: string)
    requires StartsWith(s, p)
    ensures Contains(s, p)
  {
  }

  /** Python's `s.replace(pat, rep)`: every non-overlapping occurrence of
      `pat`, scanning left to right, is replaced by `rep`. */
  function Replace(s: string, pat: string, rep: string): string
    requires |pat| > 0
  {
    ReplaceFrom(s, pat, rep, 0)
  }

  function ReplaceFrom(s: string, pat: string, rep: string, i: nat): string
    requires |pat| > 0 && i <= |s|
    decreases |s| - i
  {
    if i == |s| then []
    else if i + |pat| <= |s| && MatchesAt(s, pat, i, 0) then rep + ReplaceFrom(s, pat, rep, i + |pat|)
    else [s[i]] + ReplaceFrom(s, pat, rep, i + 1)
  }

  lemma {:induction false} ReplaceFromAbsent(s: string, pat: string, rep: string, i: nat)
    requires |pat| > 0 && i <= |s|
    requires !ContainsFrom(s, pat, i)
    ensures ReplaceFrom(s, pat, rep, i) == s[i..]
    decreases |s| - i
  {
    if i < |s| {
      if i + 1 + |pat| <= |s| {
        ReplaceFromAbsent(s, pat, rep, i + 1);
      } else {
        ReplaceFromShortTail(s, pat, rep, i + 1);
      }
      assert s[i..] == [s[i]] + s[i + 1..];
    }
  }

  lemma {:induction false} ReplaceFromShortTail(s: string, pat: string, rep: string, i: nat)
    requires |pat| > 0 && i <= |s| && |s| < i + |pat|
    ensures ReplaceFrom(s, pat, rep, i) == s[i..]
    decreases |s| - i
  {
    if i < |s| {
      ReplaceFromShortTail(s, pat, rep, i + 1);
      assert s[i..] == [s[i]] + s[i + 1..];
    }
  }

  /** A replacement made at offset `i` or later leaves `rep` in the result:
      the first match the scan meets is replaced, and a later occurrence that
      the scan skips overlaps an earlier match that was replaced. */
  lemma {:induction false} ReplaceFromIntroduces(s: string, pat: string, rep: string, i: nat)
    requires |pat| > 0 && i <= |s|
    requires ContainsFrom(s, pat, i)
    ensures Contains(ReplaceFrom(s, pat, rep, i), rep)
    decreases |s| - i
  {
    var r := ReplaceFrom(s, pat, rep, i);
    if i + |pat| <= |s| && MatchesAt(s, pat, i, 0) {
      assert OccursAt(r, rep, 0) by {
        assert r == rep + ReplaceFrom(s, pat, rep, i + |pat|);
        assert r[..|rep|] == rep;
      }
      OccurrenceContained(r, rep, 0);
    } else {
      var tail := ReplaceFrom(s, pat, rep, i + 1);
      assert r == [s[i]] + tail;
      ReplaceFromIntroduces(s, pat, rep, i + 1);
      ContainsIsOccurrence(tail, rep);
      var k: nat :| OccursAt(tail, rep, k);
      assert r[k + 1..k + 1 + |rep|] == tail[k..k + |rep|];
      OccurrenceContained(r, rep, k + 1);
    }
  }

  /** Replacing a pattern that occurs leaves the replacement in the string. */
  lemma ReplaceIntroduces(s: string, pat: string, rep: string)
    requires |pat| > 0 && Contains(s, pat)
    ensures Contains(Replace(s, pat, rep), rep)
  {
    ReplaceFromIntroduces(s, pat, rep, 0);
  }

  /** Replacing a pattern that does not occur changes nothing. */
  lemma ReplaceAbsent(s: string, pat: string, rep: string)
    requires |pat| > 0 && !Contains(s, pat)
    ensures Replace(s, pat, rep) == s
  {
    if |pat| <= |s| {
      ReplaceFromAbsent(s, pat, rep, 0);
    } else {
      ReplaceFromShortTail(s, pat, rep, 0);
    }
  }

  /** `s.replace(c, "")` for a single character: `s` with every `c` dropped. */
  function RemoveAll(s: string, c: char): (r: string)
    ensures c !in r
    ensures forall x :: x in r <==> x in s && x != c
  {
    if s == [] then []
    else
      assert forall x :: x in s <==> x == s[0] || x in s[1..];
      (if s[0] == c then [] else [s[0]]) + RemoveAll(s[1..], c)
  }

  /** Exactly the occurrences of `c` are dropped: every other character
      keeps its number of occurrences. */
  lemma {:induction false} RemoveAllCounts(s: string, c: char)
    ensures multiset(RemoveAll(s, c)) == multiset(s)[c := 0]
  {
    if s != [] {
      assert s == [s[0]] + s[1..];
      RemoveAllCounts(s[1..], c);
    }
  }

  lemma {:induction false} RemoveAllConcat(a: string, b: string, c: char)
    ensures RemoveAll(a + b, c) == RemoveAll(a, c) + RemoveAll(b, c)
  {
    if a != [] {
      var h: string := if a[0] == c then [] else [a[0]];
      assert (a + b)[0] == a[0] && (a + b)[1..] == a[1..] + b;
      calc {
        RemoveAll(a + b, c);
        h + RemoveAll(a[1..] + b, c);
        { RemoveAllConcat(a[1..], b, c); }
        h + (RemoveAll(a[1..], c) + RemoveAll(b, c));
        (h + RemoveAll(a[1..], c)) + RemoveAll(b, c);
        RemoveAll(a, c) + RemoveAll(b, c);
      }
    } else {
      assert a + b == b;
    }
  }

  /** A string without `c` is left as it is. */
  lemma {:induction false} RemoveAllAbsent(s: string, c: char)
    requires c !in s
    ensures RemoveAll(s, c) == s
  {
    if s != [] {
      assert c !in s[1..] by {
        forall i | 0 <= i < |s[1..]| ensures s[1..][i] != c {
          assert s[1..][i] == s[i + 1];
        }
      }
      RemoveAllAbsent(s[1..], c);
    }
  }

  /** Dropping a character keeps every substring that does not contain it. */
  lemma RemoveAllKeepsContains(s: string, p: string, c: char)
    requires c !in p && Contains(s, p)
    ensures Contains(RemoveAll(s, c), p)
  {
    ContainsIsOccurrence(s, p);
    var k: nat :| OccursAt(s, p, k);
    var a, b := s[..k], s[k + |p|..];
    assert s == a + p + b;
    RemoveAllConcat(a + p, b, c);
    RemoveAllConcat(a, p, c);
    RemoveAllAbsent(p, c);
    var r := RemoveAll(s, c);
    assert r == RemoveAll(a, c) + p + RemoveAll(b, c);
    assert OccursAt(r, p, |RemoveAll(a, c)|);
    OccurrenceContained(r, p, |RemoveAll(a, c)|);
  }

  /** Case-insensitive substring test, as `str.contains(p, case=False)`. */
  predicate ContainsIgnoreCase(s: string, p: string) {
    Contains(Lower(s), Lower(p))
  }
}
