/** The two PHP string built-ins the conversion client relies on: `trim` with its
    default character list, and `str_replace` with a single search string. */
module PhpStrings {

  // ---------------------------------------------------------------------------
  // trim
  // ---------------------------------------------------------------------------

  /** The characters `trim` strips when no character list is given: space,
      tab, line feed, carriage return, NUL and vertical tab. */
  predicate IsTrimmable(c: char) {
    c == ' ' || c == '\t' || c == '\n' || c == '\r' || c == '\0' || c == '\U{000B}'
  }

  /** Every character of `s` is one that `trim` strips. */
  predicate AllTrimmable(s: string) {
    forall i :: 0 <= i < |s| ==> IsTrimmable(s[i])
  }

  /** Drops the longest prefix of strippable characters (`ltrim`). */
  function TrimStart(s: string): (r: string)
    ensures |r| <= |s| && r == s[|s| - |r|..]
    ensures AllTrimmable(s[..|s| - |r|])
    ensures r == [] || !IsTrimmable(r[0])
    decreases |s|
  {
    if |s| > 0 && IsTrimmable(s[0]) then
      var r := TrimStart(s[1..]);
      assert s[..|s| - |r|] == [s[0]] + s[1..][..|s[1..]| - |r|];
      r
    else
      s
  }

  /** Drops the longest suffix of strippable characters (`rtrim`). */
  function TrimEnd(s: string): (r: string)
    ensures |r| <= |s| && r == s[..|r|]
    ensures AllTrimmable(s[|r|..])
    ensures r == [] || !IsTrimmable(r[|r| - 1])
    decreases |s|
  {
    if |s| > 0 && IsTrimmable(s[|s| - 1]) then
      var r := TrimEnd(s[..|s| - 1]);
      assert s[|r|..] == s[..|s| - 1][|r|..] + [s[|s| - 1]];
      r
    else
      s
  }

  /** `r` is the piece of `s` starting at `k`, and everything before and
      after it is strippable. */
  predicate StrippedAround(s: string, r: string, k: nat) {
    k + |r| <= |s| && r == s[k..k + |r|] && AllTrimmable(s[..k]) && AllTrimmable(s[k + |r|..])
  }

  /** PHP `trim($s)`: strips strippable characters from both ends. The result
      is a contiguous piece of `s` with only strippable characters around it;
      it is empty exactly when `s` holds nothing but strippable characters,
      and otherwise neither starts nor ends with one. */
  function Trim(s: string): (r: string)
    ensures r == [] <==> AllTrimmable(s)
    ensures r != [] ==> !IsTrimmable(r[0]) && !IsTrimmable(r[|r| - 1])
    ensures exists k: nat :: StrippedAround(s, r, k)
  {
    var r := TrimEnd(TrimStart(s));
    TrimBlankIff(s, r);
    r
  }

  /** Both ends trimmed, what is left is the piece of `s` between a strippable
      prefix and a strippable suffix, and it is empty exactly when nothing but
      strippable characters was there. */
  lemma {:induction false} TrimBlankIff(s: string, r: string)
    requires r == TrimEnd(TrimStart(s))
    ensures r == [] <==> AllTrimmable(s)
    ensures r != [] ==> !IsTrimmable(r[0]) && !IsTrimmable(r[|r| - 1])
    ensures exists k: nat :: StrippedAround(s, r, k)
  {
    var m := TrimStart(s);
    TrimmedBlank(s, m, r);
    assert StrippedAround(s, r, |s| - |m|);
  }

  /** What `trim` leaves is fixed by its contract: two pieces of `s` with only
      strippable characters around them and none at their own ends are the
      same piece. */
  lemma TrimmedPieceUnique(s: string, r1: string, k1: nat, r2: string, k2: nat)
    requires StrippedAround(s, r1, k1) && (r1 == [] || (!IsTrimmable(r1[0]) && !IsTrimmable(r1[|r1| - 1])))
    requires StrippedAround(s, r2, k2) && (r2 == [] || (!IsTrimmable(r2[0]) && !IsTrimmable(r2[|r2| - 1])))
    ensures r1 == r2
  {
    if r1 != [] && r2 != [] {
      PieceStart(s, r1, k1, r2, k2);
      PieceStart(s, r2, k2, r1, k1);
      PieceEnd(s, r1, k1, r2, k2);
      PieceEnd(s, r2, k2, r1, k1);
    }
  }

  /** A piece that starts with a character `trim` keeps begins no earlier
      than any piece with only strippable characters before it. */
  lemma PieceStart(s: string, r1: string, k1: nat, r2: string, k2: nat)
    requires StrippedAround(s, r1, k1)
    requires StrippedAround(s, r2, k2) && r2 != [] && !IsTrimmable(r2[0])
    ensures k1 <= k2
  {
  }

  /** A piece that ends with a character `trim` keeps ends no later than any
      piece with only strippable characters after it. */
  lemma PieceEnd(s: string, r1: string, k1: nat, r2: string, k2: nat)
    requires StrippedAround(s, r1, k1)
    requires StrippedAround(s, r2, k2) && r2 != [] && !IsTrimmable(r2[|r2| - 1])
    ensures k2 + |r2| <= k1 + |r1|
  {
  }

  /** `trim` recovers the text between a strippable prefix and a strippable
      suffix, provided that text neither starts nor ends with a strippable
      character. */
  lemma TrimSurrounded(pre: string, mid: string, post: string)
    requires AllTrimmable(pre) && AllTrimmable(post)
    requires mid == [] || (!IsTrimmable(mid[0]) && !IsTrimmable(mid[|mid| - 1]))
    ensures Trim(pre + (mid + post)) == mid
  {
    var s := pre + (mid + post);
    var r := Trim(s);
    var k: nat :| StrippedAround(s, r, k);
    SurroundedPiece(pre, mid, post);
    TrimmedPieceUnique(s, r, k, mid, |pre|);
  }

  lemma SurroundedPiece(pre: string, mid: string, post: string)
    requires AllTrimmable(pre) && AllTrimmable(post)
    ensures StrippedAround(pre + (mid + post), mid, |pre|)
  {
    var s := pre + (mid + post);
    assert s[..|pre|] == pre && s[|pre|..|pre| + |mid|] == mid && s[|pre| + |mid|..] == post;
  }

  /** The facts about `ltrim` and `rtrim` combined: `m` is what `ltrim` leaves
      of `s` and `r` what `rtrim` leaves of `m`. */
  lemma TrimmedBlank(s: string, m: string, r: string)
    requires |m| <= |s| && m == s[|s| - |m|..] && AllTrimmable(s[..|s| - |m|])
    requires m == [] || !IsTrimmable(m[0])
    requires |r| <= |m| && r == m[..|r|] && AllTrimmable(m[|r|..])
    ensures r == [] <==> AllTrimmable(s)
    ensures r != [] ==> r[0] == m[0]
    ensures r == s[|s| - |m|..|s| - |m| + |r|]
    ensures AllTrimmable(s[|s| - |m| + |r|..])
  {
    StartTrimmedBlank(s, m, |s| - |m|);
    EndTrimmedBlank(m, r);
    if r != [] {
      assert r[0] == m[..|r|][0];
    }
    assert s[|s| - |m| + |r|..] == m[|r|..];
  }

  /** What is left after `ltrim` is empty exactly when all of `s` was
      strippable. */
  lemma StartTrimmedBlank(s: string, m: string, k: nat)
    requires k <= |s| && m == s[k..] && AllTrimmable(s[..k])
    requires m == [] || !IsTrimmable(m[0])
    ensures m == [] <==> AllTrimmable(s)
  {
    if m == [] {
      assert s[..k] == s;
    } else {
      assert s[k] == m[0];
    }
  }

  /** `rtrim` of text that does not start with a strippable character is
      empty exactly when the text is. */
  lemma EndTrimmedBlank(m: string, r: string)
    requires |r| <= |m| && r == m[..|r|] && AllTrimmable(m[|r|..])
    requires m == [] || !IsTrimmable(m[0])
    ensures r == [] <==> m == []
  {
  }

  // ---------------------------------------------------------------------------
  // str_replace
  // ---------------------------------------------------------------------------

  /** `pat` occurs in `s` starting at index `i`. */
  predicate MatchAt(s: string, pat: string, i: nat) {
    i + |pat| <= |s| && s[i..i + |pat|] == pat
  }

  /** `pat` occurs somewhere in `s`. */
  ghost predicate Contains(s: string, pat: string) {
    exists i: nat :: MatchAt(s, pat, i)
  }

  /** No character of `s` appears anywhere in `pat`. */
  predicate SharesNoChar(s: string, pat: string) {
    forall j, k :: 0 <= j < |s| && 0 <= k < |pat| ==> s[j] != pat[k]
  }

  /** An occurrence of `pat` in `s[1..]` is an occurrence in `s`, one further on. */
  lemma ContainsOfTail(s: string, pat: string)
    requires |s| > 0
    ensures Contains(s[1..], pat) ==> Contains(s, pat)
  {
    if Contains(s[1..], pat) {
      var i: nat :| MatchAt(s[1..], pat, i);
      assert s[i + 1..i + 1 + |pat|] == s[1..][i..i + |pat|];
      assert MatchAt(s, pat, i + 1);
    }
  }

  /** An occurrence fixes every character it covers. */
  lemma MatchAtChar(s: string, pat: string, i: nat, k: nat)
    requires k < |pat|
    ensures MatchAt(s, pat, i) ==> s[i + k] == pat[k]
  {
    if MatchAt(s, pat, i) {
      assert s[i..i + |pat|][k] == pat[k];
    }
  }

  /** PHP `str_replace($search, $replace, $subject)` for one search string:
      scans left to right, replaces every non-overlapping occurrence, and never
      rescans inserted text. An empty search string leaves the subject as it
      is. */
  function StrReplace(search: string, replace: string, subject: string): string
    decreases |subject|
  {
    if |search| == 0 || |subject| == 0 then
      subject
    else if MatchAt(subject, search, 0) then
      replace + StrReplace(search, replace, subject[|search|..])
    else
      [subject[0]] + StrReplace(search, replace, subject[1..])
  }

  /** A subject that does not contain the search string is returned
      unchanged. */
  lemma {:induction false} StrReplaceAbsent(search: string, replace: string, subject: string)
    requires !Contains(subject, search)
    ensures StrReplace(search, replace, subject) == subject
    decreases |subject|
  {
    if |search| > 0 && |subject| > 0 {
      assert !MatchAt(subject, search, 0);
      ContainsOfTail(subject, search);
      StrReplaceAbsent(search, replace, subject[1..]);
      assert [subject[0]] + subject[1..] == subject;
    }
  }

  /** Text in which no occurrence of the search string starts passes through
      `str_replace` unchanged, whatever follows it. */
  lemma {:induction false} StrReplaceSkip(search: string, replace: string, a: string, b: string)
    requires forall i :: 0 <= i < |a| ==> !MatchAt(a + b, search, i)
    ensures StrReplace(search, replace, a + b) == a + StrReplace(search, replace, b)
    decreases |a|
  {
    if |a| == 0 {
      assert a + b == b;
    } else if |search| > 0 {
      var t := a[1..] + b;
      NoMatchShift(search, a, b);
      StrReplaceSkip(search, replace, a[1..], b);
      StrReplaceStep(search, replace, a + b, t);
      assert [a[0]] + (a[1..] + StrReplace(search, replace, b)) == a + StrReplace(search, replace, b);
    }
  }

  /** Dropping the first character of `a` keeps the absence of an occurrence
      starting in `a`, and there is none at the very start. */
  lemma NoMatchShift(search: string, a: string, b: string)
    requires |a| > 0
    requires forall i :: 0 <= i < |a| ==> !MatchAt(a + b, search, i)
    ensures forall i :: 0 <= i < |a| - 1 ==> !MatchAt(a[1..] + b, search, i)
  {
    var s := a + b;
    assert s[1..] == a[1..] + b;
    forall i | 0 <= i < |a| - 1
      ensures !MatchAt(a[1..] + b, search, i)
    {
      MatchAtShift(s, search, i);
    }
  }

  /** One step of the scan when no occurrence starts at the first character. */
  lemma StrReplaceStep(search: string, replace: string, s: string, t: string)
    requires |search| > 0 && |s| > 0 && !MatchAt(s, search, 0) && t == s[1..]
    ensures StrReplace(search, replace, s) == [s[0]] + StrReplace(search, replace, t)
  {
  }

  /** An occurrence in `s[1..]` is an occurrence in `s`, one position on. */
  lemma MatchAtShift(s: string, pat: string, i: nat)
    requires |s| > 0
    ensures MatchAt(s[1..], pat, i) ==> MatchAt(s, pat, i + 1)
  {
    if MatchAt(s[1..], pat, i) {
      assert s[i + 1..i + 1 + |pat|] == s[1..][i..i + |pat|];
    }
  }

  /** The special case of `StrReplaceSkip` where `a` never holds the first
      character of the search string. */
  lemma StrReplaceSkipFirstChar(search: string, replace: string, a: string, b: string)
    requires |search| > 0
    requires forall i :: 0 <= i < |a| ==> a[i] != search[0]
    ensures StrReplace(search, replace, a + b) == a + StrReplace(search, replace, b)
  {
    forall i | 0 <= i < |a|
      ensures !MatchAt(a + b, search, i)
    {
      MatchAtChar(a + b, search, i, 0);
    }
    StrReplaceSkip(search, replace, a, b);
  }

  /** An occurrence at the very start is replaced, and the scan resumes
      right after it. */
  lemma StrReplaceHead(search: string, replace: string, b: string)
    requires |search| > 0
    ensures StrReplace(search, replace, search + b) == replace + StrReplace(search, replace, b)
  {
    assert MatchAt(search + b, search, 0);
    assert (search + b)[|search|..] == b;
  }

  /** Text that shares no character with the search string does not contain it. */
  lemma SharesNoCharNotContains(s: string, pat: string)
    requires |pat| > 0 && SharesNoChar(s, pat)
    ensures !Contains(s, pat)
  {
    forall i: nat
      ensures !MatchAt(s, pat, i)
    {
      MatchAtChar(s, pat, i, 0);
    }
  }

  /** A tail that shares no character with the search string can neither hold
      nor complete an occurrence, so `str_replace` works on the head alone. */
  lemma {:induction false} StrReplaceTail(search: string, replace: string, a: string, t: string)
    requires |search| > 0 && SharesNoChar(t, search)
    ensures StrReplace(search, replace, a + t) == StrReplace(search, replace, a) + t
    decreases |a|
  {
    if |a| == 0 {
      assert a + t == t;
      SharesNoCharNotContains(t, search);
      StrReplaceAbsent(search, replace, t);
    } else if MatchAt(a + t, search, 0) {
      if |a| < |search| {
        MatchAtChar(a + t, search, 0, |a|);
        assert false;
      }
      assert a[..|search|] == (a + t)[..|search|];
      assert (a + t)[|search|..] == a[|search|..] + t;
      StrReplaceTail(search, replace, a[|search|..], t);
    } else {
      assert (a + t)[1..] == a[1..] + t;
      StrReplaceTail(search, replace, a[1..], t);
    }
  }
}
