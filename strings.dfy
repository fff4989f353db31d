/**
 * The few Python `str` operations the data modules use, with Python's semantics:
 * `s.replace(pat, rep)`, `s.split(pat)[0]`, `s.strip()` and `s.split(" ")`.
 */
module PyStrings {

  /** `pat` occurs in `s` starting at index `i`. */
  predicate OccursAt(s: string, pat: string, i: nat)
  {
    i + |pat| <= |s| && s[i..i + |pat|] == pat
  }

  lemma OccursShift(s: string, pat: string, i: nat)
    requires |s| > 0
    ensures OccursAt(s, pat, i + 1) <==> OccursAt(s[1..], pat, i)
  {
    if i + 1 + |pat| <= |s| {
      assert s[1..][i..i + |pat|] == s[i + 1..i + 1 + |pat|];
    }
  }

  /**
   * Python's `s.replace(pat, rep)` for a non-empty `pat`: a single left-to-right scan that
   * replaces non-overlapping occurrences; text produced by a replacement is not scanned again.
   */
  function ReplaceAll(s: string, pat: string, rep: string): (r: string)
    requires pat != []
    ensures |rep| == |pat| ==> |r| == |s|
    decreases |s|
  {
    if |s| < |pat| then s
    else if s[..|pat|] == pat then rep + ReplaceAll(s[|pat|..], pat, rep)
    else [s[0]] + ReplaceAll(s[1..], pat, rep)
  }

  /** Text in which no occurrence of `pat` starts passes through `replace` verbatim. */
  lemma {:induction false} ReplaceAllSkipsPrefix(a: string, b: string, pat: string, rep: string)
    requires pat != []
    requires forall i :: 0 <= i < |a| ==> !OccursAt(a + b, pat, i)
    ensures ReplaceAll(a + b, pat, rep) == a + ReplaceAll(b, pat, rep)
    decreases |a|
  {
    var s := a + b;
    if a == [] {
      assert s == b;
    } else if |s| < |pat| {
      assert ReplaceAll(b, pat, rep) == b;
    } else {
      assert !OccursAt(s, pat, 0);
      assert s[..|pat|] != pat;
      assert s[1..] == a[1..] + b;
      forall i | 0 <= i < |a[1..]|
        ensures !OccursAt(a[1..] + b, pat, i)
      {
        OccursShift(s, pat, i);
      }
      ReplaceAllSkipsPrefix(a[1..], b, pat, rep);
      assert [s[0]] + a[1..] == a;
    }
  }

  /** `replace` leaves a string without any occurrence of `pat` unchanged. */
  lemma ReplaceAllAbsent(s: string, pat: string, rep: string)
    requires pat != []
    requires forall i :: 0 <= i < |s| ==> !OccursAt(s, pat, i)
    ensures ReplaceAll(s, pat, rep) == s
  {
    assert s + [] == s;
    ReplaceAllSkipsPrefix(s, [], pat, rep);
  }

  /** A character that cannot start `pat` starts no occurrence of it. */
  lemma NoStartNoOccurrence(s: string, pat: string, i: nat)
    requires pat != [] && i < |s| && s[i] != pat[0]
    ensures !OccursAt(s, pat, i)
  {
  }

  /**
   * When `p` holds no character equal to the first character of `pat`, replacing in
   * `p + pat` removes exactly the trailing `pat`.
   */
  lemma {:induction false} ReplaceTrailing(p: string, pat: string, rep: string)
    requires pat != []
    requires pat[0] !in p
    ensures ReplaceAll(p + pat, pat, rep) == p + rep
  {
    forall i | 0 <= i < |p|
      ensures !OccursAt(p + pat, pat, i)
    {
      assert (p + pat)[i] == p[i];
      NoStartNoOccurrence(p + pat, pat, i);
    }
    ReplaceAllSkipsPrefix(p, pat, pat, rep);
    assert pat[|pat|..] == [];
    assert ReplaceAll(pat, pat, rep) == rep + ReplaceAll([], pat, rep);
  }

  /**
   * Python's `s.split(pat)[0]`: the text before the first occurrence of `pat`, or all of
   * `s` when `pat` does not occur.
   */
  function BeforeFirst(s: string, pat: string): (r: string)
    requires pat != []
    ensures |r| <= |s| && r == s[..|r|]
    ensures forall i :: 0 <= i < |r| ==> !OccursAt(s, pat, i)
    ensures |r| < |s| ==> OccursAt(s, pat, |r|)
    ensures |r| == |s| <==> forall i :: 0 <= i < |s| ==> !OccursAt(s, pat, i)
    decreases |s|
  {
    if |s| < |pat| then s
    else if s[..|pat|] == pat then
      assert OccursAt(s, pat, 0);
      []
    else
      var rest := BeforeFirst(s[1..], pat);
      assert forall i :: 1 <= i <= |rest| ==> !OccursAt(s, pat, i) by {
        forall i | 1 <= i <= |rest| ensures !OccursAt(s, pat, i) {
          OccursShift(s, pat, i - 1);
        }
      }
      assert !OccursAt(s, pat, 0);
      OccursShift(s, pat, |rest|);
      [s[0]] + rest
  }

  /** When `pat[0]` does not occur in `p`, `(p + pat + t).split(pat)[0] == p`. */
  lemma BeforeFirstOfPrefix(p: string, pat: string, t: string)
    requires pat != []
    requires pat[0] !in p
    ensures BeforeFirst(p + pat + t, pat) == p
  {
    var s := p + pat + t;
    var r := BeforeFirst(s, pat);
    assert s[|p|..|p| + |pat|] == pat;
    assert OccursAt(s, pat, |p|);
    if |r| < |p| {
      assert s[|r|] == p[|r|];
      NoStartNoOccurrence(s, pat, |r|);
    }
    assert s[..|p|] == p;
  }

  /** The characters Python's `str.strip()` removes: those for which `str.isspace` holds. */
  predicate IsSpace(c: char)
  {
    c == ' ' || '\t' <= c <= '\r' || '\U{1C}' <= c <= '\U{1F}' || c == '\U{85}' || c == '\U{A0}' ||
    c == '\U{1680}' || '\U{2000}' <= c <= '\U{200A}' || c == '\U{2028}' || c == '\U{2029}' ||
    c == '\U{202F}' || c == '\U{205F}' || c == '\U{3000}'
  }

  predicate AllSpace(t: string)
  {
    forall k :: 0 <= k < |t| ==> IsSpace(t[k])
  }

  /** One leading whitespace character in front of what `TrimLeft(s[1..])` strips. */
  lemma TrimLeftStep(s: string, r: string)
    requires s != [] && IsSpace(s[0])
    requires |r| <= |s| - 1 && r == s[1..][|s| - 1 - |r|..] && AllSpace(s[1..][..|s| - 1 - |r|])
    ensures r == s[|s| - |r|..] && AllSpace(s[..|s| - |r|])
  {
    var n := |s| - |r|;
    assert s[1..][n - 1..] == s[n..];
    forall k | 0 < k < n
      ensures IsSpace(s[..n][k])
    {
      assert s[..n][k] == s[1..][..n - 1][k - 1];
    }
  }

  /** One trailing whitespace character after what `TrimRight(s[..|s| - 1])` strips. */
  lemma TrimRightStep(s: string, r: string)
    requires s != [] && IsSpace(s[|s| - 1])
    requires |r| <= |s| - 1 && r == s[..|s| - 1][..|r|] && AllSpace(s[..|s| - 1][|r|..])
    ensures r == s[..|r|] && AllSpace(s[|r|..])
  {
    var n := |r|;
    assert s[..|s| - 1][..n] == s[..n];
    forall k | 0 <= k < |s| - 1 - n
      ensures IsSpace(s[n..][k])
    {
      assert s[n..][k] == s[..|s| - 1][n..][k];
    }
  }

  /** Python's `s.lstrip()`. */
  function TrimLeft(s: string): (r: string)
    ensures |r| <= |s| && r == s[|s| - |r|..]
    ensures AllSpace(s[..|s| - |r|])
    ensures r != [] ==> !IsSpace(r[0])
  {
    if s != [] && IsSpace(s[0]) then
      var r := TrimLeft(s[1..]);
      TrimLeftStep(s, r);
      r
    else s
  }

  /** Python's `s.rstrip()`. */
  function TrimRight(s: string): (r: string)
    ensures |r| <= |s| && r == s[..|r|]
    ensures AllSpace(s[|r|..])
    ensures r != [] ==> !IsSpace(r[|r| - 1])
  {
    if s != [] && IsSpace(s[|s| - 1]) then
      var r := TrimRight(s[..|s| - 1]);
      TrimRightStep(s, r);
      r
    else s
  }

  /** `r` is found in `s` at index `i` with only whitespace around it. */
  predicate PaddedAt(s: string, r: string, i: nat)
  {
    i + |r| <= |s| && s[i..i + |r|] == r && AllSpace(s[..i]) && AllSpace(s[i + |r|..])
  }

  /**
   * `r` is what `s.strip()` returns: `s` with its whitespace run cut from both ends,
   * so `r` sits in `s` with only whitespace around it and neither starts nor ends
   * with whitespace.
   */
  ghost predicate IsStripOf(s: string, r: string)
  {
    (exists i :: 0 <= i <= |s| && PaddedAt(s, r, i)) &&
    (r != [] ==> !IsSpace(r[0]) && !IsSpace(r[|r| - 1])) &&
    (AllSpace(s) ==> r == [])
  }

  /** A whitespace-free core cut out of a suffix of `s` is what `s.strip()` returns. */
  lemma PaddedSuffixPrefix(s: string, l: string, r: string)
    requires |l| <= |s| && l == s[|s| - |l|..] && AllSpace(s[..|s| - |l|])
    requires |r| <= |l| && r == l[..|r|] && AllSpace(l[|r|..])
    requires r != [] ==> !IsSpace(r[|r| - 1])
    requires l != [] ==> !IsSpace(l[0])
    ensures IsStripOf(s, r)
  {
    var i: nat := |s| - |l|;
    assert s[i..i + |r|] == l[..|r|];
    assert s[i + |r|..] == l[|r|..];
    assert PaddedAt(s, r, i);
    if r != [] {
      assert r[0] == l[0] == s[i];
    }
  }

  /** Python's `s.strip()`. */
  function Strip(s: string): (r: string)
    ensures IsStripOf(s, r)
  {
    var l := TrimLeft(s);
    var r := TrimRight(l);
    PaddedSuffixPrefix(s, l, r);
    r
  }

  /** A whitespace-only text holds no other character. */
  lemma AllSpaceExcludes(t: string, c: char)
    requires AllSpace(t) && !IsSpace(c)
    ensures c !in t
  {
  }

  /** A non-space character of `s` survives cutting whitespace off both ends. */
  lemma KeptByTrims(s: string, l: string, r: string, c: char)
    requires |l| <= |s| && l == s[|s| - |l|..] && AllSpace(s[..|s| - |l|])
    requires |r| <= |l| && r == l[..|r|] && AllSpace(l[|r|..])
    requires c in s && !IsSpace(c)
    ensures c in r
  {
    assert s == s[..|s| - |l|] + l;
    AllSpaceExcludes(s[..|s| - |l|], c);
    assert l == r + l[|r|..];
    AllSpaceExcludes(l[|r|..], c);
  }

  /** `strip()` removes only whitespace: every other character of `s` is kept. */
  lemma StripKeepsNonSpace(s: string, i: nat)
    requires i < |s| && !IsSpace(s[i])
    ensures s[i] in Strip(s)
  {
    KeptByTrims(s, TrimLeft(s), TrimRight(TrimLeft(s)), s[i]);
  }

  /**
   * The whitespace Python's `float()` ignores around a number: the ASCII characters
   * " \t\n\v\f\r" and every non-ASCII character `str.isspace` accepts. Unlike `strip()`,
   * it does not include the ASCII separators U+001C to U+001F.
   */
  predicate IsFloatSpace(c: char)
  {
    IsSpace(c) && !('\U{1C}' <= c <= '\U{1F}')
  }

  /** The length of the run of `float()` whitespace that `s` starts with. */
  function LeadingFloatSpace(s: string): (n: nat)
    ensures n <= |s|
    ensures forall i :: 0 <= i < n ==> IsFloatSpace(s[i])
    ensures n < |s| ==> !IsFloatSpace(s[n])
  {
    if s != [] && IsFloatSpace(s[0]) then
      var n := LeadingFloatSpace(s[1..]);
      assert forall i :: 1 <= i < n + 1 ==> s[i] == s[1..][i - 1];
      1 + n
    else 0
  }

  /** The length of the run of `float()` whitespace that `s` ends with. */
  function TrailingFloatSpace(s: string): (n: nat)
    ensures n <= |s|
    ensures forall i :: |s| - n <= i < |s| ==> IsFloatSpace(s[i])
    ensures n < |s| ==> !IsFloatSpace(s[|s| - 1 - n])
  {
    if s != [] && IsFloatSpace(s[|s| - 1]) then 1 + TrailingFloatSpace(s[..|s| - 1]) else 0
  }

  /** `r` is found in `s` at index `i` with only `float()` whitespace around it. */
  predicate FloatPaddedAt(s: string, r: string, i: nat)
  {
    i + |r| <= |s| && s[i..i + |r|] == r &&
    (forall k :: 0 <= k < i ==> IsFloatSpace(s[k])) &&
    (forall k :: i + |r| <= k < |s| ==> IsFloatSpace(s[k]))
  }

  /**
   * The text `float()` converts: `s` without the `float()` whitespace at either end.
   * What is left sits in `s` with only such whitespace around it, neither starts nor
   * ends with such whitespace, and is empty only when `s` is all whitespace.
   */
  function FloatStrip(s: string): (r: string)
    ensures exists i :: 0 <= i <= |s| && FloatPaddedAt(s, r, i)
    ensures |r| <= |s|
    ensures r != [] ==> !IsFloatSpace(r[0]) && !IsFloatSpace(r[|r| - 1])
    ensures r == [] <==> forall i :: 0 <= i < |s| ==> IsFloatSpace(s[i])
  {
    var lead := LeadingFloatSpace(s);
    if lead == |s| then
      assert FloatPaddedAt(s, [], lead);
      []
    else
      var trail := TrailingFloatSpace(s);
      assert lead < |s| - trail;
      assert FloatPaddedAt(s, s[lead..|s| - trail], lead);
      s[lead..|s| - trail]
  }

  /**
   * Whatever sits in `s` with only `float()` whitespace around it and neither starts
   * nor ends with such whitespace is what `float()` converts: the cut is unique.
   */
  lemma FloatStripOfPadded(s: string, r: string, i: nat)
    requires FloatPaddedAt(s, r, i)
    requires r != [] ==> !IsFloatSpace(r[0]) && !IsFloatSpace(r[|r| - 1])
    ensures FloatStrip(s) == r
  {
    var lead := LeadingFloatSpace(s);
    var trail := TrailingFloatSpace(s);
    if r == [] {
      assert forall k :: 0 <= k < |s| ==> IsFloatSpace(s[k]);
    } else {
      assert s[i] == r[0] && s[i + |r| - 1] == r[|r| - 1];
      assert lead == i;
      assert trail == |s| - i - |r|;
    }
  }

  /** `float()` strips only whitespace: every other character of `s` is kept. */
  lemma FloatStripKeeps(s: string, i: nat)
    requires i < |s| && !IsFloatSpace(s[i])
    ensures s[i] in FloatStrip(s)
  {
    var lead := LeadingFloatSpace(s);
    var trail := TrailingFloatSpace(s);
    assert lead <= i < |s| - trail;
    assert FloatStrip(s)[i - lead] == s[i];
  }

  /** A text that neither starts nor ends with `float()` whitespace is converted as it is. */
  lemma FloatStripUnpadded(s: string)
    requires s == [] || (!IsFloatSpace(s[0]) && !IsFloatSpace(s[|s| - 1]))
    ensures FloatStrip(s) == s
  {
    if s != [] {
      assert LeadingFloatSpace(s) == 0 && TrailingFloatSpace(s) == 0;
    }
  }

  /** Python's `sep.join(parts)` for a one-character separator. */
  function JoinWith(parts: seq<string>, sep: char): string
    requires |parts| >= 1
  {
    if |parts| == 1 then parts[0] else parts[0] + [sep] + JoinWith(parts[1..], sep)
  }

  /**
   * Python's `s.split(sep)` with an explicit one-character separator: every separator
   * splits, so adjacent separators yield empty parts and `"".split(sep) == [""]`.
   */
  function Split(s: string, sep: char): (parts: seq<string>)
    ensures |parts| >= 1
    ensures forall k :: 0 <= k < |parts| ==> sep !in parts[k]
    ensures JoinWith(parts, sep) == s
  {
    if s == [] then [[]]
    else
      var rest := Split(s[1..], sep);
      if s[0] == sep then
        assert ([[]] + rest)[1..] == rest;
        [[]] + rest
      else
        var parts := [[s[0]] + rest[0]] + rest[1..];
        assert parts[1..] == rest[1..];
        assert s == [s[0]] + s[1..];
        parts
  }

  /** A part without separators splits to itself. */
  lemma {:induction false} SplitOfPart(p: string, sep: char)
    requires sep !in p
    ensures Split(p, sep) == [p]
  {
    if p != [] {
      SplitOfPart(p[1..], sep);
      assert [p[0]] + p[1..] == p;
    }
  }

  /** A separator right after a separator-free part starts a new part. */
  lemma {:induction false} SplitAfterPart(p: string, sep: char, t: string)
    requires sep !in p
    ensures Split(p + [sep] + t, sep) == [p] + Split(t, sep)
  {
    var s := p + [sep] + t;
    if p != [] {
      assert s[0] == p[0] != sep;
      assert s[1..] == p[1..] + [sep] + t;
      SplitAfterPart(p[1..], sep, t);
      var rest := Split(s[1..], sep);
      assert rest == [p[1..]] + Split(t, sep);
      assert [p[0]] + p[1..] == p;
      assert Split(s, sep) == [[s[0]] + rest[0]] + rest[1..];
    } else {
      assert s == [sep] + t;
      assert s[1..] == t;
    }
  }

  /** `split` undoes `join` for parts without separators: the two are inverse. */
  lemma {:induction false} SplitJoinWith(parts: seq<string>, sep: char)
    requires |parts| >= 1
    requires forall k :: 0 <= k < |parts| ==> sep !in parts[k]
    ensures Split(JoinWith(parts, sep), sep) == parts
  {
    if |parts| == 1 {
      SplitOfPart(parts[0], sep);
    } else {
      SplitJoinWith(parts[1..], sep);
      SplitAfterPart(parts[0], sep, JoinWith(parts[1..], sep));
      assert [parts[0]] + parts[1..] == parts;
    }
  }
}
