/**
 Python's string primitives used by the query resolver, on `string` (= `seq<char>`):
 `str.startswith`, `str.find`, `str.replace` (all occurrences), `str.split` and `str.join`.

 `ReplaceAll` is the operation the resolver uses; `Split` and `Join` exist to give it an
 independent characterisation (`s.replace(p, v) == v.join(s.split(p))`).
 */
module Text {
  import opened Options

  /** Python's `s.startswith(pat)`, compared character by character. */
  predicate StartsWith(s: string, pat: string)
    decreases |pat|
  {
    |pat| == 0 || (|s| > 0 && s[0] == pat[0] && StartsWith(s[1..], pat[1..]))
  }

  /** `StartsWith` is exactly "the first `|pat|` characters of `s` are `pat`". */
  lemma {:induction false} StartsWithIsPrefix(s: string, pat: string)
    ensures StartsWith(s, pat) <==> |pat| <= |s| && s[..|pat|] == pat
    decreases |pat|
  {
    if |pat| > 0 && |s| > 0 {
      StartsWithIsPrefix(s[1..], pat[1..]);
      if |pat| <= |s| {
        assert s[..|pat|] == [s[0]] + s[1..][..|pat| - 1];
        assert pat == [pat[0]] + pat[1..];
      }
    }
  }

  /** `pat` occurs in `s` starting at index `i`. */
  predicate OccursAt(s: string, pat: string, i: nat) {
    i <= |s| && StartsWith(s[i..], pat)
  }

  /** Python's `pat in s`. */
  predicate Contains(s: string, pat: string) {
    exists i: nat :: i <= |s| && OccursAt(s, pat, i)
  }

  /** An occurrence in `s[1..]` is an occurrence in `s`, one position later. */
  lemma OccursShift(s: string, pat: string, i: nat)
    requires |s| > 0
    ensures OccursAt(s[1..], pat, i) <==> OccursAt(s, pat, i + 1)
  {
    if i + 1 <= |s| {
      assert s[1..][i..] == s[i + 1..];
    }
  }

  /** An occurrence ends inside the string, and the text there is the pattern. */
  lemma OccursBounds(s: string, pat: string, i: nat)
    requires OccursAt(s, pat, i)
    ensures i + |pat| <= |s|
    ensures s == s[..i] + pat + s[i + |pat|..]
  {
    StartsWithIsPrefix(s[i..], pat);
    assert s[i..][..|pat|] == s[i..i + |pat|];
    assert s == s[..i] + s[i..i + |pat|] + s[i + |pat|..];
  }

  /** An occurrence inside a prefix is an occurrence in the whole string. */
  lemma OccursPrefix(s: string, pat: string, n: nat, i: nat)
    requires n <= |s|
    requires OccursAt(s[..n], pat, i)
    ensures OccursAt(s, pat, i)
  {
    StartsWithIsPrefix(s[..n][i..], pat);
    StartsWithIsPrefix(s[i..], pat);
    assert s[..n][i..][..|pat|] == s[i..][..|pat|];
  }

  /** Python's `s.find(pat)`: the leftmost occurrence, or `None` for -1. */
  function Find(s: string, pat: string): (r: Option<nat>)
    ensures r.Some? ==> OccursAt(s, pat, r.value)
    ensures r.Some? ==> forall j: nat :: j < r.value ==> !OccursAt(s, pat, j)
    ensures r.None? ==> !Contains(s, pat)
    decreases |s|
  {
    if StartsWith(s, pat) then Some(0)
    else if |s| == 0 then None
    else
      match Find(s[1..], pat)
      case None =>
        assert forall j: nat :: !OccursAt(s, pat, j) by {
          forall j: nat ensures !OccursAt(s, pat, j) {
            if j > 0 { OccursShift(s, pat, j - 1); }
          }
        }
        None
      case Some(i) =>
        OccursShift(s, pat, i);
        assert forall j: nat :: j < i + 1 ==> !OccursAt(s, pat, j) by {
          forall j: nat | j < i + 1 ensures !OccursAt(s, pat, j) {
            if j > 0 { OccursShift(s, pat, j - 1); }
          }
        }
        Some(i + 1)
  }

  /** Python's `s.replace("", v)`: `v` before every character and once more at the end. */
  function InterleaveEmpty(s: string, v: string): string
    decreases |s|
  {
    if |s| == 0 then v else v + [s[0]] + InterleaveEmpty(s[1..], v)
  }

  /**
   Python's `s.replace(pat, v)`: find the leftmost occurrence of `pat`, copy what precedes
   it, emit `v`, and carry on in the text AFTER the occurrence. Occurrences therefore never
   overlap, and the text `v` inserts is never searched again.
   */
  function ReplaceAll(s: string, pat: string, v: string): string
    decreases |s|
  {
    if |pat| == 0 then InterleaveEmpty(s, v)
    else
      match Find(s, pat)
      case None => s
      case Some(i) =>
        OccursBounds(s, pat, i);
        s[..i] + v + ReplaceAll(s[i + |pat|..], pat, v)
  }

  /** A string in which the pattern does not occur comes back unchanged. */
  lemma ReplaceAbsent(s: string, pat: string, v: string)
    requires |pat| > 0 && !Contains(s, pat)
    ensures ReplaceAll(s, pat, v) == s
  {
  }

  /** A string that is exactly the pattern becomes `v`, even when `v` contains the pattern. */
  lemma ReplaceWhole(pat: string, v: string)
    requires |pat| > 0
    ensures ReplaceAll(pat, pat, v) == v
  {
    StartsWithIsPrefix(pat, pat);
    assert Find(pat, pat) == Some(0);
    assert pat[|pat|..] == [];
    assert ReplaceAll([], pat, v) == [];
  }

  /** Python's `s.split(sep)` for a non-empty separator (an empty one raises `ValueError`). */
  function Split(s: string, sep: string): (parts: seq<string>)
    requires |sep| > 0
    ensures |parts| >= 1
    decreases |s|
  {
    match Find(s, sep)
    case None => [s]
    case Some(i) =>
      OccursBounds(s, sep, i);
      [s[..i]] + Split(s[i + |sep|..], sep)
  }

  /** No piece of a split contains the separator. */
  lemma {:induction false} SplitPiecesFree(s: string, sep: string)
    requires |sep| > 0
    ensures forall k :: 0 <= k < |Split(s, sep)| ==> !Contains(Split(s, sep)[k], sep)
    decreases |s|
  {
    match Find(s, sep)
    case None =>
    case Some(i) =>
      OccursBounds(s, sep, i);
      assert !Contains(s[..i], sep) by {
        if Contains(s[..i], sep) {
          var j: nat :| j <= i && OccursAt(s[..i], sep, j);
          OccursPrefix(s, sep, i, j);
          assert false;
        }
      }
      SplitPiecesFree(s[i + |sep|..], sep);
  }

  /** Python's `sep.join(parts)`. */
  function Join(parts: seq<string>, sep: string): string
    decreases |parts|
  {
    if |parts| == 0 then ""
    else if |parts| == 1 then parts[0]
    else parts[0] + sep + Join(parts[1..], sep)
  }

  /**
   Appending a part to a non-empty list appends the separator and that part, whatever
   either contains: the join of `parts` is the parts in order with `sep` between them.
   */
  lemma {:induction false} JoinSnoc(parts: seq<string>, x: string, sep: string)
    requires |parts| >= 1
    ensures Join(parts + [x], sep) == Join(parts, sep) + sep + x
    decreases |parts|
  {
    if |parts| > 1 {
      assert (parts + [x])[1..] == parts[1..] + [x];
      JoinSnoc(parts[1..], x, sep);
    }
  }

  /** Joining `[a] + rest` puts exactly one separator after `a`. */
  lemma JoinCons(a: string, rest: seq<string>, sep: string)
    requires |rest| >= 1
    ensures Join([a] + rest, sep) == a + sep + Join(rest, sep)
  {
    assert ([a] + rest)[1..] == rest;
  }

  /** Splitting and joining back with the same separator gives the original string. */
  lemma {:induction false} SplitJoin(s: string, sep: string)
    requires |sep| > 0
    ensures Join(Split(s, sep), sep) == s
    decreases |s|
  {
    match Find(s, sep)
    case None =>
    case Some(i) =>
      OccursBounds(s, sep, i);
      var rest := s[i + |sep|..];
      assert Split(s, sep) == [s[..i]] + Split(rest, sep);
      SplitJoin(rest, sep);
      JoinCons(s[..i], Split(rest, sep), sep);
  }

  /**
   `ReplaceAll` agrees with the reference definition through `Split` and `Join`
   (`s.replace(p, v) == v.join(s.split(p))`): the pieces between occurrences are kept
   and each occurrence becomes `v`.
   */
  lemma {:induction false} ReplaceIsSplitJoin(s: string, pat: string, v: string)
    requires |pat| > 0
    ensures ReplaceAll(s, pat, v) == Join(Split(s, pat), v)
    decreases |s|
  {
    match Find(s, pat)
    case None =>
    case Some(i) =>
      OccursBounds(s, pat, i);
      var rest := s[i + |pat|..];
      assert Split(s, pat) == [s[..i]] + Split(rest, pat);
      assert ReplaceAll(s, pat, v) == s[..i] + v + ReplaceAll(rest, pat, v);
      ReplaceIsSplitJoin(rest, pat, v);
      JoinCons(s[..i], Split(rest, pat), v);
  }

  /** Replacing a pattern by itself changes nothing. */
  lemma ReplaceSelf(s: string, pat: string)
    requires |pat| > 0
    ensures ReplaceAll(s, pat, pat) == s
  {
    ReplaceIsSplitJoin(s, pat, pat);
    SplitJoin(s, pat);
  }
}
