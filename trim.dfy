/**
 * `strings.TrimSpace`, which `Tags` applies to every label it adds, removes or
 * looks up: leading and trailing white space is cut off.
 */
module Trim {

  /** Go's `unicode.IsSpace`: the code points with the Unicode White_Space property. */
  predicate IsSpace(c: char): (b: bool)
    ensures c as int < 0x100 ==> (b <==> c as int in {0x09, 0x0A, 0x0B, 0x0C, 0x0D, 0x20, 0x85, 0xA0})
  {
    var n := c as int;
    || 0x09 <= n <= 0x0D || n == 0x20 || n == 0x85 || n == 0xA0 || n == 0x1680
    || 0x2000 <= n <= 0x200A || n == 0x2028 || n == 0x2029 || n == 0x202F
    || n == 0x205F || n == 0x3000
  }

  /** Neither end of `s` is white space. */
  predicate Trimmed(s: string)
  {
    s == [] || (!IsSpace(s[0]) && !IsSpace(s[|s| - 1]))
  }

  /** `r` is `s[i..i + |r|]`, and every character of `s` outside that infix is white space. */
  predicate CutAt(s: string, r: string, i: int)
  {
    && 0 <= i <= i + |r| <= |s|
    && r == s[i..i + |r|]
    && (forall k :: 0 <= k < i ==> IsSpace(s[k]))
    && (forall k :: i + |r| <= k < |s| ==> IsSpace(s[k]))
  }

  /** The first position at or after `i` that is not white space, or `|s|`. */
  function SkipSpaces(s: string, i: nat): (j: nat)
    requires i <= |s|
    ensures i <= j <= |s|
    ensures j < |s| ==> !IsSpace(s[j])
    decreases |s| - i
  {
    if i < |s| && IsSpace(s[i]) then SkipSpaces(s, i + 1) else i
  }

  /** Everything `SkipSpaces` passes over is white space. */
  lemma {:induction false} SkippedAreSpaces(s: string, i: nat)
    requires i <= |s|
    ensures forall k :: i <= k < SkipSpaces(s, i) ==> IsSpace(s[k])
    decreases |s| - i
  {
    if i < |s| && IsSpace(s[i]) {
      SkippedAreSpaces(s, i + 1);
    }
  }

  /** Going back from `j`, but not below `lo`: the end of the last character that is not white space. */
  function SkipSpacesBack(s: string, lo: nat, j: nat): (k: nat)
    requires lo <= j <= |s|
    ensures lo <= k <= j
    ensures k > lo ==> !IsSpace(s[k - 1])
    decreases j
  {
    if j > lo && IsSpace(s[j - 1]) then SkipSpacesBack(s, lo, j - 1) else j
  }

  /** Everything `SkipSpacesBack` passes over is white space. */
  lemma {:induction false} BackSkippedAreSpaces(s: string, lo: nat, j: nat)
    requires lo <= j <= |s|
    ensures forall k :: SkipSpacesBack(s, lo, j) <= k < j ==> IsSpace(s[k])
    decreases j
  {
    if j > lo && IsSpace(s[j - 1]) {
      BackSkippedAreSpaces(s, lo, j - 1);
    }
  }

  /** `strings.TrimSpace`: the infix from the first to the last character that is not white space. */
  function TrimSpace(s: string): (r: string)
    ensures Trimmed(r)
  {
    var start := SkipSpaces(s, 0);
    s[start..SkipSpacesBack(s, start, |s|)]
  }

  /** Trimming cuts only white space, from the two ends. */
  lemma {:induction false} TrimSpaceCuts(s: string)
    ensures CutAt(s, TrimSpace(s), SkipSpaces(s, 0))
  {
    var start := SkipSpaces(s, 0);
    SkippedAreSpaces(s, 0);
    BackSkippedAreSpaces(s, start, |s|);
  }

  /**
   * Only white space is ever cut, and all of it: the trim of `s` is the one
   * trimmed infix outside which `s` is all white space.
   */
  lemma {:induction false} TrimSpaceUnique(s: string, r: string, i: int)
    requires Trimmed(r) && CutAt(s, r, i)
    ensures TrimSpace(s) == r
  {
    var start := SkipSpaces(s, 0);
    var stop := SkipSpacesBack(s, start, |s|);
    SkippedAreSpaces(s, 0);
    BackSkippedAreSpaces(s, start, |s|);
    if r == [] {
      assert start == |s| by {
        if start < |s| { assert false; }
      }
    } else {
      assert s[i] == r[0] && s[i + |r| - 1] == r[|r| - 1];
      assert start == i;
      assert stop == i + |r| by {
        if stop < i + |r| { assert false; }
        if stop > i + |r| { assert false; }
      }
    }
  }

  /** A label without white space at either end is its own trim. */
  lemma {:induction false} TrimmedIsFixpoint(s: string)
    requires Trimmed(s)
    ensures TrimSpace(s) == s
  {
    assert s[0..|s|] == s;
    TrimSpaceUnique(s, s, 0);
  }

  /** Trimming twice is trimming once. */
  lemma {:induction false} TrimSpaceIdempotent(s: string)
    ensures TrimSpace(TrimSpace(s)) == TrimSpace(s)
  {
    TrimmedIsFixpoint(TrimSpace(s));
  }
}
