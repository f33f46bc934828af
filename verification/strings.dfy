/**
 Text operations on object keys, with the meaning Python gives them:
 `str.endswith`, substring containment, and `str.replace(old, new)`.
 Strings are plain `seq<char>`; nothing here depends on an encoding.
 */
module Strings {

  /** `w` is a prefix of `s`. */
  predicate StartsWith(s: string, w: string) {
    |w| <= |s| && s[..|w|] == w
  }

  /** `w` is a suffix of `s` (Python's `s.endswith(w)`). */
  predicate EndsWith(s: string, w: string) {
    |w| <= |s| && s[|s| - |w|..] == w
  }

  /** `w` occurs somewhere in `s` (Python's `w in s`). */
  predicate Occurs(s: string, w: string) {
    exists i :: 0 <= i <= |s| && StartsWith(s[i..], w)
  }

  /**
   Python's `s.replace(pat, rep)`: scanning left to right, every occurrence of `pat`
   that does not overlap an earlier replaced one is replaced by `rep`. An empty `pat`
   matches before every character and at the end, so `rep` is inserted there.
   */
  function Replace(s: string, pat: string, rep: string): string
    decreases |s|
  {
    if |pat| == 0 then
      if |s| == 0 then rep else rep + [s[0]] + Replace(s[1..], pat, rep)
    else if StartsWith(s, pat) then
      rep + Replace(s[|pat|..], pat, rep)
    else if |s| == 0 then
      []
    else
      [s[0]] + Replace(s[1..], pat, rep)
  }

  /** An occurrence inside `a + t` either starts inside `a` or is an occurrence in `t`. */
  lemma OccursSplit(a: string, t: string, w: string)
    requires Occurs(a + t, w)
    ensures Occurs(t, w) || exists i :: 0 <= i < |a| && StartsWith((a + t)[i..], w)
  {
    var i :| 0 <= i <= |a + t| && StartsWith((a + t)[i..], w);
    if i >= |a| {
      assert (a + t)[i..] == t[i - |a|..];
    }
  }

  /** An occurrence in a suffix of `s` is an occurrence in `s`. */
  lemma OccursInDrop(s: string, k: nat, w: string)
    requires k <= |s|
    ensures Occurs(s[k..], w) ==> Occurs(s, w)
  {
    if Occurs(s[k..], w) {
      var i :| 0 <= i <= |s[k..]| && StartsWith(s[k..][i..], w);
      assert s[k..][i..] == s[i + k..];
    }
  }

  /** A prefix is an occurrence. */
  lemma StartsWithOccurs(s: string, w: string)
    ensures StartsWith(s, w) ==> Occurs(s, w)
  {
    assert s[0..] == s;
  }

  /** `[c] + t` starts with a non-empty `w` exactly when `c` is its first character and `t` starts with the rest. */
  lemma ConsStartsWith(c: char, t: string, w: string)
    requires |w| > 0
    ensures StartsWith([c] + t, w) <==> c == w[0] && StartsWith(t, w[1..])
  {
    if |w| - 1 <= |t| {
      assert ([c] + t)[..|w|] == [c] + t[..|w| - 1];
    }
  }

  /** An occurrence in `[c] + t` is at its start or inside `t`. */
  lemma OccursCons(c: char, t: string, w: string)
    ensures Occurs([c] + t, w) <==> StartsWith([c] + t, w) || Occurs(t, w)
  {
    StartsWithOccurs([c] + t, w);
    assert ([c] + t)[1..] == t;
    OccursInDrop([c] + t, 1, w);
    if Occurs([c] + t, w) {
      OccursSplit([c], t, w);
      assert ([c] + t)[0..] == [c] + t;
    }
  }

  /** `w` occurs in any text that contains it verbatim. */
  lemma OccursInMiddle(a: string, w: string, b: string)
    ensures Occurs(a + w + b, w)
  {
    var s := a + w + b;
    assert s[|a|..][..|w|] == w;
  }

  /** Replacing a pattern that does not occur leaves the text unchanged. */
  lemma {:induction false} ReplaceAbsent(s: string, pat: string, rep: string)
    requires |pat| > 0 && !Occurs(s, pat)
    ensures Replace(s, pat, rep) == s
    decreases |s|
  {
    if |s| > 0 {
      assert !StartsWith(s[0..], pat);
      assert s[0..] == s;
      OccursInDrop(s, 1, pat);
      ReplaceAbsent(s[1..], pat, rep);
      assert s == [s[0]] + s[1..];
    }
  }

  /**
   When the replacement is at least as long as the pattern the text never shrinks,
   and it strictly grows when the replacement is longer and the pattern occurs.
   */
  lemma {:induction false} ReplaceGrows(s: string, pat: string, rep: string)
    requires 0 < |pat| <= |rep|
    ensures |Replace(s, pat, rep)| >= |s|
    ensures |pat| < |rep| && Occurs(s, pat) ==> |Replace(s, pat, rep)| > |s|
    decreases |s|
  {
    if StartsWith(s, pat) {
      ReplaceGrows(s[|pat|..], pat, rep);
    } else if |s| > 0 {
      ReplaceGrows(s[1..], pat, rep);
      if Occurs(s, pat) {
        var i :| 0 <= i <= |s| && StartsWith(s[i..], pat);
        assert i != 0 by { assert s[0..] == s; }
        assert s[1..][i - 1..] == s[i..];
      }
    }
  }
}
