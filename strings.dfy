/**
 * Prefix, suffix and search operations on strings, with the facts about
 * concatenation that the rendering and path-resolution proofs rely on.
 */
module Strings {

  predicate StartsWith(s: string, p: string) {
    |p| <= |s| && s[..|p|] == p
  }

  predicate EndsWith(s: string, p: string) {
    |p| <= |s| && s[|s| - |p|..] == p
  }

  /** Index of the first occurrence of `c` in `s`, or `|s|` when there is none. */
  function IndexOf(s: string, c: char): (i: nat)
    ensures i <= |s|
    ensures forall k :: 0 <= k < i ==> s[k] != c
    ensures i < |s| ==> s[i] == c
  {
    if s == [] then 0 else if s[0] == c then 0 else 1 + IndexOf(s[1..], c)
  }

  /** Whether `t` occurs somewhere in `s` (PHP `strpos($s, $t) !== false`). */
  predicate Contains(s: string, t: string) {
    StartsWith(s, t) || (s != [] && Contains(s[1..], t))
  }

  lemma {:induction false} IndexOfAppend(a: string, b: string, c: char)
    requires c !in a
    ensures IndexOf(a + b, c) == |a| + IndexOf(b, c)
  {
    if a != [] {
      assert (a + b)[0] == a[0];
      assert (a + b)[1..] == a[1..] + b;
      IndexOfAppend(a[1..], b, c);
    } else {
      assert a + b == b;
    }
  }

  lemma ContainsAt(s: string, t: string, i: nat)
    requires i + |t| <= |s| && s[i..i + |t|] == t
    ensures Contains(s, t)
    decreases i
  {
    if i > 0 {
      assert s[1..][i - 1..i - 1 + |t|] == s[i..i + |t|];
      ContainsAt(s[1..], t, i - 1);
    }
  }

  /**
   * An occurrence of `t` in `a + b` lies wholly in `a` or wholly in `b`
   * when the first character of `b` cannot be part of `t`.
   */
  lemma {:induction false} ContainsAppend(a: string, b: string, t: string)
    requires |t| > 0
    requires b == [] || b[0] !in t
    ensures Contains(a + b, t) <==> Contains(a, t) || Contains(b, t)
  {
    if a == [] {
      assert a + b == b;
    } else {
      assert (a + b)[1..] == a[1..] + b;
      ContainsAppend(a[1..], b, t);
      if |t| <= |a| {
        assert (a + b)[..|t|] == a[..|t|];
      } else {
        assert !StartsWith(a + b, t) by {
          if |t| <= |a + b| {
            assert (a + b)[..|t|][|a|] == b[0];
            assert t[|a|] in t;
          }
        }
      }
    }
  }

  /** An occurrence of `t` needs at least the first character of `t`. */
  lemma {:induction false} ContainsFirst(s: string, t: string)
    requires t != [] && Contains(s, t)
    ensures t[0] in s
  {
    if StartsWith(s, t) {
      assert s[..|t|][0] == s[0];
    } else {
      ContainsFirst(s[1..], t);
      assert s == [s[0]] + s[1..];
    }
  }
}
