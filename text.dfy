/**
 * String and sequence helpers: ASCII case mapping (standing in for Python's
 * str.lower and str.capitalize), substring search (Python's `in` on str) and
 * order-preserving subsequences.
 */
module Text {

  predicate IsUpper(c: char) { 'A' <= c <= 'Z' }

  function LowerChar(c: char): (r: char)
    ensures !IsUpper(r)
    ensures !IsUpper(c) ==> r == c
  {
    if IsUpper(c) then (c as int - 'A' as int + 'a' as int) as char else c
  }

  function UpperChar(c: char): (r: char)
    ensures 'a' <= c <= 'z' ==> IsUpper(r) && LowerChar(r) == c
    ensures !('a' <= c <= 'z') ==> r == c
  {
    if 'a' <= c <= 'z' then (c as int - 'a' as int + 'A' as int) as char else c
  }

  /** Lower-cases the ASCII letters of `s`; every other character is kept. */
  function Lower(s: string): (r: string)
    ensures |r| == |s|
    ensures forall i :: 0 <= i < |s| ==> r[i] == LowerChar(s[i])
  {
    seq(|s|, i requires 0 <= i < |s| => LowerChar(s[i]))
  }

  /** A string without ASCII capitals is its own lower-case form. */
  lemma LowerOfLowerIsIdentity(s: string)
    requires forall i :: 0 <= i < |s| ==> !IsUpper(s[i])
    ensures Lower(s) == s
  {
  }

  lemma LowerIsIdempotent(s: string)
    ensures Lower(Lower(s)) == Lower(s)
  {
    LowerOfLowerIsIdentity(Lower(s));
  }

  predicate IsPrefix(k: string, s: string) {
    |k| <= |s| && s[..|k|] == k
  }

  /** `k in s` for Python strings: `k` occurs somewhere in `s`. */
  predicate Contains(s: string, k: string)
    decreases |s|
  {
    IsPrefix(k, s) || (s != [] && Contains(s[1..], k))
  }

  /** `k` occurs in `s` starting at index `i`. */
  predicate OccursAt(s: string, k: string, i: int) {
    0 <= i <= |s| - |k| && s[i..i + |k|] == k
  }

  /** The recursive search agrees with "some window of `s` equals `k`". */
  lemma {:induction false} ContainsIffOccurs(s: string, k: string)
    ensures Contains(s, k) <==> exists i :: OccursAt(s, k, i)
    decreases |s|
  {
    if IsPrefix(k, s) {
      assert OccursAt(s, k, 0);
    } else if s != [] {
      ContainsIffOccurs(s[1..], k);
      if Contains(s[1..], k) {
        var i :| OccursAt(s[1..], k, i);
        assert s[i + 1..i + 1 + |k|] == s[1..][i..i + |k|];
        assert OccursAt(s, k, i + 1);
      }
      forall i | OccursAt(s, k, i)
        ensures Contains(s[1..], k)
      {
        assert i != 0;
        assert s[1..][i - 1..i - 1 + |k|] == s[i..i + |k|];
        assert OccursAt(s[1..], k, i - 1);
      }
    }
  }

  /** A non-empty `k` can only occur in `s` if its first character does. */
  lemma {:induction false} ContainsNeedsFirstChar(s: string, k: string)
    requires k != [] && k[0] !in s
    ensures !Contains(s, k)
    decreases |s|
  {
    if s != [] {
      assert s[0] != k[0];
      assert s[1..] <= s[1..];
      assert forall c :: c in s[1..] ==> c in s;
      ContainsNeedsFirstChar(s[1..], k);
    }
  }

  /** `a` is obtained from `b` by deleting elements (order preserved). */
  predicate IsSubsequence<T(==)>(a: seq<T>, b: seq<T>)
    decreases |b|
  {
    if a == [] then true
    else if b == [] then false
    else if a[0] == b[0] && IsSubsequence(a[1..], b[1..]) then true
    else IsSubsequence(a, b[1..])
  }

  /** Appending an element to `b`, optionally also to `a`, keeps `a` a subsequence. */
  lemma {:induction false} SubsequenceSnoc<T>(a: seq<T>, b: seq<T>, x: T, keep: bool)
    requires IsSubsequence(a, b)
    ensures IsSubsequence(if keep then a + [x] else a, b + [x])
    decreases |b|
  {
    var a' := if keep then a + [x] else a;
    if b == [] {
      assert a == [];
      if keep {
        assert a' == [x];
        assert a'[1..] == [];
        assert (b + [x])[1..] == [];
      }
    } else if a == [] {
      if keep {
        assert a' == [x];
        SubsequenceSnoc([], b[1..], x, true);
        assert (b + [x])[1..] == b[1..] + [x];
      }
    } else if a[0] == b[0] && IsSubsequence(a[1..], b[1..]) {
      SubsequenceSnoc(a[1..], b[1..], x, keep);
      assert a'[0] == a[0];
      assert a'[1..] == if keep then a[1..] + [x] else a[1..];
      assert (b + [x])[1..] == b[1..] + [x];
    } else {
      SubsequenceSnoc(a, b[1..], x, keep);
      assert (b + [x])[1..] == b[1..] + [x];
    }
  }
}
