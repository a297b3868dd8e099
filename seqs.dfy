/**
 * Sequence and string helpers shared by the model: `Array.prototype.filter`,
 * the "subsequence in the same order" relation, and `String.prototype.includes`.
 */
module Seqs {

  /** `xs.filter(keep)`: the elements of `xs` that satisfy `keep`, in their original order. */
  function Filter<T(==,!new)>(xs: seq<T>, keep: T -> bool): (r: seq<T>)
    ensures |r| <= |xs|
    ensures forall i :: 0 <= i < |r| ==> r[i] in xs && keep(r[i])
    ensures forall i :: 0 <= i < |xs| && keep(xs[i]) ==> xs[i] in r
    ensures forall x :: multiset(r)[x] == if keep(x) then multiset(xs)[x] else 0
  {
    if xs == [] then []
    else
      assert xs == [xs[0]] + xs[1..];
      assert multiset(xs) == multiset{xs[0]} + multiset(xs[1..]);
      var rest := Filter(xs[1..], keep);
      if keep(xs[0]) then
        assert multiset([xs[0]] + rest) == multiset{xs[0]} + multiset(rest);
        [xs[0]] + rest
      else rest
  }

  /** `a` is obtained from `b` by deleting elements, keeping the order of the rest. */
  predicate IsSubsequence<T(==)>(a: seq<T>, b: seq<T>)
    decreases |b|
  {
    a == [] ||
    (b != [] && ((a[0] == b[0] && IsSubsequence(a[1..], b[1..])) || IsSubsequence(a, b[1..])))
  }

  lemma {:induction false} SubsequenceOfCons<T>(a: seq<T>, x: T, b: seq<T>)
    requires IsSubsequence(a, b)
    ensures IsSubsequence(a, [x] + b)
  {
    if a != [] {
      assert ([x] + b)[1..] == b;
    }
  }

  /** The filtered sequence is a subsequence of the input: nothing is reordered or invented. */
  lemma {:induction false} FilterIsSubsequence<T(!new)>(xs: seq<T>, keep: T -> bool)
    ensures IsSubsequence(Filter(xs, keep), xs)
  {
    if xs != [] {
      FilterIsSubsequence(xs[1..], keep);
      if keep(xs[0]) {
        var r := Filter(xs, keep);
        assert r[0] == xs[0] && r[1..] == Filter(xs[1..], keep);
      } else {
        SubsequenceOfCons(Filter(xs[1..], keep), xs[0], xs[1..]);
        assert [xs[0]] + xs[1..] == xs;
      }
    }
  }

  /** Filtering a sequence whose every element passes returns it unchanged. */
  lemma {:induction false} FilterKeepsAll<T(!new)>(xs: seq<T>, keep: T -> bool)
    requires forall i :: 0 <= i < |xs| ==> keep(xs[i])
    ensures Filter(xs, keep) == xs
  {
    if xs != [] {
      FilterKeepsAll(xs[1..], keep);
      assert [xs[0]] + xs[1..] == xs;
    }
  }

  /** Filtering twice with the same predicate is the same as filtering once. */
  lemma FilterIdempotent<T(!new)>(xs: seq<T>, keep: T -> bool)
    ensures Filter(Filter(xs, keep), keep) == Filter(xs, keep)
  {
    FilterKeepsAll(Filter(xs, keep), keep);
  }

  /**
   * A stricter predicate keeps a subsequence of what a looser one keeps.
   */
  lemma {:induction false} FilterMonotone<T(!new)>(xs: seq<T>, strict: T -> bool, loose: T -> bool)
    requires forall x :: strict(x) ==> loose(x)
    ensures IsSubsequence(Filter(xs, strict), Filter(xs, loose))
  {
    if xs != [] {
      FilterMonotone(xs[1..], strict, loose);
      var s, l := Filter(xs[1..], strict), Filter(xs[1..], loose);
      if strict(xs[0]) {
        assert Filter(xs, strict) == [xs[0]] + s;
        assert Filter(xs, loose) == [xs[0]] + l;
      } else if loose(xs[0]) {
        SubsequenceOfCons(s, xs[0], l);
      }
    }
  }

  /** `s.includes(sub)`: `sub` occurs in `s` at some position. */
  predicate Contains<T(==)>(s: seq<T>, sub: seq<T>) {
    exists i :: 0 <= i <= |s| && sub <= s[i..]
  }

  lemma ContainsAt<T>(s: seq<T>, sub: seq<T>, i: nat)
    requires i + |sub| <= |s| && s[i..i + |sub|] == sub
    ensures Contains(s, sub)
  {
    assert sub <= s[i..];
  }

  /** Every string includes the empty string. */
  lemma ContainsEmpty<T>(s: seq<T>)
    ensures Contains(s, [])
  {
    assert [] <= s[0..];
  }

  /** Occurrence is transitive: an occurrence inside an occurrence is an occurrence. */
  lemma ContainsTransitive<T>(a: seq<T>, b: seq<T>, c: seq<T>)
    requires Contains(a, b) && Contains(b, c)
    ensures Contains(a, c)
  {
    var i :| 0 <= i <= |a| && b <= a[i..];
    var j :| 0 <= j <= |b| && c <= b[j..];
    assert c <= a[i + j..] by {
      forall k | 0 <= k < |c| ensures c[k] == a[i + j + k] {
        assert c[k] == b[j + k] == a[i + j + k];
      }
    }
  }

  /** A string includes every prefix of itself. */
  lemma ContainsPrefix<T>(s: seq<T>, t: seq<T>)
    ensures Contains(s + t, s)
  {
    assert s <= (s + t)[0..];
  }
}
