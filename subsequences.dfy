/** Subsequences and the length of a longest common subsequence, the
    reference the line diff and the suggestion de-duplication are measured
    against. */
module Subsequences {

  /** `c` is `a` with some elements left out, order kept. */
  predicate IsSubseq<T(==)>(c: seq<T>, a: seq<T>)
    decreases |a|
  {
    if c == [] then true
    else if a == [] then false
    else (c[0] == a[0] && IsSubseq(c[1..], a[1..])) || IsSubseq(c, a[1..])
  }

  function Max(x: nat, y: nat): nat {
    if x >= y then x else y
  }

  /** The longest-common-subsequence recurrence on suffixes. */
  function Lcs<T(==)>(a: seq<T>, b: seq<T>): (n: nat)
    ensures n <= |a| && n <= |b|
    decreases |a| + |b|
  {
    if a == [] || b == [] then 0
    else if a[0] == b[0] then 1 + Lcs(a[1..], b[1..])
    else Max(Lcs(a[1..], b), Lcs(a, b[1..]))
  }

  /** The recurrence read at positions `i` and `j`, as a table fills it. */
  lemma LcsAt<T>(a: seq<T>, b: seq<T>, i: nat, j: nat)
    requires i < |a| && j < |b|
    ensures Lcs(a[i..], b[j..]) ==
      if a[i] == b[j] then 1 + Lcs(a[i + 1..], b[j + 1..])
      else Max(Lcs(a[i + 1..], b[j..]), Lcs(a[i..], b[j + 1..]))
  {
    assert a[i..][1..] == a[i + 1..];
    assert b[j..][1..] == b[j + 1..];
  }

  /** The recurrence is symmetric. */
  lemma {:induction false} LcsSymmetric<T>(a: seq<T>, b: seq<T>)
    ensures Lcs(a, b) == Lcs(b, a)
    decreases |a| + |b|
  {
    if a != [] && b != [] {
      if a[0] == b[0] {
        LcsSymmetric(a[1..], b[1..]);
      } else {
        LcsSymmetric(a[1..], b);
        LcsSymmetric(a, b[1..]);
      }
    }
  }

  /** Dropping the first element of `a` never lengthens the result. */
  lemma {:induction false} LcsDropLeft<T>(a: seq<T>, b: seq<T>)
    requires a != []
    ensures Lcs(a[1..], b) <= Lcs(a, b)
    decreases |a| + |b|, 1
  {
    if b != [] && a[0] == b[0] {
      LcsDropRightAtMostOne(a[1..], b);
    }
  }

  /** Dropping the first element of `b` shortens the result by at most one. */
  lemma {:induction false} LcsDropRightAtMostOne<T>(a: seq<T>, b: seq<T>)
    requires b != []
    ensures Lcs(a, b) <= 1 + Lcs(a, b[1..])
    decreases |a| + |b|, 0
  {
    if a != [] {
      if a[0] == b[0] {
        LcsDropLeft(a, b[1..]);
      } else {
        LcsDropRightAtMostOne(a[1..], b);
        LcsDropLeft(a, b[1..]);
      }
    }
  }

  /** No common subsequence is longer than the recurrence's value. */
  lemma {:induction false} LcsUpperBound<T>(c: seq<T>, a: seq<T>, b: seq<T>)
    requires IsSubseq(c, a) && IsSubseq(c, b)
    ensures |c| <= Lcs(a, b)
    decreases |a| + |b|
  {
    if c != [] {
      if IsSubseq(c, a[1..]) {
        LcsUpperBound(c, a[1..], b);
        LcsDropLeft(a, b);
      } else if IsSubseq(c, b[1..]) {
        LcsUpperBound(c, a, b[1..]);
        LcsSymmetric(a, b[1..]);
        LcsDropLeft(b, a);
        LcsSymmetric(b, a);
      } else {
        LcsUpperBound(c[1..], a[1..], b[1..]);
      }
    }
  }

  /** Keeping the first element of both. */
  lemma ConsSubseq<T>(x: T, c: seq<T>, a: seq<T>)
    requires IsSubseq(c, a)
    ensures IsSubseq([x] + c, [x] + a)
  {
    assert ([x] + c)[1..] == c;
    assert ([x] + a)[1..] == a;
  }

  /** Skipping the first element of `a`. */
  lemma SkipSubseq<T>(x: T, c: seq<T>, a: seq<T>)
    requires IsSubseq(c, a)
    ensures IsSubseq(c, [x] + a)
  {
    assert ([x] + a)[1..] == a;
  }

  /** Every sequence is a subsequence of itself. */
  lemma {:induction false} SubseqRefl<T>(a: seq<T>)
    ensures IsSubseq(a, a)
  {
    if a != [] {
      SubseqRefl(a[1..]);
    }
  }
}
