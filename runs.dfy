/** Runs of one repeated element in a sequence, and the replacement of every
    run of three or more by exactly two. With the newline character this is
    `replace(/\n{3,}/g, "\n\n")`, which the section compiler applies. */
module Runs {

  /** No three `c` in a row anywhere in `s`. */
  predicate NoTriple<T(==)>(s: seq<T>, c: T) {
    forall i :: 0 <= i < |s| - 2 ==> !(s[i] == c && s[i + 1] == c && s[i + 2] == c)
  }

  /** Length of the run of `c` that `s` starts with. */
  function LeadingRun<T(==)>(s: seq<T>, c: T): (k: nat)
    ensures k <= |s|
    ensures forall i :: 0 <= i < k ==> s[i] == c
    ensures k < |s| ==> s[k] != c
  {
    if s != [] && s[0] == c then 1 + LeadingRun(s[1..], c) else 0
  }

  /** Length of the first piece of a non-empty `s`: its leading run of `c`,
      or its first element when that is not `c`. */
  function PieceEnd<T(==)>(s: seq<T>, c: T): (k: nat)
    requires s != []
    ensures 1 <= k <= |s|
  {
    if s[0] != c then 1 else LeadingRun(s, c)
  }

  /** A piece as it comes out: a run of three or more `c` becomes two. */
  function Shorten<T(==)>(p: seq<T>, c: T): seq<T> {
    if |p| >= 3 && p[0] == c then [c, c] else p
  }

  /** Every maximal run of three or more `c` becomes exactly two; shorter
      runs and other elements stay. */
  function Collapse<T(==)>(s: seq<T>, c: T): seq<T>
    decreases |s|
  {
    if s == [] then []
    else
      var k := PieceEnd(s, c);
      Shorten(s[..k], c) + Collapse(s[k..], c)
  }

  /** The collapsed sequence starts like the original: empty iff empty, and
      with the same first element. */
  lemma {:induction false} CollapseFirst<T>(s: seq<T>, c: T)
    ensures Collapse(s, c) == [] <==> s == []
    ensures s != [] ==> Collapse(s, c)[0] == s[0]
  {
  }

  /** The collapsed sequence ends like the original when that does not end
      in `c`. */
  lemma {:induction false} CollapseLast<T>(s: seq<T>, c: T)
    requires s != [] && s[|s| - 1] != c
    ensures Collapse(s, c) != [] && Collapse(s, c)[|Collapse(s, c)| - 1] == s[|s| - 1]
    decreases |s|
  {
    var k := PieceEnd(s, c);
    var head := Shorten(s[..k], c);
    var rest := s[k..];
    assert Collapse(s, c) == head + Collapse(rest, c);
    if k < |s| {
      CollapseLast(rest, c);
      assert rest[|rest| - 1] == s[|s| - 1];
      LastOfAppend(head, Collapse(rest, c));
    } else {
      assert s[0] != c && s[..k] == s && rest == [];
    }
  }

  /** The last element of a concatenation with a non-empty right part. */
  lemma LastOfAppend<T>(x: seq<T>, y: seq<T>)
    requires y != []
    ensures (x + y)[|x + y| - 1] == y[|y| - 1]
  {
  }

  lemma CollapseEnds<T>(s: seq<T>, c: T)
    ensures s != [] && s[|s| - 1] != c ==>
      Collapse(s, c) != [] && Collapse(s, c)[|Collapse(s, c)| - 1] == s[|s| - 1]
  {
    if s != [] && s[|s| - 1] != c {
      CollapseLast(s, c);
    }
  }

  /** Two sequences without a triple `c`, not both touching the cut with a
      `c`, concatenate to one without a triple `c`. */
  lemma NoTripleAppend<T>(a: seq<T>, b: seq<T>, c: T)
    requires NoTriple(a, c) && NoTriple(b, c)
    requires a == [] || b == [] || a[|a| - 1] != c || b[0] != c
    ensures NoTriple(a + b, c)
  {
    var ab := a + b;
    forall i | 0 <= i < |ab| - 2
      ensures !(ab[i] == c && ab[i + 1] == c && ab[i + 2] == c)
    {
      if i + 2 < |a| {
        assert ab[i] == a[i] && ab[i + 1] == a[i + 1] && ab[i + 2] == a[i + 2];
      } else if i >= |a| {
        assert ab[i] == b[i - |a|] && ab[i + 1] == b[i + 1 - |a|] && ab[i + 2] == b[i + 2 - |a|];
      } else {
        assert ab[|a| - 1] == a[|a| - 1] && ab[|a|] == b[0];
      }
    }
  }

  /** A prefix of a sequence without a triple `c` has none either. */
  lemma NoTriplePrefix<T>(s: seq<T>, n: nat, c: T)
    requires NoTriple(s, c) && n <= |s|
    ensures NoTriple(s[..n], c)
  {
    var p := s[..n];
    forall i | 0 <= i < |p| - 2
      ensures !(p[i] == c && p[i + 1] == c && p[i + 2] == c)
    {
      assert p[i] == s[i] && p[i + 1] == s[i + 1] && p[i + 2] == s[i + 2];
    }
  }

  /** The replacement leaves no run of three behind. */
  lemma {:induction false} CollapseNoTriple<T>(s: seq<T>, c: T)
    ensures NoTriple(Collapse(s, c), c)
    decreases |s|
  {
    if s == [] {
    } else if s[0] != c {
      CollapseNoTriple(s[1..], c);
      NoTripleAppend([s[0]], Collapse(s[1..], c), c);
    } else {
      var k := LeadingRun(s, c);
      var head := if k >= 3 then [c, c] else s[..k];
      CollapseNoTriple(s[k..], c);
      CollapseFirst(s[k..], c);
      assert NoTriple(head, c);
      NoTripleAppend(head, Collapse(s[k..], c), c);
    }
  }

  /** A sequence without a triple `c` is a fixed point of the replacement. */
  lemma {:induction false} CollapseFixpoint<T>(s: seq<T>, c: T)
    requires NoTriple(s, c)
    ensures Collapse(s, c) == s
    decreases |s|
  {
    if s == [] {
    } else if s[0] != c {
      CollapseFixpoint(s[1..], c);
      assert s == [s[0]] + s[1..];
    } else {
      var k := LeadingRun(s, c);
      assert NoTriple(s[k..], c) by {
        forall i | 0 <= i < |s[k..]| - 2
          ensures !(s[k..][i] == c && s[k..][i + 1] == c && s[k..][i + 2] == c)
        {
          assert s[k..][i] == s[k + i] && s[k..][i + 1] == s[k + i + 1] && s[k..][i + 2] == s[k + i + 2];
        }
      }
      CollapseFixpoint(s[k..], c);
      if |s| >= 3 {
        assert !(s[0] == c && s[1] == c && s[2] == c);
      }
      assert k < 3;
      assert Collapse(s, c) == s[..k] + Collapse(s[k..], c);
      assert s == s[..k] + s[k..];
    }
  }

  lemma Associative<T>(x: seq<T>, y: seq<T>, z: seq<T>)
    ensures x + (y + z) == (x + y) + z
  {
  }

  /** The replacement works piecewise when no run straddles the cut. */
  lemma {:induction false} CollapseAppend<T>(a: seq<T>, b: seq<T>, c: T)
    requires a == [] || b == [] || a[|a| - 1] != c || b[0] != c
    ensures Collapse(a + b, c) == Collapse(a, c) + Collapse(b, c)
    decreases |a|
  {
    if a == [] {
      assert a + b == b;
    } else {
      var k := PieceEnd(a, c);
      var ab := a + b;
      assert PieceEnd(ab, c) == k by {
        if a[0] == c {
          LeadingRunPrefix(a, b, c);
        }
      }
      assert ab[..k] == a[..k];
      assert ab[k..] == a[k..] + b;
      var head := Shorten(a[..k], c);
      assert Collapse(a, c) == head + Collapse(a[k..], c);
      assert Collapse(ab, c) == head + Collapse(a[k..] + b, c);
      var rest := a[k..];
      if k < |a| {
        CollapseAppend(rest, b, c);
      } else {
        assert rest == [] && rest + b == b;
        assert Collapse(rest, c) == [];
        assert Collapse(rest, c) + Collapse(b, c) == Collapse(b, c);
      }
      Associative(head, Collapse(rest, c), Collapse(b, c));
    }
  }

  /** A run that ends inside `a`, or at its end when `b` does not continue
      it, has the same length in `a + b`. */
  lemma {:induction false} LeadingRunPrefix<T>(a: seq<T>, b: seq<T>, c: T)
    requires a != [] && a[0] == c
    requires LeadingRun(a, c) < |a| || b == [] || b[0] != c
    ensures LeadingRun(a + b, c) == LeadingRun(a, c)
    decreases |a|
  {
    assert (a + b)[1..] == a[1..] + b;
    if |a| > 1 && a[1] == c {
      LeadingRunPrefix(a[1..], b, c);
    } else if |a| == 1 {
      assert a[1..] + b == b;
    }
  }
}
