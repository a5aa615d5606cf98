/** Editor completion suggestions (`toUniqueSuggestions` in
    src/lib/powstonSuggestions.ts): a filter that keeps an entry only when
    no earlier entry had its label. */
module Suggestions {
  import opened Wrappers
  import opened Subsequences

  datatype SuggestionKind = Variable | Function | Constant | Property | Class

  /** One completion entry. Only its label takes part in the
      de-duplication; the field is `labelText` because `label` is a Dafny
      keyword. */
  datatype Suggestion = Suggestion(
    labelText: string,
    detail: Option<string>,
    documentation: Option<string>,
    insertText: Option<string>,
    kind: Option<SuggestionKind>)

  function Labels(s: seq<Suggestion>): set<string> {
    set x | x in s :: x.labelText
  }

  /** No two entries share a label. */
  predicate DistinctLabels(s: seq<Suggestion>) {
    forall i, j :: 0 <= i < j < |s| ==> s[i].labelText != s[j].labelText
  }

  /** The entries kept: each one whose label no earlier entry had. */
  function Unique(s: seq<Suggestion>): (r: seq<Suggestion>)
    ensures Labels(r) == Labels(s)
    ensures DistinctLabels(r)
  {
    if s == [] then []
    else
      var init := s[..|s| - 1];
      var last := s[|s| - 1];
      var kept := Unique(init);
      assert Labels(s) == Labels(init) + {last.labelText} by {
        assert s == init + [last];
      }
      if last.labelText in Labels(init) then kept
      else
        assert Labels(kept + [last]) == Labels(kept) + {last.labelText} by {
          assert forall x :: x in kept + [last] <==> x in kept || x == last;
        }
        kept + [last]
  }

  /** The position of the first entry with label `l`, -1 if none. */
  function FirstWith(s: seq<Suggestion>, l: string): (i: int)
    ensures -1 <= i < |s|
    ensures i >= 0 ==> s[i].labelText == l
    ensures forall j :: 0 <= j < |s| && (i < 0 || j < i) ==> s[j].labelText != l
  {
    if s == [] then -1
    else if s[0].labelText == l then 0
    else
      var i := FirstWith(s[1..], l);
      if i < 0 then -1 else i + 1
  }

  /** `FirstWith` on a prefix that already holds the label. */
  lemma {:induction false} FirstWithPrefix(s: seq<Suggestion>, k: nat, l: string)
    requires k <= |s| && FirstWith(s[..k], l) >= 0
    ensures FirstWith(s, l) == FirstWith(s[..k], l)
  {
    var p := s[..k];
    assert p[0] == s[0];
    if s[0].labelText != l {
      assert s[1..][..k - 1] == p[1..];
      assert FirstWith(p, l) == FirstWith(p[1..], l) + 1;
      FirstWithPrefix(s[1..], k - 1, l);
      assert FirstWith(s, l) == FirstWith(s[1..], l) + 1;
    }
  }

  /** An entry that is first with its label in `s` minus its last entry
      is still first with it in `s`. */
  lemma FirstStaysFirst(s: seq<Suggestion>, x: Suggestion)
    requires s != []
    requires FirstWith(s[..|s| - 1], x.labelText) >= 0
    requires x == s[..|s| - 1][FirstWith(s[..|s| - 1], x.labelText)]
    ensures FirstWith(s, x.labelText) >= 0 && x == s[FirstWith(s, x.labelText)]
  {
    FirstWithPrefix(s, |s| - 1, x.labelText);
  }

  /** A last entry whose label is new is the first one with it. */
  lemma NewLabelIsFirst(s: seq<Suggestion>)
    requires s != [] && s[|s| - 1].labelText !in Labels(s[..|s| - 1])
    ensures FirstWith(s, s[|s| - 1].labelText) == |s| - 1
  {
    var init := s[..|s| - 1];
    forall j | 0 <= j < |s| - 1 ensures s[j].labelText != s[|s| - 1].labelText {
      assert s[j] == init[j] && init[j] in init;
    }
  }

  /** Every kept entry is the first one in the input with its label. */
  lemma {:induction false} UniqueKeepsFirst(s: seq<Suggestion>)
    ensures forall i :: 0 <= i < |Unique(s)| ==>
      var j := FirstWith(s, Unique(s)[i].labelText); 0 <= j && Unique(s)[i] == s[j]
  {
    if s != [] {
      var init := s[..|s| - 1];
      var last := s[|s| - 1];
      UniqueKeepsFirst(init);
      var u := Unique(init);
      var r := Unique(s);
      assert r == (if last.labelText in Labels(init) then u else u + [last]);
      forall i | 0 <= i < |r|
        ensures var j := FirstWith(s, r[i].labelText); 0 <= j && r[i] == s[j]
      {
        if i < |u| {
          assert r[i] == u[i];
          FirstStaysFirst(s, u[i]);
        } else {
          NewLabelIsFirst(s);
        }
      }
    }
  }

  /** Subsequence facts at the back end. */
  lemma {:induction false} SubseqSnoc<T>(c: seq<T>, a: seq<T>, x: T)
    requires IsSubseq(c, a)
    ensures IsSubseq(c + [x], a + [x]) && IsSubseq(c, a + [x])
    decreases |a|
  {
    if c == [] {
      assert [] + [x] == [x] && a + [x] != [];
      if a == [] {
        assert IsSubseq([x][1..], []);
      } else {
        assert (a + [x])[1..] == a[1..] + [x];
        SubseqSnoc(c, a[1..], x);
      }
    } else {
      assert (c + [x])[1..] == c[1..] + [x];
      assert (a + [x])[1..] == a[1..] + [x];
      if c[0] == a[0] && IsSubseq(c[1..], a[1..]) {
        SubseqSnoc(c[1..], a[1..], x);
      }
      if IsSubseq(c, a[1..]) {
        SubseqSnoc(c, a[1..], x);
      }
    }
  }

  /** The kept entries are a subsequence of the input: order is kept. */
  lemma {:induction false} UniqueSubseq(s: seq<Suggestion>)
    ensures IsSubseq(Unique(s), s)
  {
    if s != [] {
      var init := s[..|s| - 1];
      UniqueSubseq(init);
      assert s == init + [s[|s| - 1]];
      SubseqSnoc(Unique(init), init, s[|s| - 1]);
    }
  }

  /** A list with distinct labels is left as it is. */
  lemma {:induction false} UniqueDistinct(s: seq<Suggestion>)
    requires DistinctLabels(s)
    ensures Unique(s) == s
  {
    if s != [] {
      var init := s[..|s| - 1];
      assert DistinctLabels(init);
      UniqueDistinct(init);
      assert s[|s| - 1].labelText !in Labels(init) by {
        forall x | x in init ensures x.labelText != s[|s| - 1].labelText {
          var j :| 0 <= j < |init| && init[j] == x;
        }
      }
      assert init + [s[|s| - 1]] == s;
    }
  }

  /** De-duplicating twice is de-duplicating once. */
  lemma UniqueIdempotent(s: seq<Suggestion>)
    ensures Unique(Unique(s)) == Unique(s)
  {
    UniqueDistinct(Unique(s));
  }

  /** `toUniqueSuggestions(suggestions)`: one pass with a set of labels
      already seen. */
  method ToUniqueSuggestions(suggestions: seq<Suggestion>) returns (r: seq<Suggestion>)
    ensures r == Unique(suggestions)
  {
    var seen: set<string> := {};
    r := [];
    var k := 0;
    while k < |suggestions|
      invariant 0 <= k <= |suggestions|
      invariant r == Unique(suggestions[..k])
      invariant seen == Labels(suggestions[..k])
    {
      var entry := suggestions[k];
      assert suggestions[..k + 1][..k] == suggestions[..k];
      assert Labels(suggestions[..k + 1]) == seen + {entry.labelText} by {
        assert suggestions[..k + 1] == suggestions[..k] + [entry];
      }
      if entry.labelText !in seen {
        seen := seen + {entry.labelText};
        r := r + [entry];
      }
      k := k + 1;
    }
    assert suggestions[..|suggestions|] == suggestions;
  }
}
