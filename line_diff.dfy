/** The side-by-side line diff of two versions (`buildLineDiff` in
    src/components/RuleStudio.tsx): a longest-common-subsequence table over
    the two texts' lines, then a walk that emits one row per kept, removed or
    added line. */
module LineDiff {
  import opened Text
  import opened Subsequences

  datatype Kind = Same | Added | Removed

  /** One row of the diff; `line` is its 1-based position. */
  datatype Row = Row(left: string, right: string, status: Kind, line: nat)

  /** The left cells of the rows that show a left line. */
  function Lefts(rows: seq<Row>): seq<string> {
    if rows == [] then []
    else (if rows[0].status == Added then [] else [rows[0].left]) + Lefts(rows[1..])
  }

  /** The right cells of the rows that show a right line. */
  function Rights(rows: seq<Row>): seq<string> {
    if rows == [] then []
    else (if rows[0].status == Removed then [] else [rows[0].right]) + Rights(rows[1..])
  }

  /** The lines of the rows kept on both sides. */
  function Common(rows: seq<Row>): seq<string> {
    if rows == [] then []
    else (if rows[0].status == Same then [rows[0].left] else []) + Common(rows[1..])
  }

  /** A kept row shows the same line on both sides; a removed row has an
      empty right cell and an added row an empty left cell. */
  predicate WellFormed(rows: seq<Row>) {
    forall k :: 0 <= k < |rows| ==>
      (rows[k].status == Same ==> rows[k].left == rows[k].right) &&
      (rows[k].status == Removed ==> rows[k].right == "") &&
      (rows[k].status == Added ==> rows[k].left == "")
  }

  /** Row `k` carries line number `k + 1`. */
  predicate Numbered(rows: seq<Row>) {
    forall k :: 0 <= k < |rows| ==> rows[k].line == k + 1
  }

  /** Appending a row that is well formed and numbered next. */
  lemma AppendRow(rows: seq<Row>, r: Row)
    requires WellFormed(rows) && Numbered(rows) && r.line == |rows| + 1
    requires r.status == Same ==> r.left == r.right
    requires r.status == Removed ==> r.right == ""
    requires r.status == Added ==> r.left == ""
    ensures WellFormed(rows + [r]) && Numbered(rows + [r])
  {
    var rows' := rows + [r];
    assert forall k :: 0 <= k < |rows| ==> rows'[k] == rows[k];
    assert rows'[|rows|] == r;
  }

  lemma {:induction false} LeftsAppend(rows: seq<Row>, r: Row)
    ensures Lefts(rows + [r]) == Lefts(rows) + (if r.status == Added then [] else [r.left])
  {
    if rows != [] {
      assert (rows + [r])[1..] == rows[1..] + [r];
      LeftsAppend(rows[1..], r);
    }
  }

  lemma {:induction false} RightsAppend(rows: seq<Row>, r: Row)
    ensures Rights(rows + [r]) == Rights(rows) + (if r.status == Removed then [] else [r.right])
  {
    if rows != [] {
      assert (rows + [r])[1..] == rows[1..] + [r];
      RightsAppend(rows[1..], r);
    }
  }

  lemma {:induction false} CommonAppend(rows: seq<Row>, r: Row)
    ensures Common(rows + [r]) == Common(rows) + (if r.status == Same then [r.left] else [])
  {
    if rows != [] {
      assert (rows + [r])[1..] == rows[1..] + [r];
      CommonAppend(rows[1..], r);
    }
  }

  /** The kept lines are a common subsequence of the two sides. */
  lemma {:induction false} CommonIsSubseq(rows: seq<Row>)
    requires WellFormed(rows)
    ensures IsSubseq(Common(rows), Lefts(rows)) && IsSubseq(Common(rows), Rights(rows))
  {
    if rows != [] {
      var r, rest := rows[0], rows[1..];
      assert WellFormed(rest) by {
        forall k | 0 <= k < |rest| ensures rest[k] == rows[k + 1] { }
      }
      CommonIsSubseq(rest);
      if r.status == Same {
        ConsSubseq(r.left, Common(rest), Lefts(rest));
        ConsSubseq(r.right, Common(rest), Rights(rest));
      } else if r.status == Removed {
        assert Common(rows) == Common(rest) && Rights(rows) == Rights(rest);
        assert Lefts(rows) == [r.left] + Lefts(rest);
        SkipSubseq(r.left, Common(rest), Lefts(rest));
      } else {
        assert Common(rows) == Common(rest) && Lefts(rows) == Lefts(rest);
        assert Rights(rows) == [r.right] + Rights(rest);
        SkipSubseq(r.right, Common(rest), Rights(rest));
      }
    }
  }

  /** The table `dp[i][j]`: the longest common subsequence of the left lines
      from `i` and the right lines from `j`, filled from the bottom-right
      corner. */
  method LcsTable(a: seq<string>, b: seq<string>) returns (dp: array2<nat>)
    ensures dp.Length0 == |a| + 1 && dp.Length1 == |b| + 1
    ensures forall p, q :: 0 <= p <= |a| && 0 <= q <= |b| ==> dp[p, q] == Lcs(a[p..], b[q..])
  {
    var n, m := |a|, |b|;
    dp := new nat[n + 1, m + 1]((p, q) => 0);
    var i := n - 1;
    while i >= 0
      invariant -1 <= i < n
      invariant forall p, q :: i < p <= n && 0 <= q <= m ==> dp[p, q] == Lcs(a[p..], b[q..])
      invariant forall p :: 0 <= p <= i ==> dp[p, m] == 0
    {
      FillRow(a, b, dp, i);
      i := i - 1;
    }
  }

  /** Row `i` of the table, right to left, from row `i + 1`. */
  method FillRow(a: seq<string>, b: seq<string>, dp: array2<nat>, i: nat)
    requires dp.Length0 == |a| + 1 && dp.Length1 == |b| + 1 && i < |a|
    requires forall q :: 0 <= q <= |b| ==> dp[i + 1, q] == Lcs(a[i + 1..], b[q..])
    requires dp[i, |b|] == 0
    modifies dp
    ensures forall q :: 0 <= q <= |b| ==> dp[i, q] == Lcs(a[i..], b[q..])
    ensures forall p, q :: 0 <= p <= |a| && 0 <= q <= |b| && p != i ==> dp[p, q] == old(dp[p, q])
  {
    var m := |b|;
    assert b[m..] == [];
    var j := m - 1;
    while j >= 0
      invariant -1 <= j < m
      invariant forall q :: j < q <= m ==> dp[i, q] == Lcs(a[i..], b[q..])
      invariant forall p, q :: 0 <= p <= |a| && 0 <= q <= m && p != i ==> dp[p, q] == old(dp[p, q])
    {
      LcsAt(a, b, i, j);
      if a[i] == b[j] {
        dp[i, j] := dp[i + 1, j + 1] + 1;
      } else {
        dp[i, j] := Max(dp[i + 1, j], dp[i, j + 1]);
      }
      j := j - 1;
    }
  }

  /** The rows so far replay the first `i` left lines and the first `j`
      right lines, each row once. */
  predicate Progress(a: seq<string>, b: seq<string>, diff: seq<Row>, i: nat, j: nat) {
    i <= |a| && j <= |b| &&
    Lefts(diff) == a[..i] && Rights(diff) == b[..j] &&
    WellFormed(diff) && Numbered(diff) &&
    |diff| + |Common(diff)| == i + j
  }

  /** The row the walk may emit next: it shows the next line of each side it
      advances on. */
  predicate Fits(a: seq<string>, b: seq<string>, row: Row, i: nat, j: nat) {
    (row.status != Added ==> i < |a| && row.left == a[i]) &&
    (row.status != Removed ==> j < |b| && row.right == b[j]) &&
    (row.status == Same ==> row.left == row.right) &&
    (row.status == Removed ==> row.right == "") &&
    (row.status == Added ==> row.left == "")
  }

  /** The rows of the diff, given the filled table. */
  method Walk(a: seq<string>, b: seq<string>, dp: array2<nat>) returns (diff: seq<Row>)
    requires dp.Length0 == |a| + 1 && dp.Length1 == |b| + 1
    requires forall p, q :: 0 <= p <= |a| && 0 <= q <= |b| ==> dp[p, q] == Lcs(a[p..], b[q..])
    ensures Lefts(diff) == a && Rights(diff) == b && WellFormed(diff)
    ensures |Common(diff)| == Lcs(a, b) && |diff| == |a| + |b| - Lcs(a, b)
    ensures Numbered(diff)
  {
    var n, m := |a|, |b|;
    diff := [];
    var i, j := 0, 0;
    var line := 1;
    assert a[..0] == [] && b[..0] == [];
    while i < n && j < m
      invariant Progress(a, b, diff, i, j) && line == |diff| + 1
      invariant |Common(diff)| + Lcs(a[i..], b[j..]) == Lcs(a, b)
    {
      LcsAt(a, b, i, j);
      var row;
      if a[i] == b[j] {
        row := Row(a[i], b[j], Same, line);
      } else if dp[i + 1, j] >= dp[i, j + 1] {
        row := Row(a[i], "", Removed, line);
      } else {
        row := Row("", b[j], Added, line);
      }
      diff, i, j := Emit(a, b, diff, row, i, j);
      line := line + 1;
    }
    assert Lcs(a[i..], b[j..]) == 0;
    diff := Drain(a, b, diff, i, j);
    assert a[..n] == a && b[..m] == b;
  }

  /** Once one side is used up, the rest of the other side: removed rows for
      the left lines left over, then added rows for the right ones. */
  method Drain(a: seq<string>, b: seq<string>, diff: seq<Row>, i0: nat, j0: nat) returns (diff': seq<Row>)
    requires Progress(a, b, diff, i0, j0) && (i0 == |a| || j0 == |b|)
    ensures Progress(a, b, diff', |a|, |b|) && Common(diff') == Common(diff)
  {
    var n, m := |a|, |b|;
    diff' := diff;
    var i: nat, j: nat := i0, j0;
    var line := |diff| + 1;
    while i < n
      invariant Progress(a, b, diff', i, j) && line == |diff'| + 1
      invariant i < n ==> j == m
      invariant Common(diff') == Common(diff)
    {
      CommonAppend(diff', Row(a[i], "", Removed, line));
      diff', i, j := Emit(a, b, diff', Row(a[i], "", Removed, line), i, j);
      line := line + 1;
    }
    while j < m
      invariant Progress(a, b, diff', i, j) && line == |diff'| + 1
      invariant i == n
      invariant Common(diff') == Common(diff)
    {
      CommonAppend(diff', Row("", b[j], Added, line));
      diff', i, j := Emit(a, b, diff', Row("", b[j], Added, line), i, j);
      line := line + 1;
    }
  }

  /** Pushing one row and advancing past the lines it shows. */
  method Emit(a: seq<string>, b: seq<string>, diff: seq<Row>, row: Row, i: nat, j: nat)
    returns (diff': seq<Row>, i': nat, j': nat)
    requires Progress(a, b, diff, i, j) && Fits(a, b, row, i, j) && row.line == |diff| + 1
    ensures diff' == diff + [row]
    ensures i' == (if row.status == Added then i else i + 1)
    ensures j' == (if row.status == Removed then j else j + 1)
    ensures Progress(a, b, diff', i', j')
    ensures |Common(diff')| == |Common(diff)| + (if row.status == Same then 1 else 0)
  {
    StepProgress(a, b, diff, row, i, j);
    diff' := diff + [row];
    i', j' := i, j;
    if row.status != Added {
      i' := i + 1;
    }
    if row.status != Removed {
      j' := j + 1;
    }
  }

  /** One fitting row keeps the walk's progress, one line further on each
      side the row shows. */
  lemma StepProgress(a: seq<string>, b: seq<string>, diff: seq<Row>, row: Row, i: nat, j: nat)
    requires Progress(a, b, diff, i, j) && Fits(a, b, row, i, j) && row.line == |diff| + 1
    ensures Progress(a, b, diff + [row], if row.status == Added then i else i + 1,
                                         if row.status == Removed then j else j + 1)
    ensures |Common(diff + [row])| == |Common(diff)| + (if row.status == Same then 1 else 0)
  {
    LeftsStep(a, diff, row, i);
    RightsStep(b, diff, row, j);
    CommonAppend(diff, row);
    AppendRow(diff, row);
  }

  /** A row that is not an added one shows the next left line. */
  lemma LeftsStep(a: seq<string>, diff: seq<Row>, row: Row, i: nat)
    requires i <= |a| && Lefts(diff) == a[..i]
    requires row.status != Added ==> i < |a| && row.left == a[i]
    ensures Lefts(diff + [row]) == a[..if row.status == Added then i else i + 1]
  {
    LeftsAppend(diff, row);
    if row.status != Added {
      assert a[..i + 1] == a[..i] + [a[i]];
    }
  }

  /** A row that is not a removed one shows the next right line. */
  lemma RightsStep(b: seq<string>, diff: seq<Row>, row: Row, j: nat)
    requires j <= |b| && Rights(diff) == b[..j]
    requires row.status != Removed ==> j < |b| && row.right == b[j]
    ensures Rights(diff + [row]) == b[..if row.status == Removed then j else j + 1]
  {
    RightsAppend(diff, row);
    if row.status != Removed {
      assert b[..j + 1] == b[..j] + [b[j]];
    }
  }

  /** `buildLineDiff(leftText, rightText)`. The rows replay the left lines
      (skipping added rows) and the right lines (skipping removed rows); the
      kept lines are a longest common subsequence of the two; so the diff
      has the fewest rows any such alignment can have. */
  method BuildLineDiff(leftText: string, rightText: string) returns (diff: seq<Row>)
    ensures var a, b := Split(leftText, '\n'), Split(rightText, '\n');
      Lefts(diff) == a && Rights(diff) == b &&
      WellFormed(diff) &&
      |Common(diff)| == Lcs(a, b) &&
      |diff| == |a| + |b| - Lcs(a, b)
    ensures Join(Lefts(diff), "\n") == leftText && Join(Rights(diff), "\n") == rightText
    ensures Numbered(diff)
  {
    var a := Split(leftText, '\n');
    var b := Split(rightText, '\n');
    var dp := LcsTable(a, b);
    diff := Walk(a, b, dp);
    JoinSplit(leftText, '\n');
    JoinSplit(rightText, '\n');
  }

  /** No alignment of the two sides keeps more lines than the diff does:
      any common subsequence of the lines is at most as long as the kept
      lines. */
  lemma DiffKeepsMost(diff: seq<Row>, c: seq<string>)
    requires WellFormed(diff) && |Common(diff)| == Lcs(Lefts(diff), Rights(diff))
    requires IsSubseq(c, Lefts(diff)) && IsSubseq(c, Rights(diff))
    ensures |c| <= |Common(diff)|
    ensures IsSubseq(Common(diff), Lefts(diff)) && IsSubseq(Common(diff), Rights(diff))
  {
    LcsUpperBound(c, Lefts(diff), Rights(diff));
    CommonIsSubseq(diff);
  }
}
