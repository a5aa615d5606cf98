/** Attributing validator report lines back to the editor sections
    (`mapReportToMarkers` in src/components/RuleStudio.tsx): the compiled
    script's header lines are located, and each reported line goes to the
    last header above it, renumbered from that header. */
module ReportMarkers {
  import opened Wrappers
  import opened Text
  import Compiler

  datatype Section = UserParams | AiTunables | Helpers | Main

  /** The label in the section's header line. */
  function Label(s: Section): string {
    match s
    case UserParams => "USER PARAMS"
    case AiTunables => "AI TUNABLES"
    case Helpers => "HELPERS"
    case Main => "MAIN"
  }

  /** The header line searched for. */
  function HeaderText(s: Section): string {
    "# === " + Label(s) + " ==="
  }

  /** The header line the compiler writes for each section. */
  function CompilerHeader(s: Section): string {
    match s
    case UserParams => Compiler.UserParamsHeader
    case AiTunables => Compiler.AiTunablesHeader
    case Helpers => Compiler.HelpersHeader
    case Main => Compiler.MainHeader
  }

  /** The header line searched for is the one the compiler writes. */
  lemma HeaderTextAgrees(s: Section)
    ensures HeaderText(s) == CompilerHeader(s)
  {
    match s
    case UserParams => UserParamsAgrees();
    case AiTunables => AiTunablesAgrees();
    case Helpers => HelpersAgrees();
    case Main => MainAgrees();
  }

  lemma UserParamsAgrees()
    ensures HeaderText(UserParams) == Compiler.UserParamsHeader
  {
  }

  lemma AiTunablesAgrees()
    ensures HeaderText(AiTunables) == Compiler.AiTunablesHeader
  {
  }

  lemma HelpersAgrees()
    ensures HeaderText(Helpers) == Compiler.HelpersHeader
  {
  }

  lemma MainAgrees()
    ensures HeaderText(Main) == Compiler.MainHeader
  {
  }

  /** The name an error entry gives its section. */
  function ErrorSection(s: Section): string {
    match s
    case UserParams => "User Params"
    case AiTunables => "AI Tunables"
    case Helpers => "Helpers"
    case Main => "Main"
  }

  /** The index of the first line that `f` maps to `text`, -1 if none. */
  function FindWhere(lines: seq<string>, f: string -> string, text: string): (r: int)
    ensures -1 <= r < |lines|
  {
    if lines == [] then -1
    else if f(lines[0]) == text then 0
    else
      var r := FindWhere(lines[1..], f, text);
      if r < 0 then -1 else r + 1
  }

  /** `FindWhere` finds the first matching line, and -1 only when there is none. */
  lemma {:induction false} FindWhereFirst(lines: seq<string>, f: string -> string, text: string)
    ensures FindWhere(lines, f, text) >= 0 ==> f(lines[FindWhere(lines, f, text)]) == text
    ensures forall k :: 0 <= k < |lines| && (FindWhere(lines, f, text) < 0 || k < FindWhere(lines, f, text)) ==>
      f(lines[k]) != text
  {
    if lines != [] && f(lines[0]) != text {
      var tail := lines[1..];
      FindWhereFirst(tail, f, text);
      var r := FindWhere(tail, f, text);
      var i := FindWhere(lines, f, text);
      assert i == if r < 0 then -1 else r + 1;
      if r >= 0 {
        assert lines[i] == tail[r];
      }
      forall k | 1 <= k < |lines| && (i < 0 || k < i)
        ensures f(lines[k]) != text
      {
        assert lines[k] == tail[k - 1];
      }
    }
  }

  /** `lines.findIndex(line => line.trim() === text)`. */
  function FindIndex(lines: seq<string>, text: string): (r: int)
    ensures -1 <= r < |lines|
  {
    FindWhere(lines, Trim, text)
  }

  /** `findIndex` finds the first line that reads, trimmed, as `text`, and
      -1 only when there is none. */
  lemma FindIndexFirst(lines: seq<string>, text: string)
    ensures FindIndex(lines, text) >= 0 ==> Trim(lines[FindIndex(lines, text)]) == text
    ensures forall k :: 0 <= k < |lines| && (FindIndex(lines, text) < 0 || k < FindIndex(lines, text)) ==>
      Trim(lines[k]) != text
  {
    FindWhereFirst(lines, Trim, text);
  }

  /** A located header: its section and its 0-based line index. */
  datatype Header = Header(key: Section, index: int)

  predicate SortedByIndex(hs: seq<Header>) {
    forall i, j :: 0 <= i < j < |hs| ==> hs[i].index <= hs[j].index
  }

  /** One step of the sort by index: `h` goes before the first header that
      is not above it. */
  function Insert(h: Header, hs: seq<Header>): seq<Header> {
    if hs == [] then [h]
    else if h.index <= hs[0].index then [h] + hs
    else [hs[0]] + Insert(h, hs[1..])
  }

  /** Inserting into a sorted list keeps it sorted, and the result starts
      with the new header or with the old first one. */
  lemma {:induction false} InsertSorted(h: Header, hs: seq<Header>)
    requires SortedByIndex(hs)
    ensures var r := Insert(h, hs);
      SortedByIndex(r) && r != [] && (r[0] == h || (hs != [] && r[0] == hs[0]))
  {
    if hs != [] && h.index > hs[0].index {
      var tail := hs[1..];
      assert SortedByIndex(tail) by {
        forall i, j | 0 <= i < j < |tail| ensures tail[i].index <= tail[j].index {
          assert tail[i] == hs[i + 1] && tail[j] == hs[j + 1];
        }
      }
      InsertSorted(h, tail);
      var rest := Insert(h, tail);
      assert hs[0].index <= rest[0].index by {
        if tail != [] { assert tail[0] == hs[1]; }
      }
      SortedCons(hs[0], rest);
    }
  }

  /** A header no later than the first of a sorted list can go in front. */
  lemma SortedCons(h: Header, hs: seq<Header>)
    requires SortedByIndex(hs) && hs != [] && h.index <= hs[0].index
    ensures SortedByIndex([h] + hs)
  {
    var r := [h] + hs;
    forall i, j | 0 <= i < j < |r| ensures r[i].index <= r[j].index {
      assert r[j] == hs[j - 1];
      if i > 0 {
        assert r[i] == hs[i - 1];
      } else if j > 1 {
        assert hs[0].index <= hs[j - 1].index;
      }
    }
  }

  /** Inserting adds exactly the new header. */
  lemma {:induction false} InsertElements(h: Header, hs: seq<Header>)
    ensures multiset(Insert(h, hs)) == multiset(hs) + multiset{h}
  {
    if hs != [] {
      assert hs == [hs[0]] + hs[1..];
      if h.index > hs[0].index {
        InsertElements(h, hs[1..]);
      }
    }
  }

  /** `.sort((a, b) => a.index - b.index)`. */
  function SortByIndex(hs: seq<Header>): (r: seq<Header>)
    ensures SortedByIndex(r) && multiset(r) == multiset(hs)
  {
    if hs == [] then []
    else
      var rest := SortByIndex(hs[1..]);
      InsertSorted(hs[0], rest);
      InsertElements(hs[0], rest);
      assert hs == [hs[0]] + hs[1..];
      Insert(hs[0], rest)
  }

  /** The four headers with their `findIndex` result, in declaration order. */
  function Located(lines: seq<string>): (hs: seq<Header>)
    ensures forall h :: h in hs ==> h.index == FindIndex(lines, HeaderText(h.key))
  {
    [Header(UserParams, FindIndex(lines, HeaderText(UserParams))),
     Header(AiTunables, FindIndex(lines, HeaderText(AiTunables))),
     Header(Helpers, FindIndex(lines, HeaderText(Helpers))),
     Header(Main, FindIndex(lines, HeaderText(Main)))]
  }

  /** Every section is looked up. */
  lemma LocatedEvery(lines: seq<string>, s: Section)
    ensures Header(s, FindIndex(lines, HeaderText(s))) in Located(lines)
  {
    var hs := Located(lines);
    match s
    case UserParams => assert hs[0] == Header(s, FindIndex(lines, HeaderText(s)));
    case AiTunables => assert hs[1] == Header(s, FindIndex(lines, HeaderText(s)));
    case Helpers => assert hs[2] == Header(s, FindIndex(lines, HeaderText(s)));
    case Main => assert hs[3] == Header(s, FindIndex(lines, HeaderText(s)));
  }

  /** `.filter(entry => entry.index >= 0)`. */
  function Keep(hs: seq<Header>): (r: seq<Header>)
    ensures forall h :: h in r <==> h in hs && h.index >= 0
  {
    if hs == [] then []
    else (if hs[0].index >= 0 then [hs[0]] else []) + Keep(hs[1..])
  }

  /** Sorting keeps exactly the elements it was given. */
  lemma SortSameElements(hs: seq<Header>)
    ensures forall h :: h in SortByIndex(hs) <==> h in hs
  {
    var r := SortByIndex(hs);
    forall h ensures h in r <==> h in hs {
      assert h in r <==> h in multiset(r);
      assert h in hs <==> h in multiset(hs);
    }
  }

  /** The headers that occur in the script, in line order. */
  function Headers(lines: seq<string>): (hs: seq<Header>)
    ensures SortedByIndex(hs)
    ensures forall h :: h in hs <==> h in Located(lines) && h.index >= 0
  {
    SortSameElements(Keep(Located(lines)));
    SortByIndex(Keep(Located(lines)))
  }

  /** Every header found sits on a line that reads, trimmed, as that
      section's header, and no earlier line does. */
  lemma HeadersSound(lines: seq<string>)
    ensures forall h :: h in Headers(lines) ==>
      0 <= h.index < |lines| && Trim(lines[h.index]) == HeaderText(h.key) &&
      forall k :: 0 <= k < h.index ==> Trim(lines[k]) != HeaderText(h.key)
  {
    forall h | h in Headers(lines)
      ensures 0 <= h.index < |lines| && Trim(lines[h.index]) == HeaderText(h.key)
      ensures forall k :: 0 <= k < h.index ==> Trim(lines[k]) != HeaderText(h.key)
    {
      assert h in Located(lines) && h.index >= 0;
      FirstLine(lines, HeaderText(h.key), h.index);
    }
  }

  /** What `FindIndex` promises, for a known result. */
  lemma FirstLine(lines: seq<string>, text: string, r: int)
    requires r == FindIndex(lines, text) && r >= 0
    ensures r < |lines| && Trim(lines[r]) == text
    ensures forall k :: 0 <= k < r ==> Trim(lines[k]) != text
  {
    FindIndexFirst(lines, text);
  }

  /** Every section whose header line occurs is found, at or before that
      line. */
  lemma HeadersComplete(lines: seq<string>, s: Section, k: int)
    requires 0 <= k < |lines| && Trim(lines[k]) == HeaderText(s)
    ensures exists h :: h in Headers(lines) && h.key == s && h.index <= k
  {
    var text := HeaderText(s);
    var h := Header(s, FindIndex(lines, text));
    FoundAtOrBefore(lines, text, k);
    LocatedEvery(lines, s);
    HeadersKeep(lines, h);
  }

  /** A line that matches is found, at it or at an earlier match. */
  lemma FoundAtOrBefore(lines: seq<string>, text: string, k: int)
    requires 0 <= k < |lines| && Trim(lines[k]) == text
    ensures 0 <= FindIndex(lines, text) <= k
  {
    FindIndexFirst(lines, text);
  }

  /** A located header with an index is kept. */
  lemma HeadersKeep(lines: seq<string>, h: Header)
    requires h in Located(lines) && h.index >= 0
    ensures h in Headers(lines)
  {
  }

  /** `headers.findLast(entry => line > entry.index + 1)`: the position of
      the last header strictly above the reported 1-based line, -1 if none. */
  function FindLast(hs: seq<Header>, line: int): (k: int)
    ensures -1 <= k < |hs|
    ensures k >= 0 ==> line > hs[k].index + 1
    ensures forall i :: k < i < |hs| ==> line <= hs[i].index + 1
  {
    if hs == [] then -1
    else if line > hs[|hs| - 1].index + 1 then |hs| - 1
    else FindLast(hs[..|hs| - 1], line)
  }

  /** On headers in line order, the header found is the nearest one above
      the line: no other header above the line comes after it. With none
      found, the line is at or before every header. */
  lemma FindLastNearest(hs: seq<Header>, line: int)
    requires SortedByIndex(hs)
    ensures var k := FindLast(hs, line);
      (k >= 0 ==> forall h :: h in hs && line > h.index + 1 ==> h.index <= hs[k].index) &&
      (k < 0 ==> forall h :: h in hs ==> line <= h.index + 1)
  {
  }

  /** A report entry; `line` is `None` when it is not a number. */
  datatype ReportEntry = ReportEntry(line: Option<int>, message: string)

  /** An editor marker on one line of a section. */
  datatype Marker = Marker(startLineNumber: int, startColumn: int, endLineNumber: int,
                           endColumn: int, message: string, severity: string)

  /** An entry of the error list. */
  datatype ErrorEntry = ErrorEntry(section: string, line: int, message: string)

  /** The markers of the three sections that have an editor, and the error
      list. */
  datatype Mapped = Mapped(userParams: seq<Marker>, aiTunables: seq<Marker>, main: seq<Marker>,
                           errors: seq<ErrorEntry>)

  /** Where one report entry goes: its section and its line within the
      section, or `None` when it is dropped. */
  function Attribute(hs: seq<Header>, e: ReportEntry): (r: Option<(Section, int)>)
    ensures r.Some? ==> e.line.Some? && r.value.1 >= 1
    ensures r.Some? ==>
      var k := FindLast(hs, e.line.value);
      0 <= k < |hs| && hs[k].key == r.value.0 && r.value.1 == e.line.value - (hs[k].index + 1)
    ensures e.line.Some? && FindLast(hs, e.line.value) >= 0 ==> r.Some?
  {
    if e.line.None? then None
    else
      var k := FindLast(hs, e.line.value);
      if k < 0 then None
      else
        var localLine := e.line.value - (hs[k].index + 1);
        if localLine < 1 then None
        else Some((hs[k].key, localLine))
  }

  /** The body of the `forEach` callback for one entry. */
  function Step(acc: Mapped, hs: seq<Header>, e: ReportEntry): (r: Mapped)
    ensures Attribute(hs, e).None? ==> r == acc
    ensures Attribute(hs, e).Some? ==>
      var (s, l) := Attribute(hs, e).value;
      r.errors == acc.errors + [ErrorEntry(ErrorSection(s), l, e.message)] &&
      r.userParams == acc.userParams + (if s == UserParams then [Marker(l, 1, l, 1, e.message, "error")] else []) &&
      r.aiTunables == acc.aiTunables + (if s == AiTunables then [Marker(l, 1, l, 1, e.message, "error")] else []) &&
      r.main == acc.main + (if s == Main then [Marker(l, 1, l, 1, e.message, "error")] else [])
  {
    match Attribute(hs, e)
    case None => acc
    case Some((s, l)) =>
      var marker := Marker(l, 1, l, 1, e.message, "error");
      var errors := acc.errors + [ErrorEntry(ErrorSection(s), l, e.message)];
      match s
      case Helpers => acc.(errors := errors)
      case UserParams => acc.(userParams := acc.userParams + [marker], errors := errors)
      case AiTunables => acc.(aiTunables := acc.aiTunables + [marker], errors := errors)
      case Main => acc.(main := acc.main + [marker], errors := errors)
  }

  /** All entries, in report order. */
  function Collect(hs: seq<Header>, report: seq<ReportEntry>): Mapped {
    if report == [] then Mapped([], [], [], [])
    else Step(Collect(hs, report[..|report| - 1]), hs, report[|report| - 1])
  }

  /** Number of entries attributed to some section. */
  function Attributed(hs: seq<Header>, report: seq<ReportEntry>): nat {
    if report == [] then 0
    else Attributed(hs, report[..|report| - 1]) + (if Attribute(hs, report[|report| - 1]).Some? then 1 else 0)
  }

  /** Number of entries attributed to the helpers. */
  function ToHelpers(hs: seq<Header>, report: seq<ReportEntry>): nat {
    if report == [] then 0
    else
      ToHelpers(hs, report[..|report| - 1]) +
      (if Attribute(hs, report[|report| - 1]).Some? && Attribute(hs, report[|report| - 1]).value.0 == Helpers then 1 else 0)
  }

  /** Every attributed entry adds exactly one error; every one except the
      helpers' also adds exactly one marker; every local line is at least 1. */
  lemma {:induction false} CollectCounts(hs: seq<Header>, report: seq<ReportEntry>)
    ensures var m := Collect(hs, report);
      |m.errors| == Attributed(hs, report) &&
      |m.userParams| + |m.aiTunables| + |m.main| + ToHelpers(hs, report) == |m.errors| &&
      (forall i :: 0 <= i < |m.errors| ==> m.errors[i].line >= 1)
  {
    if report != [] {
      CollectCounts(hs, report[..|report| - 1]);
    }
  }

  /** `mapReportToMarkers(report, compiledText)`. */
  method MapReportToMarkers(report: seq<ReportEntry>, compiledText: string) returns (m: Mapped)
    ensures m == Collect(Headers(Split(compiledText, '\n')), report)
  {
    var lines := Split(compiledText, '\n');
    var hs := Headers(lines);
    m := MapEntries(hs, report);
  }

  /** The `forEach` over the report, given the sorted headers. */
  method MapEntries(hs: seq<Header>, report: seq<ReportEntry>) returns (m: Mapped)
    ensures m == Collect(hs, report)
  {
    m := Mapped([], [], [], []);
    var k := 0;
    while k < |report|
      invariant 0 <= k <= |report|
      invariant m == Collect(hs, report[..k])
    {
      var e := report[k];
      assert report[..k + 1][..k] == report[..k];
      ghost var next := Step(m, hs, e);
      assert Collect(hs, report[..k + 1]) == next;
      if e.line.Some? {
        var h := FindLast(hs, e.line.value);
        if h >= 0 {
          var headerLine := hs[h].index + 1;
          var localLine := e.line.value - headerLine;
          if localLine >= 1 {
            var marker := Marker(localLine, 1, localLine, 1, e.message, "error");
            var key := hs[h].key;
            assert Attribute(hs, e) == Some((key, localLine));
            if key == Helpers {
              m := m.(errors := m.errors + [ErrorEntry("Helpers", localLine, e.message)]);
            } else if key == UserParams {
              m := m.(userParams := m.userParams + [marker],
                      errors := m.errors + [ErrorEntry("User Params", localLine, e.message)]);
            } else if key == AiTunables {
              m := m.(aiTunables := m.aiTunables + [marker],
                      errors := m.errors + [ErrorEntry("AI Tunables", localLine, e.message)]);
            } else {
              m := m.(main := m.main + [marker],
                      errors := m.errors + [ErrorEntry("Main", localLine, e.message)]);
            }
          }
        }
      }
      assert m == next;
      k := k + 1;
    }
    assert report[..|report|] == report;
  }
}
