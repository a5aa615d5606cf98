/** The section compiler: four editable sections plus the ordered helper
    snippets become one script with a fixed `# === NAME ===` header line in
    front of each block (src/lib/compiler.ts). Everything here is a pure
    function of the sections. */
module Compiler {
  import opened Text
  import opened Runs

  const UserParamsHeader: string := "# === USER PARAMS ==="
  const AiTunablesHeader: string := "# === AI TUNABLES ==="
  const HelpersHeader: string := "# === HELPERS ==="
  const MainHeader: string := "# === MAIN ==="

  /** The sections of one template version; an absent list of snippets is
      the empty list. */
  datatype Sections = Sections(
    userParams: string,
    aiTunables: string,
    helpers: string,
    helperSnippets: seq<string>,
    main: string)

  /** No three newlines in a row anywhere in the text. */
  predicate NoTripleNewline(s: string) {
    NoTriple(s, '\n')
  }

  /** `s.replace(/\n{3,}/g, "\n\n")`. */
  function CollapseNewlines(s: string): string {
    Collapse(s, '\n')
  }

  /** `value.trim().replace(/\n{3,}/g, "\n\n")`. */
  function Normalize(s: string): (r: string)
    ensures NoOuterWhitespace(r)
    ensures NoTripleNewline(r)
    ensures r == [] <==> IsBlank(s)
  {
    var t := Trim(s);
    CollapseClean(t);
    CollapseNewlines(t)
  }

  /** Collapsing a text without outer whitespace gives a clean text, empty
      only when the original is. */
  lemma CollapseClean(t: string)
    requires NoOuterWhitespace(t)
    ensures Clean(CollapseNewlines(t)) && (CollapseNewlines(t) == [] <==> t == [])
  {
    CollapseNoTriple(t, '\n');
    CollapseFirst(t, '\n');
    CollapseEnds(t, '\n');
  }

  /** Normalizing twice is normalizing once. */
  lemma NormalizeIdempotent(s: string)
    ensures Normalize(Normalize(s)) == Normalize(s)
  {
    var n := Normalize(s);
    TrimNoop(n);
    CollapseFixpoint(n, '\n');
  }

  /** A text with no triple newline and no whitespace at either end. */
  predicate Clean(s: string) {
    NoOuterWhitespace(s) && NoTripleNewline(s)
  }

  /** Every helper snippet, normalized (`.map(normalize)`). */
  function Normalized(snippets: seq<string>): (r: seq<string>)
    ensures |r| == |snippets|
    ensures forall i :: 0 <= i < |snippets| ==> r[i] == Normalize(snippets[i])
  {
    MapSeq(snippets, Normalize)
  }

  /** `xs.map(f)`. */
  function MapSeq<T, U>(xs: seq<T>, f: T -> U): (r: seq<U>)
    ensures |r| == |xs|
    ensures forall i :: 0 <= i < |xs| ==> r[i] == f(xs[i])
  {
    seq(|xs|, i requires 0 <= i < |xs| => f(xs[i]))
  }

  /** Mapping one more element at the end. */
  lemma MapSeqAppend<T, U>(xs: seq<T>, x: T, f: T -> U)
    ensures MapSeq(xs + [x], f) == MapSeq(xs, f) + [f(x)]
  {
    var a := MapSeq(xs + [x], f);
    var b := MapSeq(xs, f) + [f(x)];
    forall i | 0 <= i < |a| ensures a[i] == b[i] {
      if i < |xs| {
        assert (xs + [x])[i] == xs[i];
      }
    }
  }

  /** The helper snippets, each normalized, the empty ones dropped, in order
      (`.map(normalize).filter(Boolean)`). */
  function NormalizedSnippets(snippets: seq<string>): (r: seq<string>)
    ensures |r| <= |snippets|
    ensures forall k :: 0 <= k < |r| ==> r[k] != "" && Clean(r[k])
  {
    var all := Normalized(snippets);
    assert forall x :: x in all ==> Clean(x);
    DropEmpty(all)
  }

  /** The snippet block: the normalized snippets joined by a blank line. */
  function SnippetBlock(snippets: seq<string>): string
  {
    Join(NormalizedSnippets(snippets), "\n\n")
  }

  /** `[a, b].filter(Boolean)`. */
  function DropEmpty(parts: seq<string>): (r: seq<string>)
    ensures |r| <= |parts|
    ensures forall k :: 0 <= k < |r| ==> r[k] != "" && r[k] in parts
    ensures (forall k :: 0 <= k < |parts| ==> parts[k] == "") ==> r == []
  {
    if parts == [] then []
    else (if parts[0] == "" then [] else [parts[0]]) + DropEmpty(parts[1..])
  }

  /** The combined helpers block: the user's helpers, then the snippet block. */
  function CombinedHelpers(helpers: string, snippetBlock: string): string
  {
    Join(DropEmpty([helpers, snippetBlock]), "\n\n")
  }

  lemma JoinOne(a: string, sep: string)
    ensures Join([a], sep) == a
  {
  }

  lemma JoinTwo(a: string, b: string, sep: string)
    ensures Join([a, b], sep) == a + sep + b
  {
    assert [a, b][1..] == [b];
  }

  lemma DropEmptyPair(a: string, b: string)
    ensures DropEmpty([a, b]) == (if a == "" then [] else [a]) + (if b == "" then [] else [b])
  {
    assert [a, b][1..] == [b];
    assert [b][1..] == [];
    assert DropEmpty([b]) == (if b == "" then [] else [b]) + DropEmpty([]);
    assert DropEmpty([a, b]) == (if a == "" then [] else [a]) + DropEmpty([b]);
  }

  /** Either part is left out when empty; otherwise a blank line separates them. */
  lemma CombinedHelpersShape(helpers: string, snippetBlock: string)
    ensures CombinedHelpers(helpers, snippetBlock) ==
      if helpers == "" then snippetBlock
      else if snippetBlock == "" then helpers
      else helpers + "\n\n" + snippetBlock
  {
    DropEmptyPair(helpers, snippetBlock);
    if helpers == "" && snippetBlock == "" {
    } else if helpers == "" {
      JoinOne(snippetBlock, "\n\n");
    } else if snippetBlock == "" {
      JoinOne(helpers, "\n\n");
    } else {
      JoinTwo(helpers, snippetBlock, "\n\n");
    }
  }

  /** Two clean, non-empty texts with a blank line between give a clean text. */
  lemma CleanSeparated(a: string, b: string)
    requires a != "" && b != "" && Clean(a) && Clean(b)
    ensures Clean(a + "\n\n" + b) && (a + "\n\n" + b)[0] == a[0]
  {
    NoTripleAppend(a, "\n\n", '\n');
    NoTripleAppend(a + "\n\n", b, '\n');
  }

  /** Joining clean, non-empty pieces with a blank line gives a clean text. */
  lemma {:induction false} JoinClean(parts: seq<string>)
    requires forall k :: 0 <= k < |parts| ==> parts[k] != "" && Clean(parts[k])
    ensures Clean(Join(parts, "\n\n"))
    ensures Join(parts, "\n\n") == "" <==> parts == []
    ensures parts != [] ==> Join(parts, "\n\n")[0] == parts[0][0]
  {
    if |parts| > 1 {
      JoinClean(parts[1..]);
      var rest := Join(parts[1..], "\n\n");
      CleanSeparated(parts[0], rest);
    }
  }

  /** Adding one more snippet at the end appends its normalized text after a
      blank line, or changes nothing when it normalizes to nothing. */
  lemma SnippetBlockAppend(snippets: seq<string>, s: string)
    ensures Normalize(s) == "" ==> SnippetBlock(snippets + [s]) == SnippetBlock(snippets)
    ensures Normalize(s) != "" && SnippetBlock(snippets) == "" ==>
      SnippetBlock(snippets + [s]) == Normalize(s)
    ensures Normalize(s) != "" && SnippetBlock(snippets) != "" ==>
      SnippetBlock(snippets + [s]) == SnippetBlock(snippets) + "\n\n" + Normalize(s)
  {
    NormalizedSnippetsAppend(snippets, s);
    var parts := NormalizedSnippets(snippets);
    JoinClean(parts);
    var n := Normalize(s);
    if n != "" {
      JoinAppend(parts, n, "\n\n");
    } else {
      assert parts + [] == parts;
    }
  }

  lemma NormalizedSnippetsAppend(snippets: seq<string>, s: string)
    ensures NormalizedSnippets(snippets + [s]) ==
      NormalizedSnippets(snippets) + (if Normalize(s) == "" then [] else [Normalize(s)])
  {
    MapSeqAppend(snippets, s, Normalize);
    DropEmptyAppend(Normalized(snippets), Normalize(s));
  }

  /** Filtering one more part at the end. */
  lemma {:induction false} DropEmptyAppend(parts: seq<string>, x: string)
    ensures DropEmpty(parts + [x]) == DropEmpty(parts) + (if x == "" then [] else [x])
  {
    var tail: seq<string> := if x == "" then [] else [x];
    if parts == [] {
      assert parts + [x] == [x];
      assert [x][1..] == [];
      assert DropEmpty([x]) == tail + DropEmpty([]);
    } else {
      var p := parts + [x];
      var first: seq<string> := if parts[0] == "" then [] else [parts[0]];
      assert p[0] == parts[0] && p[1..] == parts[1..] + [x];
      DropEmptyAppend(parts[1..], x);
      assert DropEmpty(p) == first + (DropEmpty(parts[1..]) + tail);
      assert DropEmpty(parts) == first + DropEmpty(parts[1..]);
      Associative(first, DropEmpty(parts[1..]), tail);
    }
  }

  lemma {:induction false} JoinAppend(parts: seq<string>, x: string, sep: string)
    ensures Join(parts + [x], sep) == if parts == [] then x else Join(parts, sep) + sep + x
  {
    if |parts| == 0 {
      assert parts + [x] == [x];
    } else if |parts| == 1 {
      assert (parts + [x])[1..] == [x];
    } else {
      assert (parts + [x])[1..] == parts[1..] + [x];
      JoinAppend(parts[1..], x, sep);
    }
  }

  /** The combined helpers block of a version. */
  function HelpersText(s: Sections): string {
    CombinedHelpers(Normalize(s.helpers), SnippetBlock(s.helperSnippets))
  }

  /** The twelve lines `compileTemplate` joins, in order. */
  function Lines(s: Sections): seq<string> {
    [UserParamsHeader, Normalize(s.userParams), "",
     AiTunablesHeader, Normalize(s.aiTunables), "",
     HelpersHeader, HelpersText(s), "",
     MainHeader, Normalize(s.main), ""]
  }

  /** `compileTemplate`: the twelve lines joined by newlines, triple newlines
      collapsed, trailing whitespace removed. */
  function CompileTemplate(s: Sections): string
  {
    TrimEnd(CollapseNewlines(Join(Lines(s), "\n")))
  }

  /** What follows a header in the output: a blank line when the section is
      empty, otherwise the section on the next line and then a blank line. */
  function Block(x: string): string {
    if x == "" then "\n\n" else "\n" + x + "\n\n"
  }

  /** What follows the MAIN header: nothing, or the main section on the next line. */
  function Tail(x: string): string {
    if x == "" then "" else "\n" + x
  }

  /** The combined helpers block is clean, like every normalized section. */
  lemma HelpersTextClean(s: Sections)
    ensures Clean(HelpersText(s))
  {
    var h := Normalize(s.helpers);
    var b := SnippetBlock(s.helperSnippets);
    JoinClean(NormalizedSnippets(s.helperSnippets));
    CombinedHelpersShape(h, b);
    if h != "" && b != "" {
      CleanSeparated(h, b);
    }
  }

  lemma JoinCons(p: string, rest: seq<string>, sep: string)
    requires |rest| >= 1
    ensures Join([p] + rest, sep) == p + sep + Join(rest, sep)
  {
    assert ([p] + rest)[1..] == rest;
  }

  /** Joining a header, a section and an empty line in front of more lines. */
  lemma JoinGroup(h: string, x: string, rest: seq<string>, sep: string)
    requires |rest| >= 1
    ensures Join([h, x, ""] + rest, sep) == h + sep + (x + sep + ("" + sep + Join(rest, sep)))
  {
    assert [h, x, ""] + rest == [h] + ([x] + ([""] + rest));
    JoinCons("", rest, sep);
    JoinCons(x, [""] + rest, sep);
    JoinCons(h, [x] + ([""] + rest), sep);
  }

  lemma JoinLastGroup(h: string, x: string, sep: string)
    ensures Join([h, x, ""], sep) == h + sep + (x + sep + "")
  {
    assert [h, x, ""] == [h] + ([x] + [""]);
    JoinCons(x, [""], sep);
    JoinCons(h, [x] + [""], sep);
  }

  lemma ReassocGroup(h: string, x: string, j: string)
    ensures h + "\n" + (x + "\n" + ("" + "\n" + j)) == h + ("\n" + x + "\n\n") + j
  {
  }

  lemma ReassocLastGroup(h: string, x: string)
    ensures h + "\n" + (x + "\n" + "") == h + ("\n" + x + "\n")
  {
  }

  /** The joined lines, with each header followed by its section block. */
  function Joined(h1: string, x1: string, h2: string, x2: string,
                  h3: string, x3: string, h4: string, x4: string): string
  {
    h1 + ("\n" + x1 + "\n\n") + (h2 + ("\n" + x2 + "\n\n") + (h3 + ("\n" + x3 + "\n\n") + (h4 + ("\n" + x4 + "\n"))))
  }

  lemma JoinLines(h1: string, x1: string, h2: string, x2: string,
                  h3: string, x3: string, h4: string, x4: string)
    ensures Join([h1, x1, "", h2, x2, "", h3, x3, "", h4, x4, ""], "\n") ==
      Joined(h1, x1, h2, x2, h3, x3, h4, x4)
  {
    var g4 := [h4, x4, ""];
    var g3 := [h3, x3, ""] + g4;
    var g2 := [h2, x2, ""] + g3;
    var g1 := [h1, x1, ""] + g2;
    assert g1 == [h1, x1, "", h2, x2, "", h3, x3, "", h4, x4, ""];
    JoinLastGroup(h4, x4, "\n");
    ReassocLastGroup(h4, x4);
    JoinGroup(h3, x3, g4, "\n");
    ReassocGroup(h3, x3, Join(g4, "\n"));
    JoinGroup(h2, x2, g3, "\n");
    ReassocGroup(h2, x2, Join(g3, "\n"));
    JoinGroup(h1, x1, g2, "\n");
    ReassocGroup(h1, x1, Join(g2, "\n"));
  }

  /** A header line: non-empty and without a newline. */
  predicate HeaderLine(h: string) {
    h != [] && '\n' !in h
  }

  lemma CollapseHeader(h: string)
    requires HeaderLine(h)
    ensures CollapseNewlines(h) == h
  {
    CollapseFixpoint(h, '\n');
  }

  /** What collapsing does to the text after one header. */
  lemma CollapseBlock(x: string)
    requires Clean(x)
    ensures CollapseNewlines("\n" + x + "\n\n") == Block(x)
  {
    if x == "" {
      assert "\n" + x + "\n\n" == "\n\n\n";
      assert LeadingRun("\n\n\n", '\n') == 3;
    } else {
      NoTripleAppend("\n", x, '\n');
      NoTripleAppend("\n" + x, "\n\n", '\n');
      CollapseFixpoint("\n" + x + "\n\n", '\n');
    }
  }

  /** What collapsing does to the text after the MAIN header. */
  lemma CollapseLastBlock(x: string)
    requires Clean(x)
    ensures CollapseNewlines("\n" + x + "\n") == if x == "" then "\n\n" else "\n" + x + "\n"
  {
    if x == "" {
      assert "\n" + x + "\n" == "\n\n";
      CollapseFixpoint("\n\n", '\n');
    } else {
      NoTripleAppend("\n", x, '\n');
      NoTripleAppend("\n" + x, "\n", '\n');
      CollapseFixpoint("\n" + x + "\n", '\n');
    }
  }

  /** Collapsing a piece that sits between a header line and text that does
      not start with a newline. */
  lemma CollapseBetween(h: string, m: string, rest: string)
    requires HeaderLine(h)
    requires rest == [] || rest[0] != '\n'
    ensures CollapseNewlines(h + m + rest) == h + CollapseNewlines(m) + CollapseNewlines(rest)
  {
    Associative(h, m, rest);
    assert h[|h| - 1] in h;
    CollapseAppend(h, m + rest, '\n');
    CollapseHeader(h);
    CollapseAppend(m, rest, '\n');
    Associative(h, CollapseNewlines(m), CollapseNewlines(rest));
  }

  /** Collapsing a header line followed by one section block and more text. */
  lemma CollapseGroup(h: string, x: string, rest: string)
    requires HeaderLine(h) && Clean(x)
    requires rest == [] || rest[0] != '\n'
    ensures CollapseNewlines(h + ("\n" + x + "\n\n") + rest) == h + Block(x) + CollapseNewlines(rest)
  {
    CollapseBetween(h, "\n" + x + "\n\n", rest);
    CollapseBlock(x);
  }

  /** Collapsing the MAIN header line and what follows it. */
  lemma CollapseLastGroup(h: string, x: string)
    requires HeaderLine(h) && Clean(x)
    ensures CollapseNewlines(h + ("\n" + x + "\n")) == h + (if x == "" then "\n\n" else "\n" + x + "\n")
  {
    CollapseBetween(h, "\n" + x + "\n", []);
    assert h + ("\n" + x + "\n") + [] == h + ("\n" + x + "\n");
    CollapseLastBlock(x);
  }

  lemma CollapseJoined(h1: string, x1: string, h2: string, x2: string,
                       h3: string, x3: string, h4: string, x4: string)
    requires HeaderLine(h1) && HeaderLine(h2) && HeaderLine(h3) && HeaderLine(h4)
    requires Clean(x1) && Clean(x2) && Clean(x3) && Clean(x4)
    ensures CollapseNewlines(Joined(h1, x1, h2, x2, h3, x3, h4, x4)) ==
      h1 + Block(x1) + (h2 + Block(x2) + (h3 + Block(x3) + (h4 + (if x4 == "" then "\n\n" else "\n" + x4 + "\n"))))
  {
    var j4 := h4 + ("\n" + x4 + "\n");
    CollapseLastGroup(h4, x4);
    assert h4[0] in h4 && j4[0] == h4[0];
    var j3 := h3 + ("\n" + x3 + "\n\n") + j4;
    CollapseGroup(h3, x3, j4);
    assert h3[0] in h3 && j3[0] == h3[0];
    var j2 := h2 + ("\n" + x2 + "\n\n") + j3;
    CollapseGroup(h2, x2, j3);
    assert h2[0] in h2 && j2[0] == h2[0];
    CollapseGroup(h1, x1, j2);
  }

  lemma ReassocNested(a: string, b: string, c: string, d: string, e: string, f: string, g: string, t: string)
    ensures a + b + (c + d + (e + f + (g + t))) == (a + b + c + d + e + f + g) + t
  {
  }

  lemma NewlinesBlank()
    ensures IsBlank("\n") && IsBlank("\n\n")
  {
    assert IsWhitespace('\n');
  }

  /** Dropping the closing newlines after the last section. */
  lemma TrimLastBlock(front: string, x4: string)
    requires front != [] && !IsWhitespace(front[|front| - 1])
    requires Clean(x4)
    ensures TrimEnd(front + (if x4 == "" then "\n\n" else "\n" + x4 + "\n")) == front + Tail(x4)
  {
    NewlinesBlank();
    if x4 == "" {
      TrimEndDropsTail(front, "\n\n");
    } else {
      TrimAfterSection(front, x4);
    }
  }

  lemma TrimAfterSection(front: string, x: string)
    requires x != [] && !IsWhitespace(x[|x| - 1])
    requires IsBlank("\n")
    ensures TrimEnd(front + ("\n" + x + "\n")) == front + ("\n" + x)
  {
    var body := front + ("\n" + x);
    LastOfAppend(front + "\n", x);
    assert front + ("\n" + x + "\n") == body + "\n";
    TrimEndDropsTail(body, "\n");
  }

  lemma TrimNested(h1: string, b1: string, h2: string, b2: string,
                   h3: string, b3: string, h4: string, x4: string)
    requires h4 != [] && !IsWhitespace(h4[|h4| - 1])
    requires Clean(x4)
    ensures TrimEnd(h1 + b1 + (h2 + b2 + (h3 + b3 + (h4 + (if x4 == "" then "\n\n" else "\n" + x4 + "\n"))))) ==
      h1 + b1 + h2 + b2 + h3 + b3 + h4 + Tail(x4)
  {
    var front := h1 + b1 + h2 + b2 + h3 + b3 + h4;
    var tail: string := if x4 == "" then "\n\n" else "\n" + x4 + "\n";
    LastOfAppend(h1 + b1 + h2 + b2 + h3 + b3, h4);
    ReassocNested(h1, b1, h2, b2, h3, b3, h4, tail);
    TrimLastBlock(front, x4);
  }

  lemma TrimJoined(h1: string, x1: string, h2: string, x2: string,
                   h3: string, x3: string, h4: string, x4: string)
    requires HeaderLine(h4) && !IsWhitespace(h4[|h4| - 1])
    requires Clean(x4)
    ensures TrimEnd(h1 + Block(x1) + (h2 + Block(x2) + (h3 + Block(x3) + (h4 + (if x4 == "" then "\n\n" else "\n" + x4 + "\n"))))) ==
      h1 + Block(x1) + h2 + Block(x2) + h3 + Block(x3) + h4 + Tail(x4)
  {
    TrimNested(h1, Block(x1), h2, Block(x2), h3, Block(x3), h4, x4);
  }

  /** The layout of the joined, collapsed and end-trimmed lines for any
      header lines and clean sections. */
  lemma Layout(h1: string, x1: string, h2: string, x2: string,
               h3: string, x3: string, h4: string, x4: string)
    requires HeaderLine(h1) && HeaderLine(h2) && HeaderLine(h3) && HeaderLine(h4)
    requires !IsWhitespace(h4[|h4| - 1])
    requires Clean(x1) && Clean(x2) && Clean(x3) && Clean(x4)
    ensures TrimEnd(CollapseNewlines(Join([h1, x1, "", h2, x2, "", h3, x3, "", h4, x4, ""], "\n"))) ==
      h1 + Block(x1) + h2 + Block(x2) + h3 + Block(x3) + h4 + Tail(x4)
  {
    JoinLines(h1, x1, h2, x2, h3, x3, h4, x4);
    CollapseJoined(h1, x1, h2, x2, h3, x3, h4, x4);
    TrimJoined(h1, x1, h2, x2, h3, x3, h4, x4);
  }

  lemma HeadersAreLines()
    ensures HeaderLine(UserParamsHeader) && HeaderLine(AiTunablesHeader)
    ensures HeaderLine(HelpersHeader) && HeaderLine(MainHeader)
    ensures !IsWhitespace(MainHeader[|MainHeader| - 1])
  {
  }

  /** The exact layout of a compiled script: each header, then its block,
      in the fixed order USER PARAMS, AI TUNABLES, HELPERS, MAIN, with
      nothing after the main section. */
  lemma CompileLayout(s: Sections)
    ensures CompileTemplate(s) ==
      UserParamsHeader + Block(Normalize(s.userParams)) +
      AiTunablesHeader + Block(Normalize(s.aiTunables)) +
      HelpersHeader + Block(HelpersText(s)) +
      MainHeader + Tail(Normalize(s.main))
  {
    HelpersTextClean(s);
    HeadersAreLines();
    Layout(UserParamsHeader, Normalize(s.userParams), AiTunablesHeader, Normalize(s.aiTunables),
           HelpersHeader, HelpersText(s), MainHeader, Normalize(s.main));
  }

  lemma BlockStartsWithNewline(x: string)
    ensures Block(x) != [] && Block(x)[0] == '\n'
  {
  }

  lemma StartsWithFirstLine(h1: string, b1: string, h2: string, b2: string,
                            h3: string, b3: string, h4: string, t: string)
    requires b1 != [] && b1[0] == '\n'
    ensures var w := h1 + b1 + h2 + b2 + h3 + b3 + h4 + t;
      |w| > |h1| && w[..|h1| + 1] == h1 + "\n"
  {
    var w := h1 + b1 + h2 + b2 + h3 + b3 + h4 + t;
    assert w == h1 + (b1 + h2 + b2 + h3 + b3 + h4 + t);
    assert w[|h1|] == b1[0];
  }

  /** The compiled script starts with the USER PARAMS header line. */
  lemma CompileStartsWithUserParams(s: Sections)
    ensures |CompileTemplate(s)| > |UserParamsHeader|
    ensures CompileTemplate(s)[..|UserParamsHeader| + 1] == UserParamsHeader + "\n"
  {
    CompileLayout(s);
    BlockStartsWithNewline(Normalize(s.userParams));
    StartsWithFirstLine(UserParamsHeader, Block(Normalize(s.userParams)),
      AiTunablesHeader, Block(Normalize(s.aiTunables)),
      HelpersHeader, Block(HelpersText(s)),
      MainHeader, Tail(Normalize(s.main)));
  }

  /** The compiled script never holds three newlines in a row. */
  lemma CompileNoTripleNewline(s: Sections)
    ensures NoTripleNewline(CompileTemplate(s))
  {
    var joined := Join(Lines(s), "\n");
    CollapseNoTriple(joined, '\n');
    var c := Collapse(joined, '\n');
    var j := TrimEnd(c);
    NoTriplePrefix(c, |j|, '\n');
    assert j == c[..|j|];
  }

  /** The compiled script does not end in whitespace. */
  lemma CompileNoTrailingWhitespace(s: Sections)
    ensures CompileTemplate(s) != []
    ensures !IsWhitespace(CompileTemplate(s)[|CompileTemplate(s)| - 1])
  {
    CompileStartsWithUserParams(s);
  }

  /** With every section and every snippet blank, the script is exactly the
      four header lines separated by single blank lines. */
  lemma CompileAllBlank(s: Sections)
    requires IsBlank(s.userParams) && IsBlank(s.aiTunables) && IsBlank(s.helpers) && IsBlank(s.main)
    requires forall k :: 0 <= k < |s.helperSnippets| ==> IsBlank(s.helperSnippets[k])
    ensures CompileTemplate(s) ==
      UserParamsHeader + "\n\n" + AiTunablesHeader + "\n\n" + HelpersHeader + "\n\n" + MainHeader
  {
    CompileLayout(s);
    AllBlankSnippets(s.helperSnippets);
    CombinedHelpersShape(Normalize(s.helpers), SnippetBlock(s.helperSnippets));
  }

  lemma AllBlankSnippets(snippets: seq<string>)
    requires forall k :: 0 <= k < |snippets| ==> IsBlank(snippets[k])
    ensures NormalizedSnippets(snippets) == []
  {
    var all := Normalized(snippets);
    assert forall k :: 0 <= k < |all| ==> all[k] == "";
    assert NormalizedSnippets(snippets) == DropEmpty(all);
  }
}
