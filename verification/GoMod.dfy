// The go.mod printer of the image build and the go.mod parser of the miner.
module GoMod {
  import opened Prelude
  import opened Text
  import opened Sorting

  // What str.isspace and \s accept in Python.
  predicate IsSpace(c: char) { IsUnicodeSpace(c) || '\U{1c}' <= c <= '\U{1f}' }

  // Where str.splitlines breaks.
  predicate IsBreak(c: char) {
    || '\n' <= c <= '\r' || '\U{1c}' <= c <= '\U{1e}'
    || c == '\U{85}' || c == '\U{2028}' || c == '\U{2029}'
  }

  predicate Unbroken(s: string) { forall i :: 0 <= i < |s| ==> !IsBreak(s[i]) }

  // The end of the first line of s.
  function LineEnd(s: string): (e: nat)
    ensures e <= |s| && (e < |s| ==> IsBreak(s[e]))
  {
    if s == [] || IsBreak(s[0]) then 0 else 1 + LineEnd(s[1..])
  }

  function SplitLines(s: string): seq<string>
    decreases |s|
  {
    if s == [] then []
    else
      var e := LineEnd(s);
      if e == |s| then [s]
      else
        var next := if s[e] == '\r' && e + 1 < |s| && s[e + 1] == '\n' then e + 2 else e + 1;
        [s[..e]] + SplitLines(s[next..])
  }

  lemma {:induction false} LineEndOf(line: string, rest: string)
    requires Unbroken(line) && (rest == "" || IsBreak(rest[0]))
    ensures LineEnd(line + rest) == |line|
  {
    if line == [] {
      assert line + rest == rest;
    } else {
      assert (line + rest)[1..] == line[1..] + rest;
      LineEndOf(line[1..], rest);
    }
  }

  lemma FirstLine(line: string, rest: string)
    requires Unbroken(line)
    ensures SplitLines(line + (['\n'] + rest)) == [line] + SplitLines(rest)
  {
    var s := line + (['\n'] + rest);
    LineEndOf(line, ['\n'] + rest);
    assert s[..|line|] == line && s[|line| + 1..] == rest;
  }

  // splitlines undoes a join of unbroken lines that ends in a newline.
  lemma {:induction false} SplitLinesJoin(lines: seq<string>)
    requires forall i :: 0 <= i < |lines| ==> Unbroken(lines[i])
    ensures SplitLines(Join(lines + [""], '\n')) == lines
  {
    if lines == [] {
      assert lines + [""] == [""];
    } else {
      assert (lines + [""])[1..] == lines[1..] + [""];
      var rest := Join(lines[1..] + [""], '\n');
      assert Join(lines + [""], '\n') == lines[0] + (['\n'] + rest);
      hide Join, SplitLines;
      SplitLinesJoin(lines[1..]);
      FirstLine(lines[0], rest);
    }
  }

  // ---- the parser ----

  datatype Dep = Dep(name: string, version: string)

  // The first "//" in s, or the end of s.
  function SlashesAt(s: string): (k: nat)
    ensures k <= |s|
  {
    if |s| < 2 then |s| else if s[0] == '/' && s[1] == '/' then 0 else 1 + SlashesAt(s[1..])
  }

  function Code(raw: string): string { TrimRight(raw[..SlashesAt(raw)], IsSpace) }

  function Comment(raw: string): string {
    var k := SlashesAt(raw);
    if k + 2 <= |raw| then raw[k + 2..] else ""
  }

  predicate Contains(s: string, part: string) {
    part <= s || (s != [] && Contains(s[1..], part))
  }

  // The longest prefix without white space.
  function Token(s: string): string {
    if s == [] || IsSpace(s[0]) then [] else [s[0]] + Token(s[1..])
  }

  // ^\s*(\S+)\s+(\S+)
  function TwoTokens(s: string): Option<Dep> {
    var t := TrimLeft(s, IsSpace);
    var name := Token(t);
    if |name| > |t| then None
    else
      var version := Token(TrimLeft(t[|name|..], IsSpace));
      if name == "" || version == "" then None else Some(Dep(name, version))
  }

  const REQUIRE: string := "require"

  // ^\s*require\s*\(\s*$
  predicate OpensBlock(raw: string) {
    var t := TrimLeft(raw, IsSpace);
    REQUIRE <= t &&
    var u := TrimLeft(t[|REQUIRE|..], IsSpace);
    u != [] && u[0] == '(' && TrimLeft(u[1..], IsSpace) == []
  }

  // ^\s*require\s+(\S+)\s+(\S+)
  function SingleRequire(code: string): Option<Dep> {
    var t := TrimLeft(code, IsSpace);
    if REQUIRE <= t && |t| > |REQUIRE| && IsSpace(t[|REQUIRE|]) then TwoTokens(t[|REQUIRE|..]) else None
  }

  datatype ParseState = ParseState(inBlock: bool, deps: seq<Dep>)

  // One turn of the parser's loop.
  function Feed(s: ParseState, raw: string): ParseState {
    var code := Code(raw);
    var indirect := Contains(Comment(raw), "indirect");
    if !s.inBlock then
      if OpensBlock(raw) then s.(inBlock := true)
      else
        var m := SingleRequire(code);
        if m.Some? && !indirect then s.(deps := s.deps + [m.value]) else s
    else if Trim(code, IsSpace) == ")" then s.(inBlock := false)
    else if Trim(code, IsSpace) == "" then s
    else
      var m := TwoTokens(code);
      if m.Some? && !indirect then s.(deps := s.deps + [m.value]) else s
  }

  function FeedAll(s: ParseState, lines: seq<string>): ParseState {
    if lines == [] then s else Feed(FeedAll(s, lines[..|lines| - 1]), lines[|lines| - 1])
  }

  const INITIAL: ParseState := ParseState(false, [])

  function ParsedDeps(gomodText: string): seq<Dep> { FeedAll(INITIAL, SplitLines(gomodText)).deps }

  method ParseDirectDeps(gomodText: string) returns (deps: seq<Dep>)
    ensures deps == ParsedDeps(gomodText)
  {
    deps := [];
    var inBlock := false;
    var lines := SplitLines(gomodText);
    for i := 0 to |lines|
      invariant ParseState(inBlock, deps) == FeedAll(INITIAL, lines[..i])
    {
      assert lines[..i + 1][..i] == lines[..i];
      var raw := lines[i];
      var code := Code(raw);
      var indirect := Contains(Comment(raw), "indirect");
      if !inBlock {
        if OpensBlock(raw) {
          inBlock := true;
          continue;
        }
        var m := SingleRequire(code);
        if m.Some? && !indirect {
          deps := deps + [m.value];
        }
        continue;
      }
      if Trim(code, IsSpace) == ")" {
        inBlock := false;
        continue;
      }
      if Trim(code, IsSpace) == "" {
        continue;
      }
      var m := TwoTokens(code);
      if m.Some? && !indirect {
        deps := deps + [m.value];
      }
    }
    assert lines[..|lines|] == lines;
  }

  // ---- the printer ----

  datatype Meta = Meta(source: string, minedAt: string, threshold: string, k: string, generated: string)

  // The long fixed lines are written in two parts: proofs about every character
  // of a literal stay small that way.
  function Header(m: Meta): seq<string> {
    [ "// Baked dependency manifest " + "for the Go sandbox image.",
      "//",
      "// This file is GENERATED " + "— do not edit by hand.",
      "// Source: " + m.source,
      "// Mined:  " + m.minedAt,
      "// Methodology: " + "repo-prevalence ≥ " + m.threshold + "% (see ADR-001)",
      "// K = " + m.k + " packages, generated " + m.generated,
      "",
      "module sandbox/baked",
      "",
      "go 1.26",
      "",
      "require (" ]
  }

  predicate NameLe(a: Dep, b: Dep) { StringLe(a.name, b.name) }

  function SortedByName(packages: seq<Dep>): seq<Dep> { SortBy(NameLe, packages) }

  function Width(packages: seq<Dep>): nat {
    if packages == [] then 0
    else
      var w, n := Width(packages[..|packages| - 1]), |packages[|packages| - 1].name|;
      if w < n then n else w
  }

  function Spaces(n: int): string {
    if n <= 0 then [] else [' '] + Spaces(n - 1)
  }

  // The name padded to the width, two spaces, the version.
  function PackageLine(p: Dep, width: nat): string {
    "\t" + p.name + Spaces(width - |p.name|) + "  " + p.version
  }

  function PackageLines(packages: seq<Dep>, width: nat): seq<string> {
    if packages == [] then []
    else PackageLines(packages[..|packages| - 1], width) + [PackageLine(packages[|packages| - 1], width)]
  }

  function AllLines(m: Meta, packages: seq<Dep>): seq<string> {
    var sorted := SortedByName(packages);
    Header(m) + PackageLines(sorted, Width(sorted)) + [")"]
  }

  // The loop that appends one line per package.
  method BuildLines(m: Meta, sorted: seq<Dep>) returns (lines: seq<string>)
    ensures lines == Header(m) + PackageLines(sorted, Width(sorted)) + [")"] + [""]
  {
    hide Header, Width, PackageLine;
    lines := Header(m);
    var width := Width(sorted);
    for i := 0 to |sorted|
      invariant lines == Header(m) + PackageLines(sorted[..i], width)
    {
      assert sorted[..i + 1][..i] == sorted[..i];
      lines := lines + [PackageLine(sorted[i], width)];
    }
    assert sorted[..|sorted|] == sorted;
    lines := lines + [")"];
    lines := lines + [""];
  }

  // The text of the go.mod file; an empty list has no longest name, which the
  // program does not survive.
  method Generate(m: Meta, packages: seq<Dep>) returns (text: Option<string>)
    ensures packages == [] ==> text == None
    ensures packages != [] ==> text == Some(Join(AllLines(m, packages) + [""], '\n'))
  {
    if packages == [] {
      return None;
    }
    hide Header, SortedByName, Width, PackageLines, Join;
    var lines := BuildLines(m, SortedByName(packages));
    return Some(Join(lines, '\n'));
  }

  // ---- the round trip ----

  predicate NoSpace(s: string) { forall i :: 0 <= i < |s| ==> !IsSpace(s[i]) }

  // Names and versions a go.mod can carry.
  predicate Plain(s: string) { s != "" && NoSpace(s) && SlashesAt(s) == |s| }

  predicate WellFormed(p: Dep) { Plain(p.name) && Plain(p.version) }

  predicate AllWellFormed(packages: seq<Dep>) {
    forall i :: 0 <= i < |packages| ==> WellFormed(packages[i])
  }

  predicate UnbrokenMeta(m: Meta) {
    Unbroken(m.source) && Unbroken(m.minedAt) && Unbroken(m.threshold) && Unbroken(m.k) && Unbroken(m.generated)
  }

  // Outside a block, a line that starts with neither white space nor `r` is inert.
  predicate Inert(line: string) { line == "" || (!IsSpace(line[0]) && line[0] != 'r') }

  lemma {:induction false} TrimRightPrefix(s: string)
    ensures TrimRight(s, IsSpace) <= s
  {
    if s != [] && IsSpace(s[|s| - 1]) {
      TrimRightPrefix(s[..|s| - 1]);
    }
  }

  lemma InertLine(s: ParseState, line: string)
    requires !s.inBlock && Inert(line)
    ensures Feed(s, line) == s
  {
    var front := line[..SlashesAt(line)];
    TrimRightPrefix(front);
    var code := Code(line);
    assert TrimLeft(line, IsSpace) == line;
    assert code != "" ==> code[0] == line[0];
    assert TrimLeft(code, IsSpace) == code;
  }

  // No "//" appears where neither part has one and they do not meet.
  lemma {:induction false} NoSlashes(a: string, b: string)
    requires SlashesAt(a) == |a| && SlashesAt(b) == |b|
    requires a == "" || b == "" || a[|a| - 1] != '/' || b[0] != '/'
    ensures SlashesAt(a + b) == |a + b|
  {
    if a == "" {
      assert a + b == b;
    } else {
      assert (a + b)[1..] == a[1..] + b;
      if |a| >= 2 {
        NoSlashes(a[1..], b);
      } else {
        assert a[1..] + b == b;
      }
    }
  }

  predicate AllSpace(s: string) { forall i :: 0 <= i < |s| ==> IsSpace(s[i]) }

  lemma {:induction false} SpacesInert(n: int)
    ensures AllSpace(Spaces(n)) && Unbroken(Spaces(n)) && SlashesAt(Spaces(n)) == |Spaces(n)|
    ensures forall i :: 0 <= i < |Spaces(n)| ==> Spaces(n)[i] == ' '
  {
    if n > 0 {
      SpacesInert(n - 1);
    }
  }

  lemma {:induction false} TokenOf(a: string, b: string)
    requires NoSpace(a) && (b == "" || IsSpace(b[0]))
    ensures Token(a + b) == a
  {
    if a == "" {
      assert a + b == b;
    } else {
      assert (a + b)[1..] == a[1..] + b;
      TokenOf(a[1..], b);
    }
  }

  lemma {:induction false} TrimLeftOf(space: string, s: string)
    requires AllSpace(space) && (s == "" || !IsSpace(s[0]))
    ensures TrimLeft(space + s, IsSpace) == s
  {
    if space == "" {
      assert space + s == s;
    } else {
      assert (space + s)[1..] == space[1..] + s;
      TrimLeftOf(space[1..], s);
    }
  }

  // A block line of two tokens between white space gives those tokens.
  lemma TokensOf(before: string, name: string, gap: string, version: string)
    requires AllSpace(before) && AllSpace(gap) && gap != ""
    requires NoSpace(name) && name != "" && NoSpace(version) && version != ""
    ensures TwoTokens(before + (name + (gap + version))) == Some(Dep(name, version))
  {
    var rest := gap + version;
    TrimLeftOf(before, name + rest);
    TokenOf(name, rest);
    assert (name + rest)[|name|..] == rest;
    TrimLeftOf(gap, version);
    assert version + "" == version;
    TokenOf(version, "");
  }

  lemma PackageLineShape(p: Dep, width: nat) returns (gap: string)
    requires WellFormed(p)
    ensures PackageLine(p, width) == "\t" + (p.name + (gap + p.version))
    ensures AllSpace(gap) && |gap| >= 2 && SlashesAt(gap) == |gap| && gap[0] == ' ' && Unbroken(gap)
  {
    var pad := Spaces(width - |p.name|);
    SpacesInert(width - |p.name|);
    gap := pad + "  ";
    NoSlashes(pad, "  ");
  }

  lemma PackageLineNoSlashes(name: string, gap: string, version: string)
    requires Plain(name) && Plain(version) && gap != "" && gap[0] == ' ' && AllSpace(gap) && SlashesAt(gap) == |gap|
    ensures var line := "\t" + (name + (gap + version)); SlashesAt(line) == |line|
  {
    assert IsSpace(gap[|gap| - 1]);
    NoSlashes(gap, version);
    NoSlashes(name, gap + version);
    NoSlashes("\t", name + (gap + version));
  }

  // The whole line is code.
  lemma PackageIsCode(line: string)
    requires SlashesAt(line) == |line| && line != "" && !IsSpace(line[|line| - 1])
    ensures Code(line) == line && Comment(line) == ""
  {
    assert line[..|line|] == line;
  }

  lemma PackageTrimmed(name: string, gap: string, version: string)
    requires NoSpace(name) && name != "" && NoSpace(version) && version != ""
    ensures var line := "\t" + (name + (gap + version)); Trim(line, IsSpace) == name + (gap + version)
  {
    TrimLeftOf("\t", name + (gap + version));
    var s := name + (gap + version);
    assert s[|s| - 1] == version[|version| - 1];
  }

  lemma PackageUnbroken(name: string, gap: string, version: string)
    requires NoSpace(name) && NoSpace(version) && Unbroken(gap)
    ensures Unbroken("\t" + (name + (gap + version)))
  {
    assert forall c :: IsBreak(c) ==> IsSpace(c);
  }

  lemma FeedPackage(s: ParseState, p: Dep, width: nat)
    requires s.inBlock && WellFormed(p)
    ensures Feed(s, PackageLine(p, width)) == s.(deps := s.deps + [p]) && Unbroken(PackageLine(p, width))
  {
    var gap := PackageLineShape(p, width);
    var rest := p.name + (gap + p.version);
    var line := "\t" + rest;
    assert line[|line| - 1] == p.version[|p.version| - 1] && |rest| > 1;
    PackageLineNoSlashes(p.name, gap, p.version);
    PackageIsCode(line);
    PackageTrimmed(p.name, gap, p.version);
    TokensOf("\t", p.name, gap, p.version);
    PackageUnbroken(p.name, gap, p.version);
    hide PackageLine, Code, Comment, Trim, TwoTokens, Unbroken, IsSpace;
    assert !Contains("", "indirect");
  }

  lemma {:induction false} FeedPackages(s: ParseState, packages: seq<Dep>, width: nat)
    requires s.inBlock && AllWellFormed(packages)
    ensures FeedAll(s, PackageLines(packages, width)) == s.(deps := s.deps + packages)
    ensures forall i :: 0 <= i < |PackageLines(packages, width)| ==> Unbroken(PackageLines(packages, width)[i])
  {
    hide PackageLine, Feed, Unbroken, WellFormed;
    if packages == [] {
      assert s.deps + [] == s.deps;
    } else {
      var n := |packages| - 1;
      var lines := PackageLines(packages[..n], width);
      FeedPackages(s, packages[..n], width);
      assert PackageLines(packages, width)[..|lines|] == lines;
      FeedPackage(s.(deps := s.deps + packages[..n]), packages[n], width);
      assert packages == packages[..n] + [packages[n]];
    }
  }

  lemma {:induction false} FeedConcat(s: ParseState, a: seq<string>, b: seq<string>)
    ensures FeedAll(s, a + b) == FeedAll(FeedAll(s, a), b)
  {
    hide Feed;
    if b == [] {
      assert a + b == a;
    } else {
      var n := |b| - 1;
      assert (a + b)[..|a + b| - 1] == a + b[..n];
      FeedConcat(s, a, b[..n]);
    }
  }

  lemma {:induction false} FeedInert(s: ParseState, lines: seq<string>)
    requires !s.inBlock && forall i :: 0 <= i < |lines| ==> Inert(lines[i])
    ensures FeedAll(s, lines) == s
  {
    hide Feed, Inert;
    if lines != [] {
      FeedInert(s, lines[..|lines| - 1]);
      InertLine(s, lines[|lines| - 1]);
    }
  }

  lemma OpenLine(s: ParseState)
    requires !s.inBlock
    ensures Feed(s, "require (") == s.(inBlock := true)
  {
    RequireOpens();
    hide OpensBlock, Code, Comment, Contains, SingleRequire;
  }

  lemma RequireOpens()
    ensures OpensBlock("require (")
  {
    var raw := "require (";
    assert TrimLeft(raw, IsSpace) == raw;
    assert raw[|REQUIRE|..] == " (";
    TrimLeftOf(" ", "(");
    assert " " + "(" == " (";
  }

  lemma CloseLine(s: ParseState)
    requires s.inBlock
    ensures Feed(s, ")") == s.(inBlock := false)
  {
    assert ")"[..1] == ")";
    assert Code(")") == ")";
  }

  // The header only opens the block.
  lemma FeedHeader(m: Meta)
    requires UnbrokenMeta(m)
    ensures FeedAll(INITIAL, Header(m)) == INITIAL.(inBlock := true)
    ensures forall i :: 0 <= i < |Header(m)| ==> Unbroken(Header(m)[i])
  {
    var front := Header(m)[..12];
    HeaderLines(m);
    FeedInert(INITIAL, front);
    FeedConcat(INITIAL, front, ["require ("]);
    OpenLine(INITIAL);
    assert ["require ("][..0] == [];
    assert Header(m) == front + ["require ("];
  }

  lemma FixedComments()
    ensures Unbroken("for the Go sandbox image.") && Unbroken("— do not edit by hand.")
    ensures Unbroken("// Baked dependency manifest ") && Unbroken("// This file is GENERATED ")
  {
  }

  lemma MoreComments(m: Meta)
    requires UnbrokenMeta(m)
    ensures Unbroken("repo-prevalence ≥ " + m.threshold + "% (see ADR-001)")
    ensures Unbroken(m.k + " packages, generated " + m.generated)
  {
    assert Unbroken("repo-prevalence ≥ ") && Unbroken("% (see ADR-001)") && Unbroken(" packages, generated ");
  }

  lemma FixedLines(m: Meta)
    ensures forall i :: 0 <= i < 3 ==> Inert(Header(m)[i]) && Unbroken(Header(m)[i])
  {
    var h := Header(m);
    FixedComments();
    assert Unbroken("//") && Unbroken("");
    hide Unbroken, Inert;
    CommentLine("// Baked dependency manifest ", "for the Go sandbox image.");
    CommentLine("//", "");
    CommentLine("// This file is GENERATED ", "— do not edit by hand.");
    assert h[1] == "//" + "";
  }

  lemma MetaLines(m: Meta)
    requires UnbrokenMeta(m)
    ensures forall i :: 3 <= i < 7 ==> Inert(Header(m)[i]) && Unbroken(Header(m)[i])
  {
    var h := Header(m);
    MoreComments(m);
    assert Unbroken("// Source: ") && Unbroken("// Mined:  ");
    assert Unbroken("// Methodology: ") && Unbroken("// K = ");
    hide Unbroken, Inert;
    CommentLine("// Source: ", m.source);
    CommentLine("// Mined:  ", m.minedAt);
    CommentLine("// Methodology: ", "repo-prevalence ≥ " + m.threshold + "% (see ADR-001)");
    CommentLine("// K = ", m.k + " packages, generated " + m.generated);
    assert h[5] == "// Methodology: " + ("repo-prevalence ≥ " + m.threshold + "% (see ADR-001)");
    assert h[6] == "// K = " + (m.k + " packages, generated " + m.generated);
  }

  lemma HeaderLines(m: Meta)
    requires UnbrokenMeta(m)
    ensures forall i :: 0 <= i < 12 ==> Inert(Header(m)[i])
    ensures forall i :: 0 <= i < |Header(m)| ==> Unbroken(Header(m)[i])
  {
    FixedLines(m);
    MetaLines(m);
    assert Unbroken("module sandbox/baked") && Unbroken("go 1.26") && Unbroken("require (") && Unbroken("");
    assert Inert("module sandbox/baked") && Inert("go 1.26") && Inert("");
    hide Unbroken, Inert;
  }

  lemma CommentLine(a: string, b: string)
    requires Unbroken(a) && Unbroken(b) && a != "" && a[0] == '/'
    ensures Inert(a + b) && Unbroken(a + b)
  {
    assert (a + b)[0] == '/';
  }

  // Parsing the generated go.mod gives back the packages in stable name order,
  // for any package list and any metadata without line breaks.
  lemma RoundTrip(m: Meta, packages: seq<Dep>)
    requires UnbrokenMeta(m) && AllWellFormed(packages)
    ensures ParsedDeps(Join(AllLines(m, packages) + [""], '\n')) == SortedByName(packages)
  {
    var sorted := SortedByName(packages);
    var width := Width(sorted);
    SortMultiset(NameLe, packages);
    forall p | p in sorted ensures WellFormed(p) {
      assert p in multiset(packages);
    }
    FeedHeader(m);
    FeedPackages(INITIAL.(inBlock := true), sorted, width);
    hide Header, Unbroken, WellFormed, Width;
    FeedParts(Header(m), PackageLines(sorted, width), sorted);
    UnbrokenParts(Header(m), PackageLines(sorted, width));
    SplitLinesJoin(AllLines(m, packages));
  }

  lemma FeedParts(header: seq<string>, body: seq<string>, sorted: seq<Dep>)
    requires FeedAll(INITIAL, header) == INITIAL.(inBlock := true)
    requires FeedAll(INITIAL.(inBlock := true), body) == INITIAL.(inBlock := true, deps := INITIAL.deps + sorted)
    ensures FeedAll(INITIAL, header + body + [")"]).deps == sorted
  {
    hide Feed;
    FeedConcat(INITIAL, header, body);
    FeedConcat(INITIAL, header + body, [")"]);
    CloseLine(FeedAll(INITIAL, header + body));
    assert [")"][..0] == [];
    assert [] + sorted == sorted;
  }

  lemma UnbrokenParts(a: seq<string>, b: seq<string>)
    requires forall i :: 0 <= i < |a| ==> Unbroken(a[i])
    requires forall i :: 0 <= i < |b| ==> Unbroken(b[i])
    ensures var all := a + b + [")"]; forall i :: 0 <= i < |all| ==> Unbroken(all[i])
  {
  }

  lemma {:induction false} WidthBound(packages: seq<Dep>, i: nat)
    requires i < |packages|
    ensures |packages[i].name| <= Width(packages)
  {
    if i < |packages| - 1 {
      WidthBound(packages[..|packages| - 1], i);
    }
  }

  lemma {:induction false} WidthReached(packages: seq<Dep>) returns (widest: nat)
    requires packages != []
    ensures widest < |packages| && |packages[widest].name| == Width(packages)
  {
    widest := |packages| - 1;
    var front := packages[..widest];
    if front != [] && Width(front) >= |packages[widest].name| {
      widest := WidthReached(front);
    }
  }

  lemma {:induction false} SpacesLength(n: int)
    ensures |Spaces(n)| == if n <= 0 then 0 else n
    ensures forall k :: 0 <= k < |Spaces(n)| ==> Spaces(n)[k] == ' '
  {
    if n > 0 {
      SpacesLength(n - 1);
    }
  }

  // A tab, the name, blanks, the version: all versions start in the same column,
  // two blanks behind the longest name.
  lemma VersionsAligned(packages: seq<Dep>, i: nat) returns (widest: nat)
    requires i < |packages|
    ensures widest < |packages| && |packages[i].name| <= |packages[widest].name| == Width(packages)
    ensures var line, start := PackageLine(packages[i], Width(packages)), 1 + |packages[i].name|;
      var column := 1 + |packages[widest].name| + 2;
      && |line| == column + |packages[i].version| && line[column..] == packages[i].version
      && line[..start] == "\t" + packages[i].name
      && forall k :: start <= k < column ==> line[k] == ' '
  {
    widest := WidthReached(packages);
    WidthBound(packages, i);
    SpacesLength(Width(packages) - |packages[i].name|);
    hide Spaces, Width;
  }

  function Named(packages: seq<Dep>, name: string): seq<Dep> {
    if packages == [] then []
    else
      var last := packages[|packages| - 1];
      Named(packages[..|packages| - 1], name) + if last.name == name then [last] else []
  }

  lemma {:induction false} NamedIsLike(packages: seq<Dep>, p: Dep)
    ensures Like(NameLe, packages, p) == Named(packages, p.name)
  {
    if packages != [] {
      var last := packages[|packages| - 1];
      NamedIsLike(packages[..|packages| - 1], p);
      StringTotal(p.name, last.name);
    }
  }

  // The order is by name, keeps packages of one name in their given order, and
  // loses none.
  lemma StableNameOrder(packages: seq<Dep>, name: string)
    ensures multiset(SortedByName(packages)) == multiset(packages)
    ensures var out := SortedByName(packages);
      forall i, j :: 0 <= i < j < |out| ==> StringLe(out[i].name, out[j].name)
    ensures Named(SortedByName(packages), name) == Named(packages, name)
  {
    NamePreorder();
    SortSorted(NameLe, packages);
    SortMultiset(NameLe, packages);
    var p := Dep(name, "");
    SortStable(NameLe, packages, p);
    NamedIsLike(packages, p);
    NamedIsLike(SortedByName(packages), p);
  }

  lemma NamePreorder()
    ensures Preorder(NameLe)
  {
    forall x: Dep, y: Dep ensures NameLe(x, y) || NameLe(y, x) {
      StringTotal(x.name, y.name);
    }
    forall x: Dep, y: Dep, z: Dep | NameLe(x, y) && NameLe(y, z) ensures NameLe(x, z) {
      StringTransitive(x.name, y.name, z.name);
    }
  }
}
