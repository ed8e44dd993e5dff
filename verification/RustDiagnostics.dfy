// Converting rustc's JSON messages into diagnostics. Decoding one JSON line is
// left to a function parameter.
module RustDiagnostics {
  import opened Prelude
  import opened Text
  import opened Diagnostics

  datatype RustSpan = RustSpan(
    fileName: string, byteStart: int, byteEnd: int, lineStart: int, lineEnd: int,
    columnStart: int, columnEnd: int, isPrimary: bool, caption: string, replacement: Option<string>)

  datatype RustMessage = RustMessage(
    code: Option<string>, level: string, message: string,
    spans: seq<RustSpan>, children: seq<RustMessage>)

  datatype RustLine = RustLine(reason: string, message: Option<RustMessage>)

  function ConvertSpan(s: RustSpan): Span {
    Span(s.fileName, s.lineStart, s.lineEnd, s.columnStart, s.columnEnd,
         s.byteStart, s.byteEnd, s.caption, s.isPrimary)
  }

  function ConvertSpans(spans: seq<RustSpan>): (r: seq<Span>)
    ensures |r| == |spans| && forall i :: 0 <= i < |spans| ==> r[i] == ConvertSpan(spans[i])
  {
    if spans == [] then [] else ConvertSpans(spans[..|spans| - 1]) + [ConvertSpan(spans[|spans| - 1])]
  }

  // The non-empty replacements of a message's own spans.
  function OwnSuggestions(spans: seq<RustSpan>): seq<string> {
    if spans == [] then []
    else
      var r := spans[|spans| - 1].replacement;
      OwnSuggestions(spans[..|spans| - 1]) + if r.Some? && r.value != "" then [r.value] else []
  }

  function CollectSuggestions(m: RustMessage): seq<string>
    decreases m, 0
  {
    OwnSuggestions(m.spans) + CollectAll(m.children)
  }

  function CollectAll(ms: seq<RustMessage>): seq<string>
    decreases ms, 1
  {
    if ms == [] then [] else CollectAll(ms[..|ms| - 1]) + CollectSuggestions(ms[|ms| - 1])
  }

  function ConvertRust(m: RustMessage): Diagnostic
    decreases m, 0
  {
    Diagnostic(if m.code.Some? then m.code.value else "", m.level, m.message,
               ConvertSpans(m.spans), CollectSuggestions(m), ConvertAll(m.children))
  }

  function ConvertAll(ms: seq<RustMessage>): (r: seq<Diagnostic>)
    ensures |r| == |ms|
    decreases ms, 1
  {
    if ms == [] then [] else ConvertAll(ms[..|ms| - 1]) + [ConvertRust(ms[|ms| - 1])]
  }

  lemma {:induction false} OwnConcat(a: seq<RustSpan>, b: seq<RustSpan>)
    ensures OwnSuggestions(a + b) == OwnSuggestions(a) + OwnSuggestions(b)
  {
    if b == [] {
      assert a + b == a;
    } else {
      var n := |b| - 1;
      assert (a + b)[..|a + b| - 1] == a + b[..n];
      OwnConcat(a, b[..n]);
    }
  }

  // A span adds its replacement if it has one that is not empty, and spans add
  // theirs in order.
  lemma OwnExactly(a: seq<RustSpan>, span: RustSpan, b: seq<RustSpan>)
    ensures OwnSuggestions(a + [span] + b) == OwnSuggestions(a)
          + (match span.replacement case None => [] case Some(r) => if r == "" then [] else [r]) + OwnSuggestions(b)
    ensures OwnSuggestions([]) == []
  {
    OwnConcat(a, [span]);
    OwnConcat(a + [span], b);
    assert [span][..0] == [];
  }

  // ---- the tree keeps its shape ----

  function Flatten(ds: seq<Diagnostic>): seq<string> {
    if ds == [] then [] else Flatten(ds[..|ds| - 1]) + ds[|ds| - 1].suggestions
  }

  // The same place, byte range and label.
  predicate SpanMirrors(s: RustSpan, d: Span) {
    && d.file == s.fileName && d.caption == s.caption && d.primary == s.isPrimary
    && (d.lineStart, d.colStart) == (s.lineStart, s.columnStart)
    && (d.lineEnd, d.colEnd) == (s.lineEnd, s.columnEnd)
    && (d.byteStart, d.byteEnd) == (s.byteStart, s.byteEnd)
  }

  // d is m node by node: same fields and spans, same number of children, and
  // at every node its own replacements followed by its children's suggestions.
  ghost predicate Mirrors(m: RustMessage, d: Diagnostic)
    decreases m
  {
    && d.level == m.level && d.message == m.message
    && (m.code.Some? ==> d.code == m.code.value) && (m.code.None? ==> d.code == "")
    && |d.spans| == |m.spans| && (forall i :: 0 <= i < |m.spans| ==> SpanMirrors(m.spans[i], d.spans[i]))
    && d.suggestions == OwnSuggestions(m.spans) + Flatten(d.children)
    && |d.children| == |m.children|
    && forall i :: 0 <= i < |m.children| ==> Mirrors(m.children[i], d.children[i])
  }

  lemma {:induction false} ConvertMirrors(m: RustMessage)
    ensures Mirrors(m, ConvertRust(m))
    decreases m, 0
  {
    ConvertAllMirrors(m.children);
    FlattenConverted(m.children);
  }

  lemma {:induction false} ConvertAllMirrors(ms: seq<RustMessage>)
    ensures forall i :: 0 <= i < |ms| ==> Mirrors(ms[i], ConvertAll(ms)[i])
    decreases ms, 1
  {
    hide Mirrors, ConvertRust;
    if ms != [] {
      var n := |ms| - 1;
      ConvertAllMirrors(ms[..n]);
      ConvertMirrors(ms[n]);
    }
  }

  lemma {:induction false} FlattenConverted(ms: seq<RustMessage>)
    ensures Flatten(ConvertAll(ms)) == CollectAll(ms)
  {
    if ms != [] {
      var n := |ms| - 1;
      FlattenConverted(ms[..n]);
      assert ConvertRust(ms[n]).suggestions == CollectSuggestions(ms[n]);
      hide ConvertRust, CollectSuggestions;
      assert ConvertAll(ms)[..n] == ConvertAll(ms[..n]);
    }
  }

  // ---- the root lists the whole subtree ----

  // The messages of a tree in pre-order.
  function PreOrder(m: RustMessage): seq<RustMessage>
    decreases m, 0
  {
    [m] + PreOrderAll(m.children)
  }

  function PreOrderAll(ms: seq<RustMessage>): seq<RustMessage>
    decreases ms, 1
  {
    if ms == [] then [] else PreOrderAll(ms[..|ms| - 1]) + PreOrder(ms[|ms| - 1])
  }

  function OwnOfEach(ms: seq<RustMessage>): seq<string> {
    if ms == [] then [] else OwnOfEach(ms[..|ms| - 1]) + OwnSuggestions(ms[|ms| - 1].spans)
  }

  lemma {:induction false} OwnOfEachConcat(a: seq<RustMessage>, b: seq<RustMessage>)
    ensures OwnOfEach(a + b) == OwnOfEach(a) + OwnOfEach(b)
  {
    if b == [] {
      assert a + b == a;
    } else {
      var n := |b| - 1;
      assert (a + b)[..|a + b| - 1] == a + b[..n];
      OwnOfEachConcat(a, b[..n]);
      Associative(OwnOfEach(a), OwnOfEach(b[..n]), OwnSuggestions(b[n].spans));
    }
  }

  // The root's suggestions are every non-empty replacement of the subtree, in
  // pre-order.
  lemma {:induction false} RootListsSubtree(m: RustMessage)
    ensures ConvertRust(m).suggestions == OwnOfEach(PreOrder(m))
    decreases m, 0
  {
    SubtreesListed(m.children);
    OwnOfEachConcat([m], PreOrderAll(m.children));
    assert [m][..0] == [];
    assert OwnOfEach([m]) == OwnSuggestions(m.spans);
  }

  lemma {:induction false} SubtreesListed(ms: seq<RustMessage>)
    ensures CollectAll(ms) == OwnOfEach(PreOrderAll(ms))
    decreases ms, 1
  {
    if ms != [] {
      var n := |ms| - 1;
      SubtreesListed(ms[..n]);
      RootListsSubtree(ms[n]);
      OwnOfEachConcat(PreOrderAll(ms[..n]), PreOrder(ms[n]));
    }
  }

  // ---- lines ----

  // The top-level error or warning on a line, if there is one.
  function LineDiagnostics(decode: string -> Option<RustLine>, line: string): seq<Diagnostic> {
    var t := Trim(line, IsUnicodeSpace);
    if t == "" || t[0] != '{' || decode(t).None? then []
    else
      var rl := decode(t).value;
      if rl.reason != "compiler-message" || rl.message.None? then []
      else if rl.message.value.level != "error" && rl.message.value.level != "warning" then []
      else [ConvertRust(rl.message.value)]
  }

  function LinesDiagnostics(decode: string -> Option<RustLine>, lines: seq<string>): seq<Diagnostic> {
    if lines == [] then []
    else LinesDiagnostics(decode, lines[..|lines| - 1]) + LineDiagnostics(decode, lines[|lines| - 1])
  }

  function ParseRustSpec(decode: string -> Option<RustLine>, text: string): seq<Diagnostic> {
    LinesDiagnostics(decode, SplitOn(text, '\n'))
  }

  method ParseRust(decode: string -> Option<RustLine>, cargoJSON: string) returns (out: seq<Diagnostic>)
    ensures out == ParseRustSpec(decode, cargoJSON)
  {
    out := [];
    var lines := SplitOn(cargoJSON, '\n');
    for i := 0 to |lines|
      invariant out == LinesDiagnostics(decode, lines[..i])
    {
      assert lines[..i + 1][..i] == lines[..i];
      var line := Trim(lines[i], IsUnicodeSpace);
      if line == "" || line[0] != '{' {
        continue;
      }
      var rl := decode(line);
      if rl.None? || rl.value.reason != "compiler-message" || rl.value.message.None? {
        continue;
      }
      var m := rl.value.message.value;
      if m.level != "error" && m.level != "warning" {
        continue;
      }
      out := out + [ConvertRust(m)];
    }
    assert lines[..|lines|] == lines;
  }

  lemma {:induction false} LinesConcat(decode: string -> Option<RustLine>, a: seq<string>, b: seq<string>)
    ensures LinesDiagnostics(decode, a + b) == LinesDiagnostics(decode, a) + LinesDiagnostics(decode, b)
  {
    hide LineDiagnostics;
    if b == [] {
      assert a + b == a;
    } else {
      var n := |b| - 1;
      assert (a + b)[..|a + b| - 1] == a + b[..n];
      LinesConcat(decode, a, b[..n]);
    }
  }

  // Output can be parsed in parts: one bad line never affects another.
  lemma ParseConcat(decode: string -> Option<RustLine>, a: string, b: string)
    ensures ParseRustSpec(decode, a + (['\n'] + b)) == ParseRustSpec(decode, a) + ParseRustSpec(decode, b)
  {
    SplitConcat(a, b, '\n');
    LinesConcat(decode, SplitOn(a, '\n'), SplitOn(b, '\n'));
  }

  // ---- which lines are reported ----

  // One line of output: noise, or a line that reads as a top-level error or
  // warning.
  datatype Item = Noise(text: string) | Reported(text: string, m: RustMessage)

  // Blank, no object, unreadable, or something other than a compiler's error or
  // warning.
  predicate IsNoise(decode: string -> Option<RustLine>, text: string) {
    var t := Trim(text, IsUnicodeSpace);
    || t == "" || t[0] != '{'
    || decode(t).None?
    || decode(t).value.reason != "compiler-message"
    || decode(t).value.message.None?
    || (decode(t).value.message.value.level != "error" && decode(t).value.message.value.level != "warning")
  }

  predicate WellFormed(decode: string -> Option<RustLine>, item: Item) {
    && '\n' !in item.text
    && match item
       case Noise(text) => IsNoise(decode, text)
       case Reported(text, m) =>
         var t := Trim(text, IsUnicodeSpace);
         && t != "" && t[0] == '{' && decode(t) == Some(RustLine("compiler-message", Some(m)))
         && (m.level == "error" || m.level == "warning")
  }

  function Texts(items: seq<Item>): seq<string> {
    if items == [] then [] else Texts(items[..|items| - 1]) + [items[|items| - 1].text]
  }

  // The reported messages, converted, in order.
  function Reports(items: seq<Item>): seq<Diagnostic> {
    if items == [] then []
    else
      var last := match items[|items| - 1] case Noise(_) => [] case Reported(_, m) => [ConvertRust(m)];
      Reports(items[..|items| - 1]) + last
  }

  // Every line is one or the other.
  lemma EveryLineIsAnItem(decode: string -> Option<RustLine>, line: string)
    requires '\n' !in line
    ensures exists item: Item :: item.text == line && WellFormed(decode, item)
  {
    if IsNoise(decode, line) {
      assert WellFormed(decode, Noise(line));
    } else {
      assert WellFormed(decode, Reported(line, decode(Trim(line, IsUnicodeSpace)).value.message.value));
    }
  }

  lemma ItemReported(decode: string -> Option<RustLine>, item: Item)
    requires WellFormed(decode, item)
    ensures LineDiagnostics(decode, item.text) == match item case Noise(_) => [] case Reported(_, m) => [ConvertRust(m)]
  {
    hide Trim, ConvertRust;
  }

  lemma {:induction false} ItemsReported(decode: string -> Option<RustLine>, items: seq<Item>)
    requires forall i :: 0 <= i < |items| ==> WellFormed(decode, items[i])
    ensures LinesDiagnostics(decode, Texts(items)) == Reports(items)
    ensures |Texts(items)| == |items| && forall i :: 0 <= i < |items| ==> '\n' !in Texts(items)[i]
  {
    hide LineDiagnostics, ConvertRust, IsNoise;
    if items != [] {
      var n := |items| - 1;
      ItemReported(decode, items[n]);
      ItemsReported(decode, items[..n]);
      assert Texts(items)[..n] == Texts(items[..n]);
    }
  }

  // Exactly the top-level errors and warnings come back, in order, whatever else
  // is in between.
  lemma Recovered(decode: string -> Option<RustLine>, items: seq<Item>)
    requires items != [] && forall i :: 0 <= i < |items| ==> WellFormed(decode, items[i])
    ensures ParseRustSpec(decode, Join(Texts(items), '\n')) == Reports(items)
  {
    ItemsReported(decode, items);
    SplitJoin(Texts(items), '\n');
  }
}
