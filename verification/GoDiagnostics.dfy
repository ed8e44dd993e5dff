// Parsing Go's flat compiler output, `file:line:col: message` per line.
module GoDiagnostics {
  import opened Prelude
  import opened Text
  import opened Diagnostics

  datatype Match = Match(file: string, line: string, col: string, msg: string)

  // What \s matches in Go's regular expressions.
  predicate IsRegexSpace(c: char) { c == '\t' || c == '\n' || c == '\U{c}' || c == '\r' || c == ' ' }

  // How many digits s starts with.
  function DigitCount(s: string): (n: nat)
    ensures n <= |s|
  {
    if s != [] && IsDigit(s[0]) then 1 + DigitCount(s[1..]) else 0
  }

  // `:digits` in front of another colon, and what follows the digits.
  function Field(s: string): Option<(string, string)> {
    if s == [] || s[0] != ':' then None
    else
      var n := DigitCount(s[1..]);
      if n > 0 && 1 + n < |s| && s[1 + n] == ':' then Some((s[1..1 + n], s[1 + n..])) else None
  }

  // `:digits:digits:` at the start of s: the numbers and the rest.
  function Location(s: string): Option<(string, string, string)> {
    match Field(s)
    case None => None
    case Some((line, rest)) =>
      match Field(rest)
      case None => None
      case Some((col, colon)) => if colon == [] then None else Some((line, col, colon[1..]))
  }

  // The lazy prefix: the first position at or after i where a location starts.
  function FindLocation(s: string, i: nat): (r: Option<nat>)
    requires i <= |s|
    ensures r.Some? ==> i <= r.value <= |s| && Location(s[r.value..]).Some?
    ensures forall k :: i <= k <= |s| && (r.Some? ==> k < r.value) ==> Location(s[k..]).None?
    decreases |s| - i
  {
    if Location(s[i..]).Some? then Some(i)
    else if i == |s| then None
    else FindLocation(s, i + 1)
  }

  // FindStringSubmatch on one trimmed line.
  function MatchLine(s: string): Option<Match> {
    var at := FindLocation(s, 0);
    if at.None? then None
    else
      var (line, col, rest) := Location(s[at.value..]).value;
      Some(Match(s[..at.value], line, col, TrimLeft(rest, IsRegexSpace)))
  }

  predicate IsNumber(s: string) { s != "" && AllDigits(s) }

  // `:line:col:` and the rest.
  function Located(line: string, col: string, rest: string): string {
    [':'] + line + ([':'] + col + ([':'] + rest))
  }

  // s reads `file:line:col:`, white space, message, with numbers of digits only.
  predicate Reads(s: string, m: Match, space: string) {
    && s == m.file + Located(m.line, m.col, space + m.msg)
    && IsNumber(m.line) && IsNumber(m.col)
    && (forall i :: 0 <= i < |space| ==> IsRegexSpace(space[i]))
    && (m.msg != "" ==> !IsRegexSpace(m.msg[0]))
  }

  lemma {:induction false} DigitsCounted(d: string, rest: string)
    requires AllDigits(d) && (rest == [] || !IsDigit(rest[0]))
    ensures DigitCount(d + rest) == |d|
  {
    if d == [] {
      assert d + rest == rest;
    } else {
      assert (d + rest)[1..] == d[1..] + rest;
      DigitsCounted(d[1..], rest);
    }
  }

  lemma {:induction false} CountedDigits(s: string)
    ensures AllDigits(s[..DigitCount(s)])
  {
    var n := DigitCount(s);
    if n > 0 {
      CountedDigits(s[1..]);
      assert s[..n] == [s[0]] + s[1..][..n - 1];
    }
  }

  lemma FieldOf(d: string, rest: string)
    requires IsNumber(d) && rest != [] && rest[0] == ':'
    ensures Field([':'] + d + rest) == Some((d, rest))
  {
    var s := [':'] + d + rest;
    assert s[1..] == d + rest;
    DigitsCounted(d, rest);
    assert s[1..1 + |d|] == d && s[1 + |d|..] == rest;
  }

  lemma FieldParts(s: string)
    requires Field(s).Some?
    ensures var (d, rest) := Field(s).value;
      IsNumber(d) && rest != [] && rest[0] == ':' && s == [':'] + d + rest
  {
    var n := DigitCount(s[1..]);
    CountedDigits(s[1..]);
    assert s[1..][..n] == s[1..1 + n];
    assert s == [s[0]] + s[1..1 + n] + s[1 + n..];
  }

  lemma LocationOf(line: string, col: string, rest: string)
    requires IsNumber(line) && IsNumber(col)
    ensures Location(Located(line, col, rest)) == Some((line, col, rest))
  {
    FieldOf(col, [':'] + rest);
    FieldOf(line, [':'] + col + ([':'] + rest));
  }

  lemma LocationParts(s: string)
    requires Location(s).Some?
    ensures var (line, col, rest) := Location(s).value;
      IsNumber(line) && IsNumber(col) && s == Located(line, col, rest)
  {
    FieldParts(s);
    var (line, rest) := Field(s).value;
    FieldParts(rest);
    var (col, colon) := Field(rest).value;
    assert colon == [':'] + colon[1..];
  }

  lemma {:induction false} TrimLeftPrefix(space: string, msg: string)
    requires forall i :: 0 <= i < |space| ==> IsRegexSpace(space[i])
    requires msg != "" ==> !IsRegexSpace(msg[0])
    ensures TrimLeft(space + msg, IsRegexSpace) == msg
  {
    if space == [] {
      assert space + msg == msg;
    } else {
      assert (space + msg)[1..] == space[1..] + msg;
      TrimLeftPrefix(space[1..], msg);
    }
  }

  lemma {:induction false} TrimLeftSplits(s: string) returns (space: string)
    ensures s == space + TrimLeft(s, IsRegexSpace)
    ensures forall i :: 0 <= i < |space| ==> IsRegexSpace(space[i])
    ensures var t := TrimLeft(s, IsRegexSpace); t != "" ==> !IsRegexSpace(t[0])
  {
    if s != [] && IsRegexSpace(s[0]) {
      space := TrimLeftSplits(s[1..]);
      space := [s[0]] + space;
    } else {
      space := [];
    }
  }

  lemma ReadsFrom(s: string, i: nat, m: Match, space: string)
    requires i <= |s| && m.file == s[..i] && s[i..] == Located(m.line, m.col, space + m.msg)
    requires IsNumber(m.line) && IsNumber(m.col)
    requires forall k :: 0 <= k < |space| ==> IsRegexSpace(space[k])
    requires m.msg != "" ==> !IsRegexSpace(m.msg[0])
    ensures Reads(s, m, space)
  {
    hide Located;
    assert s == s[..i] + s[i..];
  }

  // A match is a reading of the line.
  lemma MatchReads(s: string) returns (space: string)
    requires MatchLine(s).Some?
    ensures Reads(s, MatchLine(s).value, space)
  {
    var i := FindLocation(s, 0).value;
    LocationParts(s[i..]);
    var (line, col, rest) := Location(s[i..]).value;
    space := TrimLeftSplits(rest);
    var m := MatchLine(s).value;
    assert m == Match(s[..i], line, col, TrimLeft(rest, IsRegexSpace));
    hide MatchLine, Location, FindLocation, TrimLeft, Located, Reads;
    ReadsFrom(s, i, m, space);
  }

  // Any line that can be read matches, with a file name no longer than that of
  // any other reading, and only one reading has that file name.
  lemma MatchShortest(s: string, m: Match, space: string)
    requires Reads(s, m, space)
    ensures MatchLine(s).Some? && |MatchLine(s).value.file| <= |m.file|
    ensures |MatchLine(s).value.file| == |m.file| ==> MatchLine(s).value == m
  {
    var i := |m.file|;
    assert s[..i] == m.file && s[i..] == Located(m.line, m.col, space + m.msg);
    LocationOf(m.line, m.col, space + m.msg);
    TrimLeftPrefix(space, m.msg);
  }

  // ---- whole outputs ----

  const MAX_INT: int := 0x7fff_ffff_ffff_ffff

  // strconv.Atoi on digits, its range error ignored: too large a number reads
  // as the largest int.
  function Atoi(s: string): int
    requires AllDigits(s)
  {
    if Value(s) > MAX_INT then MAX_INT else Value(s)
  }

  // A number in decimal.
  function Decimal(n: nat): (s: string)
    ensures s != ""
  {
    (if n < 10 then "" else Decimal(n / 10)) + [('0' as int + n % 10) as char]
  }

  // Numbers up to the largest int are read as written, larger ones as that.
  lemma {:induction false} DecimalRead(n: nat)
    ensures IsNumber(Decimal(n)) && Value(Decimal(n)) == n
    ensures Atoi(Decimal(n)) == if n <= MAX_INT then n else MAX_INT
  {
    var front := if n < 10 then "" else Decimal(n / 10);
    assert Decimal(n)[..|front|] == front;
    if n >= 10 {
      DecimalRead(n / 10);
    }
  }

  function Report(file: string, line: int, col: int, msg: string): Diagnostic {
    Diagnostic("", "error", msg, [Span(file, line, line, col, col, 0, 0, "", true)], [], [])
  }

  function LineDiagnostics(line: string): seq<Diagnostic> {
    var t := Trim(line, IsUnicodeSpace);
    if MatchLine(t).None? then []
    else
      var m := MatchLine(t).value;
      LocationParts(t[FindLocation(t, 0).value..]);
      [Report(m.file, Atoi(m.line), Atoi(m.col), m.msg)]
  }

  function LinesDiagnostics(lines: seq<string>): seq<Diagnostic> {
    if lines == [] then [] else LinesDiagnostics(lines[..|lines| - 1]) + LineDiagnostics(lines[|lines| - 1])
  }

  method ParseGo(stderr: string) returns (out: seq<Diagnostic>)
    ensures out == LinesDiagnostics(SplitOn(stderr, '\n'))
  {
    out := [];
    var lines := SplitOn(stderr, '\n');
    for i := 0 to |lines|
      invariant out == LinesDiagnostics(lines[..i])
    {
      hide MatchLine, FindLocation, Trim;
      var line := Trim(lines[i], IsUnicodeSpace);
      var m := MatchLine(line);
      assert lines[..i + 1][..i] == lines[..i];
      if m.Some? {
        LocationParts(line[FindLocation(line, 0).value..]);
        out := out + [Report(m.value.file, Atoi(m.value.line), Atoi(m.value.col), m.value.msg)];
      }
    }
    assert lines[..|lines|] == lines;
  }

  // A line of compiler output: one diagnostic, or text that matches nothing.
  // `gap` is the white space between the location and the message.
  datatype Item = Noise(text: string) | Diag(file: string, line: string, col: string, gap: string, msg: string)

  // What may stand in the gap.
  predicate IsGap(c: char) { c == ' ' || c == '\t' || c == '\r' || c == '\U{c}' }

  ghost predicate WellFormed(item: Item) {
    match item
    case Noise(text) => '\n' !in text && forall m, space :: !Reads(Trim(text, IsUnicodeSpace), m, space)
    case Diag(file, line, col, gap, msg) =>
      && ':' !in file && '\n' !in file && (file != "" ==> !IsUnicodeSpace(file[0]))
      && IsNumber(line) && IsNumber(col)
      && (forall i :: 0 <= i < |gap| ==> IsGap(gap[i]))
      && '\n' !in msg && (msg != "" ==> !IsUnicodeSpace(msg[0]) && !IsUnicodeSpace(msg[|msg| - 1]))
  }

  function Print(item: Item): string {
    match item
    case Noise(text) => text
    case Diag(file, line, col, gap, msg) => file + Located(line, col, gap + msg)
  }

  ghost function Meaning(item: Item): seq<Diagnostic>
    requires WellFormed(item)
  {
    match item
    case Noise(_) => []
    case Diag(file, line, col, gap, msg) =>
      var span := Span(file, Atoi(line), Atoi(line), Atoi(col), Atoi(col), 0, 0, "", true);
      [Diagnostic("", "error", msg, [span], [], [])]
  }

  function Printed(items: seq<Item>): seq<string> {
    if items == [] then [] else Printed(items[..|items| - 1]) + [Print(items[|items| - 1])]
  }

  ghost function Meanings(items: seq<Item>): seq<Diagnostic>
    requires forall i :: 0 <= i < |items| ==> WellFormed(items[i])
  {
    if items == [] then [] else Meanings(items[..|items| - 1]) + Meaning(items[|items| - 1])
  }

  // The first location of a formatted line is the one behind its file name.
  lemma MatchFormatted(file: string, line: string, col: string, space: string, msg: string)
    requires ':' !in file && IsNumber(line) && IsNumber(col)
    requires forall i :: 0 <= i < |space| ==> IsRegexSpace(space[i])
    requires msg != "" ==> !IsRegexSpace(msg[0])
    ensures MatchLine(file + Located(line, col, space + msg)) == Some(Match(file, line, col, msg))
  {
    var s, m := file + Located(line, col, space + msg), Match(file, line, col, msg);
    MatchShortest(s, m, space);
    var i := FindLocation(s, 0).value;
    assert s[i..][0] == s[i];
    assert forall k :: 0 <= k < |file| ==> s[k] == file[k];
  }

  predicate Solid(t: string) {
    t != "" && !IsUnicodeSpace(t[0]) && !IsUnicodeSpace(t[|t| - 1])
  }

  lemma {:induction false} TrimSolid(t: string, gap: string)
    requires Solid(t) && forall i :: 0 <= i < |gap| ==> IsUnicodeSpace(gap[i])
    ensures Trim(t + gap, IsUnicodeSpace) == t
  {
    assert TrimLeft(t + gap, IsUnicodeSpace) == t + gap;
    if gap == "" {
      assert t + gap == t;
    } else {
      assert (t + gap)[..|t + gap| - 1] == t + gap[..|gap| - 1];
      TrimSolid(t, gap[..|gap| - 1]);
      assert TrimLeft(t + gap[..|gap| - 1], IsUnicodeSpace) == t + gap[..|gap| - 1];
    }
  }

  lemma LocatedSolid(file: string, line: string, col: string, rest: string)
    requires file != "" ==> !IsUnicodeSpace(file[0])
    requires rest == "" || !IsUnicodeSpace(rest[|rest| - 1])
    ensures Solid(file + Located(line, col, rest))
  {
    var t := [':'] + rest;
    assert !IsUnicodeSpace(t[|t| - 1]);
  }

  lemma TrimDiag(item: Item)
    requires item.Diag? && WellFormed(item)
    ensures Trim(Print(item), IsUnicodeSpace)
         == item.file + Located(item.line, item.col, (if item.msg == "" then "" else item.gap) + item.msg)
  {
    if item.msg == "" {
      LocatedSolid(item.file, item.line, item.col, "");
      var t := item.file + Located(item.line, item.col, "");
      TrimSolid(t, item.gap);
      assert item.gap + item.msg == item.gap && "" + item.msg == "";
      assert Print(item) == t + item.gap;
    } else {
      LocatedSolid(item.file, item.line, item.col, item.gap + item.msg);
      TrimSolid(Print(item), "");
      assert Print(item) + "" == Print(item);
    }
  }

  lemma NoNewline(file: string, line: string, col: string, rest: string)
    requires '\n' !in file && '\n' !in rest && AllDigits(line) && AllDigits(col)
    ensures '\n' !in file + Located(line, col, rest)
  {
    assert '\n' !in line && '\n' !in col;
  }

  lemma NoMatch(t: string)
    requires forall m, space :: !Reads(t, m, space)
    ensures MatchLine(t).None?
  {
    if MatchLine(t).Some? {
      var space := MatchReads(t);
    }
  }

  lemma ItemRecovered(item: Item)
    requires WellFormed(item)
    ensures LineDiagnostics(Print(item)) == Meaning(item) && '\n' !in Print(item)
  {
    match item
    case Noise(text) =>
      NoMatch(Trim(text, IsUnicodeSpace));
    case Diag(file, line, col, gap, msg) =>
      hide MatchLine, FindLocation, Trim, Located;
      TrimDiag(item);
      MatchFormatted(file, line, col, if msg == "" then "" else gap, msg);
      NoNewline(file, line, col, gap + msg);
  }

  // Parsing recovers exactly the diagnostics of the formatted lines, in order,
  // whatever else is in between and whatever the messages contain.
  lemma {:induction false} Recovered(items: seq<Item>)
    requires items != [] && forall i :: 0 <= i < |items| ==> WellFormed(items[i])
    ensures LinesDiagnostics(SplitOn(Join(Printed(items), '\n'), '\n')) == Meanings(items)
  {
    LinesRecovered(items);
    SplitJoin(Printed(items), '\n');
  }

  lemma {:induction false} LinesRecovered(items: seq<Item>)
    requires forall i :: 0 <= i < |items| ==> WellFormed(items[i])
    ensures LinesDiagnostics(Printed(items)) == Meanings(items)
    ensures forall i :: 0 <= i < |Printed(items)| ==> '\n' !in Printed(items)[i]
    ensures |Printed(items)| == |items|
  {
    hide LineDiagnostics, Print, Meaning, WellFormed;
    if items != [] {
      var n := |items| - 1;
      ItemRecovered(items[n]);
      LinesRecovered(items[..n]);
      assert Printed(items)[..n] == Printed(items[..n]);
    }
  }
}
