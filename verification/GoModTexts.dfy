// What the miner's parser makes of a go.mod file in general: single requires,
// require blocks, comments, and lines that are neither.
module GoModTexts {
  import opened Prelude
  import opened Text
  import opened GoMod

  // A required module as it is written, from the white space before its name to
  // what follows its version, and the comment behind it.
  datatype Require = Require(
    lead: string, name: string, gap: string, version: string, trail: string, comment: Option<string>)

  // A line of a block: a require, or one with at most a single word.
  datatype Entry =
    | Short(lead: string, word: string, trail: string, comment: Option<string>)
    | Listed(r: Require)

  // A line outside a block that is no require, a `require` with at most one word
  // behind it, a require, a block, and a block up to the end of the file.
  datatype Item =
    | Other(lead: string, text: string)
    | Unfinished(before: string, gap: string, word: string, trail: string, comment: Option<string>)
    | Single(before: string, r: Require)
    | Block(before: string, open: string, rest: string, entries: seq<Entry>,
            close: string, trail: string, comment: Option<string>)
    | Unclosed(before: string, open: string, rest: string, entries: seq<Entry>)

  function Commented(code: string, comment: Option<string>): string {
    if comment.None? then code else code + ("//" + comment.value)
  }

  function Body(r: Require): string { r.lead + (r.name + (r.gap + (r.version + r.trail))) }

  function EntryLine(e: Entry): string {
    match e
    case Short(lead, word, trail, comment) => Commented(lead + (word + trail), comment)
    case Listed(r) => Commented(Body(r), r.comment)
  }

  function EntryLines(entries: seq<Entry>): seq<string> {
    if entries == [] then [] else EntryLines(entries[..|entries| - 1]) + [EntryLine(entries[|entries| - 1])]
  }

  // A block up to its closing line.
  function Opened(before: string, open: string, rest: string, entries: seq<Entry>): seq<string> {
    [before + ("require" + (open + ("(" + rest)))] + EntryLines(entries)
  }

  function ItemLines(item: Item): seq<string> {
    match item
    case Other(lead, text) => [lead + text]
    case Unfinished(before, gap, word, trail, comment) =>
      [Commented(before + ("require" + (gap + (word + trail))), comment)]
    case Single(before, r) => [Commented(before + ("require" + Body(r)), r.comment)]
    case Block(before, open, rest, entries, close, trail, comment) =>
      Opened(before, open, rest, entries) + [Commented(close + (")" + trail), comment)]
    case Unclosed(before, open, rest, entries) => Opened(before, open, rest, entries)
  }

  function Lines(items: seq<Item>): seq<string> {
    if items == [] then [] else Lines(items[..|items| - 1]) + ItemLines(items[|items| - 1])
  }

  // ---- what is well formed ----

  predicate NoDoubleSlash(s: string) { forall i :: 0 <= i < |s| - 1 ==> s[i] != '/' || s[i + 1] != '/' }

  // Code that a comment can follow without changing it.
  predicate CodePart(code: string, comment: Option<string>) {
    && NoDoubleSlash(code) && Unbroken(code)
    && (comment.Some? ==> Unbroken(comment.value) && (code != "" ==> code[|code| - 1] != '/'))
  }

  predicate Word(s: string) { s != "" && NoSpace(s) }

  predicate RequireOk(r: Require) {
    && AllSpace(r.lead) && AllSpace(r.gap) && r.gap != "" && Word(r.name) && Word(r.version)
    && (r.trail == "" || IsSpace(r.trail[0]))
  }

  predicate EntryOk(e: Entry) {
    match e
    case Short(lead, word, trail, comment) =>
      && AllSpace(lead) && AllSpace(trail) && NoSpace(word) && word != ")"
      && CodePart(lead + (word + trail), comment)
    case Listed(r) => RequireOk(r) && CodePart(Body(r), r.comment)
  }

  // The text, without the white space before it, does not start with the word
  // `require`, nor with a `require(` that stands alone.
  predicate NoRequire(text: string) {
    && (text == "" || !IsSpace(text[0]))
    && (REQUIRE <= text ==>
          && |text| > |REQUIRE| && !IsSpace(text[|REQUIRE|])
          && (text[|REQUIRE|] == '(' ==> !AllSpace(text[|REQUIRE| + 1..])))
  }

  // A `require (` with a comment behind it is one of these.
  predicate UnfinishedOk(gap: string, word: string, trail: string, comment: Option<string>) {
    && AllSpace(gap) && AllSpace(trail) && NoSpace(word)
    && (word != "" ==> gap != "") && (word == "(" ==> comment.Some?)
  }

  predicate OpenedOk(before: string, open: string, rest: string, entries: seq<Entry>) {
    && AllSpace(before) && AllSpace(open) && AllSpace(rest) && Unbroken(before + ("require" + (open + ("(" + rest))))
    && forall i :: 0 <= i < |entries| ==> EntryOk(entries[i])
  }

  predicate ItemOk(item: Item) {
    match item
    case Other(lead, text) => AllSpace(lead) && NoRequire(text) && Unbroken(lead + text)
    case Unfinished(before, gap, word, trail, comment) =>
      && AllSpace(before) && UnfinishedOk(gap, word, trail, comment)
      && CodePart(before + ("require" + (gap + (word + trail))), comment)
    case Single(before, r) =>
      AllSpace(before) && RequireOk(r) && r.lead != "" && CodePart(before + ("require" + Body(r)), r.comment)
    case Block(before, open, rest, entries, close, trail, comment) =>
      && OpenedOk(before, open, rest, entries)
      && AllSpace(close) && AllSpace(trail) && CodePart(close + (")" + trail), comment)
    case Unclosed(before, open, rest, entries) => OpenedOk(before, open, rest, entries)
  }

  // Every item is well formed, and only the last can be an unclosed block.
  predicate ItemsOk(items: seq<Item>) {
    && (forall i :: 0 <= i < |items| ==> ItemOk(items[i]))
    && forall i :: 0 <= i < |items| - 1 ==> !items[i].Unclosed?
  }

  predicate EndsOpen(items: seq<Item>) { items != [] && items[|items| - 1].Unclosed? }

  // ---- what is expected ----

  predicate Mentions(s: string, part: string) {
    exists i :: 0 <= i <= |s| && part <= s[i..]
  }

  // A require counts unless its comment says it is indirect.
  ghost function Direct(r: Require): seq<Dep> {
    if r.comment.Some? && Mentions(r.comment.value, "indirect") then [] else [Dep(r.name, r.version)]
  }

  ghost function DirectEntry(e: Entry): seq<Dep> {
    match e
    case Short(_, _, _, _) => []
    case Listed(r) => Direct(r)
  }

  ghost function DirectIn(entries: seq<Entry>): seq<Dep> {
    if entries == [] then []
    else DirectIn(entries[..|entries| - 1]) + DirectEntry(entries[|entries| - 1])
  }

  ghost function DirectOf(item: Item): seq<Dep> {
    match item
    case Single(_, r) => Direct(r)
    case Block(_, _, _, entries, _, _, _) => DirectIn(entries)
    case Unclosed(_, _, _, entries) => DirectIn(entries)
    case _ => []
  }

  ghost function Expected(items: seq<Item>): seq<Dep> {
    if items == [] then [] else Expected(items[..|items| - 1]) + DirectOf(items[|items| - 1])
  }

  // ---- comments ----

  lemma {:induction false} ContainsIff(s: string, part: string)
    ensures Contains(s, part) <==> Mentions(s, part)
  {
    assert s[0..] == s;
    if s != [] && !(part <= s) {
      ContainsIff(s[1..], part);
      if Mentions(s[1..], part) {
        var i :| 0 <= i <= |s[1..]| && part <= s[1..][i..];
        assert s[1..][i..] == s[i + 1..];
      }
      if Mentions(s, part) {
        var i :| 0 <= i <= |s| && part <= s[i..];
        assert i > 0 && s[1..][i - 1..] == s[i..];
      }
    }
  }

  lemma {:induction false} SlashesAfter(code: string, comment: string)
    requires NoDoubleSlash(code) && (code != "" ==> code[|code| - 1] != '/')
    ensures SlashesAt(code + ("//" + comment)) == |code|
  {
    var s := code + ("//" + comment);
    if code != "" {
      assert s[1..] == code[1..] + ("//" + comment);
      SlashesAfter(code[1..], comment);
    } else {
      assert s == "//" + comment;
    }
  }

  lemma {:induction false} SlashesNone(code: string)
    requires NoDoubleSlash(code)
    ensures SlashesAt(code) == |code|
  {
    if |code| >= 2 {
      SlashesNone(code[1..]);
    }
  }

  lemma UnbrokenComment(code: string, comment: Option<string>)
    requires CodePart(code, comment)
    ensures Unbroken(Commented(code, comment))
  {
  }

  // The parser separates code and comment as they were put together.
  lemma Separated(code: string, comment: Option<string>)
    requires CodePart(code, comment)
    ensures Code(Commented(code, comment)) == TrimRight(code, IsSpace)
    ensures Comment(Commented(code, comment)) == if comment.Some? then comment.value else ""
    ensures Unbroken(Commented(code, comment))
  {
    var raw := Commented(code, comment);
    UnbrokenComment(code, comment);
    hide TrimRight, Unbroken, NoDoubleSlash;
    if comment.Some? {
      SlashesAfter(code, comment.value);
      assert raw[..|code|] == code && raw[|code| + 2..] == comment.value;
    } else {
      SlashesNone(code);
      assert raw[..|code|] == code;
    }
  }

  // ---- tokens ----

  lemma {:induction false} TrimRightAll(s: string)
    requires AllSpace(s)
    ensures TrimRight(s, IsSpace) == ""
  {
    if s != "" {
      TrimRightAll(s[..|s| - 1]);
    }
  }

  // Trimming on the right stops at the last word at the latest.
  lemma {:induction false} TrimRightWord(before: string, word: string, trail: string) returns (kept: string)
    requires Word(word) && (trail == "" || IsSpace(trail[0]))
    ensures TrimRight(before + (word + trail), IsSpace) == before + (word + kept)
    ensures kept == "" || IsSpace(kept[0])
  {
    var s := before + (word + trail);
    kept := trail;
    if trail != "" {
      if IsSpace(trail[|trail| - 1]) {
        var shorter := trail[..|trail| - 1];
        kept := TrimRightWord(before, word, shorter);
        assert s[..|s| - 1] == before + (word + shorter);
      }
    } else {
      assert word + trail == word && s[|s| - 1] == word[|word| - 1];
    }
  }

  lemma TwoWords(lead: string, name: string, gap: string, version: string, trail: string)
    requires AllSpace(lead) && AllSpace(gap) && gap != "" && Word(name) && Word(version)
    requires trail == "" || IsSpace(trail[0])
    ensures TwoTokens(lead + (name + (gap + (version + trail)))) == Some(Dep(name, version))
    ensures TrimLeft(lead + (name + (gap + (version + trail))), IsSpace) == name + (gap + (version + trail))
  {
    var tail := gap + (version + trail);
    TrimLeftOf(lead, name + tail);
    TokenOf(name, tail);
    assert (name + tail)[|name|..] == tail;
    TrimLeftOf(gap, version + trail);
    TokenOf(version, trail);
  }

  // The code of a require, trimmed: its first two words are name and version.
  lemma RequireCode(r: Require) returns (kept: string)
    requires RequireOk(r)
    ensures TrimRight(Body(r), IsSpace) == r.lead + (r.name + (r.gap + (r.version + kept)))
    ensures kept == "" || IsSpace(kept[0])
  {
    Associative(r.name, r.gap, r.version + r.trail);
    Associative(r.lead, r.name + r.gap, r.version + r.trail);
    kept := TrimRightWord(r.lead + (r.name + r.gap), r.version, r.trail);
    Associative(r.name, r.gap, r.version + kept);
    Associative(r.lead, r.name + r.gap, r.version + kept);
  }

  // ---- lines in a block ----

  // The code of a require is neither blank nor a closing line.
  lemma ListedCode(r: Require)
    requires RequireOk(r)
    ensures TwoTokens(TrimRight(Body(r), IsSpace)) == Some(Dep(r.name, r.version))
    ensures |Trim(TrimRight(Body(r), IsSpace), IsSpace)| >= 3
  {
    var kept := RequireCode(r);
    TwoWords(r.lead, r.name, r.gap, r.version, kept);
    var t := r.name + (r.gap + (r.version + kept));
    hide TwoTokens, TrimRight, Body, Token;
    var kept' := TrimRightWord(r.name + r.gap, r.version, kept);
    Associative(r.name, r.gap, r.version + kept);
  }

  lemma IndirectIff(comment: Option<string>)
    ensures var c := if comment.Some? then comment.value else "";
      Contains(c, "indirect") <==> comment.Some? && Mentions(comment.value, "indirect")
  {
    ContainsIff(if comment.Some? then comment.value else "", "indirect");
    assert forall i :: 0 <= i <= |""| ==> !("indirect" <= ""[i..]);
  }

  lemma FeedListed(s: ParseState, r: Require)
    requires s.inBlock && RequireOk(r) && CodePart(Body(r), r.comment)
    ensures Feed(s, Commented(Body(r), r.comment)) == s.(deps := s.deps + Direct(r))
  {
    Separated(Body(r), r.comment);
    ListedCode(r);
    IndirectIff(r.comment);
    hide TwoTokens, Code, Comment, TrimLeft, TrimRight, Trim, Contains, Mentions, Commented, Body;
    assert s.deps + [] == s.deps;
  }

  lemma {:induction false} TrimLeftAll(s: string)
    requires AllSpace(s)
    ensures TrimLeft(s, IsSpace) == ""
  {
    if s != "" {
      TrimLeftAll(s[1..]);
    }
  }

  // White space behind a word is trimmed, the word is not.
  lemma {:induction false} TrimmedWord(before: string, word: string, trail: string)
    requires Word(word) && AllSpace(trail)
    ensures TrimRight(before + (word + trail), IsSpace) == before + word
  {
    var s := before + (word + trail);
    if trail != "" {
      assert s[..|s| - 1] == before + (word + trail[..|trail| - 1]);
      TrimmedWord(before, word, trail[..|trail| - 1]);
    } else {
      assert s == before + word && s[|s| - 1] == word[|word| - 1];
    }
  }

  lemma OneToken(lead: string, word: string)
    requires AllSpace(lead) && Word(word)
    ensures TwoTokens(lead + word) == None
    ensures Trim(lead + word, IsSpace) == word
  {
    TrimLeftOf(lead, word);
    TokenOf(word, "");
    assert word + "" == word && word[|word|..] == "" && "" + word == word;
    TrimmedWord("", word, "");
  }

  lemma FeedShort(s: ParseState, lead: string, word: string, trail: string, comment: Option<string>)
    requires s.inBlock && AllSpace(lead) && AllSpace(trail) && NoSpace(word) && word != ")"
    requires CodePart(lead + (word + trail), comment)
    ensures Feed(s, Commented(lead + (word + trail), comment)) == s
  {
    hide Code, Comment, Commented, Contains, CodePart, TrimRight, TrimLeft, TwoTokens;
    Separated(lead + (word + trail), comment);
    if word == "" {
      TrimRightAll(lead + (word + trail));
      TrimOfNothing();
    } else {
      TrimmedWord(lead, word, trail);
      OneToken(lead, word);
    }
  }

  lemma TrimOfNothing()
    ensures Trim("", IsSpace) == ""
  {
  }

  lemma FeedClose(s: ParseState, close: string, trail: string, comment: Option<string>)
    requires s.inBlock && AllSpace(close) && AllSpace(trail) && CodePart(close + (")" + trail), comment)
    ensures Feed(s, Commented(close + (")" + trail), comment)) == s.(inBlock := false)
  {
    hide Code, Comment, Commented, Contains, CodePart, TrimRight, TrimLeft, TwoTokens;
    Separated(close + (")" + trail), comment);
    TrimmedWord(close, ")", trail);
    OneToken(close, ")");
  }

  lemma FeedEntry(s: ParseState, e: Entry)
    requires s.inBlock && EntryOk(e)
    ensures Feed(s, EntryLine(e)) == s.(deps := s.deps + DirectEntry(e))
    ensures Unbroken(EntryLine(e))
  {
    hide Feed, CodePart, Commented, Body, Direct, Unbroken, RequireOk;
    match e
    case Short(lead, word, trail, comment) =>
      FeedShort(s, lead, word, trail, comment);
      Separated(lead + (word + trail), comment);
      assert s.deps + [] == s.deps;
    case Listed(r) =>
      FeedListed(s, r);
      Separated(Body(r), r.comment);
  }

  lemma {:induction false} FeedEntries(s: ParseState, entries: seq<Entry>)
    requires s.inBlock && forall i :: 0 <= i < |entries| ==> EntryOk(entries[i])
    ensures FeedAll(s, EntryLines(entries)) == s.(deps := s.deps + DirectIn(entries))
    ensures forall i :: 0 <= i < |EntryLines(entries)| ==> Unbroken(EntryLines(entries)[i])
  {
    hide Feed, FeedAll, EntryLine, EntryOk, DirectEntry, Unbroken;
    if entries == [] {
      FeedNothing(s);
      assert s.deps + [] == s.deps;
    } else {
      var n := |entries| - 1;
      FeedEntries(s, entries[..n]);
      var s' := s.(deps := s.deps + DirectIn(entries[..n]));
      FeedEntry(s', entries[n]);
      Associative(s.deps, DirectIn(entries[..n]), DirectEntry(entries[n]));
      FeedConcat(s, EntryLines(entries[..n]), [EntryLine(entries[n])]);
      FeedOne(s', EntryLine(entries[n]));
    }
  }

  // ---- lines outside a block ----

  lemma {:induction false} TrimLeftPrefix(p: string, s: string)
    requires p <= s
    ensures TrimLeft(p, IsSpace) == "" || TrimLeft(p, IsSpace) <= TrimLeft(s, IsSpace)
  {
    if p != "" && IsSpace(p[0]) {
      assert p[1..] <= s[1..];
      TrimLeftPrefix(p[1..], s[1..]);
    }
  }

  lemma {:induction false} TrimLeftStops(s: string)
    requires !AllSpace(s)
    ensures TrimLeft(s, IsSpace) != ""
  {
    if IsSpace(s[0]) {
      assert !AllSpace(s[1..]);
      TrimLeftStops(s[1..]);
    }
  }

  lemma FeedOther(s: ParseState, lead: string, text: string)
    requires !s.inBlock && AllSpace(lead) && NoRequire(text)
    ensures Feed(s, lead + text) == s
  {
    var raw := lead + text;
    TrimLeftOf(lead, text);
    OtherOpensNothing(raw, text);
    TrimRightPrefix(raw[..SlashesAt(raw)]);
    assert Code(raw) <= raw;
    TrimLeftPrefix(Code(raw), raw);
    var t := TrimLeft(Code(raw), IsSpace);
    assert SingleRequire(Code(raw)).None? by {
      hide Code, TrimLeft, OpensBlock;
    }
    hide Code, SingleRequire, OpensBlock;
  }

  lemma OtherOpensNothing(raw: string, text: string)
    requires TrimLeft(raw, IsSpace) == text && NoRequire(text)
    ensures !OpensBlock(raw)
  {
    if REQUIRE <= text {
      var u := text[|REQUIRE|..];
      assert TrimLeft(u, IsSpace) == u;
      if u[0] == '(' {
        assert u[1..] == text[|REQUIRE| + 1..];
        TrimLeftStops(u[1..]);
      }
    }
  }

  lemma FeedUnfinished(s: ParseState, before: string, gap: string, word: string, trail: string,
                       comment: Option<string>)
    requires !s.inBlock && AllSpace(before) && UnfinishedOk(gap, word, trail, comment)
    requires CodePart(before + ("require" + (gap + (word + trail))), comment)
    ensures Feed(s, Commented(before + ("require" + (gap + (word + trail))), comment)) == s
  {
    hide Code, Comment, Commented, Contains, CodePart, TrimRight, OpensBlock, SingleRequire, UnfinishedOk;
    UnfinishedOpensNothing(before, gap, word, trail, comment);
    Separated(before + ("require" + (gap + (word + trail))), comment);
    NoSingle(before, gap, word, trail, comment);
  }

  // What follows `require` decides whether a block opens.
  lemma NotOpened(before: string, v: string)
    requires AllSpace(before)
    requires var u := TrimLeft(v, IsSpace); u == [] || u[0] != '(' || TrimLeft(u[1..], IsSpace) != []
    ensures !OpensBlock(before + ("require" + v))
  {
    TrimLeftOf(before, "require" + v);
    assert ("require" + v)[|REQUIRE|..] == v;
  }

  lemma UnfinishedOpensNothing(before: string, gap: string, word: string, trail: string, comment: Option<string>)
    requires AllSpace(before) && UnfinishedOk(gap, word, trail, comment)
    ensures !OpensBlock(Commented(before + ("require" + (gap + (word + trail))), comment))
  {
    var rest := if comment.Some? then "//" + comment.value else "";
    var v := gap + (word + (trail + rest));
    NoBlockAhead(gap, word, trail, rest);
    NotOpened(before, v);
    hide OpensBlock, UnfinishedOk;
    CommentedEnd(before, gap, word, trail, comment);
  }

  lemma CommentedEnd(before: string, gap: string, word: string, trail: string, comment: Option<string>)
    ensures Commented(before + ("require" + (gap + (word + trail))), comment)
      == before + ("require" + (gap + (word + (trail + if comment.Some? then "//" + comment.value else ""))))
  {
    var rest := if comment.Some? then "//" + comment.value else "";
    Associative(word, trail, rest);
    Associative(gap, word + trail, rest);
    Associative("require", gap + (word + trail), rest);
    Associative(before, "require" + (gap + (word + trail)), rest);
    assert trail + "" == trail;
  }

  lemma NoBlockAhead(gap: string, word: string, trail: string, rest: string)
    requires AllSpace(gap) && AllSpace(trail) && NoSpace(word)
    requires (rest == "" || rest[0] == '/') && (word == "(" ==> rest != "")
    ensures var u := TrimLeft(gap + (word + (trail + rest)), IsSpace);
      u == [] || u[0] != '(' || TrimLeft(u[1..], IsSpace) != []
  {
    var end := trail + rest;
    if word == "" {
      assert word + end == end;
      Associative(gap, trail, rest);
      TrimLeftOf(gap + trail, rest);
    } else {
      TrimLeftOf(gap, word + end);
      assert (word + end)[1..] == word[1..] + end;
      if |word| == 1 {
        assert word[1..] + end == end;
        TrimLeftOf(trail, rest);
      }
    }
  }

  lemma NoSingle(before: string, gap: string, word: string, trail: string, comment: Option<string>)
    requires AllSpace(before) && UnfinishedOk(gap, word, trail, comment)
    ensures SingleRequire(TrimRight(before + ("require" + (gap + (word + trail))), IsSpace)) == None
  {
    hide TrimRight, TwoTokens;
    if word == "" {
      assert gap + (word + trail) == gap + trail;
      TrimmedWord(before, "require", gap + trail);
      TrimLeftOf(before, "require");
    } else {
      Associative("require", gap, word + trail);
      Associative(before, "require" + gap, word + trail);
      TrimmedWord(before + ("require" + gap), word, trail);
      Associative(before, "require" + gap, word);
      Associative("require", gap, word);
      TrimLeftOf(before, "require" + (gap + word));
      assert ("require" + (gap + word))[|REQUIRE|..] == gap + word;
      OneToken(gap, word);
    }
  }

  // A single require does not open a block, not even with a name that is "(".
  lemma SingleOpensNothing(before: string, r: Require, rest: string)
    requires AllSpace(before) && RequireOk(r)
    ensures !OpensBlock(before + ("require" + (Body(r) + rest)))
  {
    var tail := r.gap + (r.version + r.trail);
    var u := r.name + (tail + rest);
    assert Body(r) + rest == r.lead + u;
    TrimLeftOf(r.lead, u);
    assert u[1..][|r.name| - 1 + |r.gap|] == r.version[0];
    TrimLeftStops(u[1..]);
    NotOpened(before, Body(r) + rest);
  }

  lemma FeedSingle(s: ParseState, before: string, r: Require)
    requires !s.inBlock && AllSpace(before) && RequireOk(r) && r.lead != ""
    requires CodePart(before + ("require" + Body(r)), r.comment)
    ensures Feed(s, Commented(before + ("require" + Body(r)), r.comment)) == s.(deps := s.deps + Direct(r))
  {
    hide OpensBlock, Code, Comment, CodePart, SingleRequire, TrimRight, Contains, Mentions, Commented, Body, RequireOk;
    SingleNoBlock(before, r);
    Separated(before + ("require" + Body(r)), r.comment);
    SingleFound(before, r);
    IndirectIff(r.comment);
    assert s.deps + [] == s.deps;
  }

  lemma SingleNoBlock(before: string, r: Require)
    requires AllSpace(before) && RequireOk(r)
    ensures !OpensBlock(Commented(before + ("require" + Body(r)), r.comment))
  {
    hide OpensBlock, Body, RequireOk;
    var rest := if r.comment.Some? then "//" + r.comment.value else "";
    SingleOpensNothing(before, r, rest);
    Associative("require", Body(r), rest);
    Associative(before, "require" + Body(r), rest);
    assert (before + ("require" + Body(r))) + "" == before + ("require" + Body(r));
  }

  lemma SplitBody(before: string, r: Require, tail: string)
    ensures before + ("require" + (r.lead + (r.name + (r.gap + (r.version + tail)))))
         == (before + ("require" + (r.lead + (r.name + r.gap)))) + (r.version + tail)
  {
    var end := r.version + tail;
    Associative(r.name, r.gap, end);
    Associative(r.lead, r.name + r.gap, end);
    Associative("require", r.lead + (r.name + r.gap), end);
    Associative(before, "require" + (r.lead + (r.name + r.gap)), end);
  }

  lemma SingleFound(before: string, r: Require)
    requires AllSpace(before) && RequireOk(r) && r.lead != ""
    ensures SingleRequire(TrimRight(before + ("require" + Body(r)), IsSpace)) == Some(Dep(r.name, r.version))
  {
    hide TrimRight, TwoTokens, Token;
    SplitBody(before, r, r.trail);
    var kept := TrimRightWord(before + ("require" + (r.lead + (r.name + r.gap))), r.version, r.trail);
    SplitBody(before, r, kept);
    var words := r.lead + (r.name + (r.gap + (r.version + kept)));
    assert TrimRight(before + ("require" + Body(r)), IsSpace) == before + ("require" + words);
    TwoWords(r.lead, r.name, r.gap, r.version, kept);
    SingleWords(before, words, Dep(r.name, r.version));
  }

  lemma SingleWords(before: string, words: string, dep: Dep)
    requires AllSpace(before) && words != "" && IsSpace(words[0]) && TwoTokens(words) == Some(dep)
    ensures SingleRequire(before + ("require" + words)) == Some(dep)
  {
    hide TwoTokens;
    TrimLeftOf(before, "require" + words);
    assert ("require" + words)[|REQUIRE|..] == words;
  }

  lemma FeedOpen(s: ParseState, before: string, open: string, rest: string)
    requires !s.inBlock && AllSpace(before) && AllSpace(open) && AllSpace(rest)
    ensures Feed(s, before + ("require" + (open + ("(" + rest)))) == s.(inBlock := true)
  {
    var t := "require" + (open + ("(" + rest));
    TrimLeftOf(before, t);
    assert t[|REQUIRE|..] == open + ("(" + rest);
    TrimLeftOf(open, "(" + rest);
    assert ("(" + rest)[1..] == rest;
    TrimLeftAll(rest);
    assert OpensBlock(before + t);
    hide OpensBlock, Code, Comment, Contains, SingleRequire;
  }

  // ---- whole files ----

  lemma FeedOpened(s: ParseState, before: string, open: string, rest: string, entries: seq<Entry>)
    requires !s.inBlock && OpenedOk(before, open, rest, entries)
    ensures FeedAll(s, Opened(before, open, rest, entries))
         == s.(inBlock := true, deps := s.deps + DirectIn(entries))
    ensures var all := Opened(before, open, rest, entries); forall i :: 0 <= i < |all| ==> Unbroken(all[i])
  {
    hide Feed, FeedAll, Unbroken, EntryLines, DirectIn, EntryOk;
    var first := before + ("require" + (open + ("(" + rest)));
    var s' := s.(inBlock := true);
    FeedOpen(s, before, open, rest);
    FeedOne(s, first);
    FeedEntries(s', entries);
    FeedConcat(s, [first], EntryLines(entries));
  }

  lemma FeedBlock(s: ParseState, item: Item)
    requires !s.inBlock && item.Block? && ItemOk(item)
    ensures FeedAll(s, ItemLines(item)) == s.(deps := s.deps + DirectOf(item))
    ensures forall i :: 0 <= i < |ItemLines(item)| ==> Unbroken(ItemLines(item)[i])
  {
    hide Feed, FeedAll, CodePart, Unbroken, Commented, Opened, OpenedOk, DirectIn;
    var last := Commented(item.close + (")" + item.trail), item.comment);
    var head := Opened(item.before, item.open, item.rest, item.entries);
    FeedOpened(s, item.before, item.open, item.rest, item.entries);
    var s' := s.(inBlock := true, deps := s.deps + DirectIn(item.entries));
    FeedClose(s', item.close, item.trail, item.comment);
    Separated(item.close + (")" + item.trail), item.comment);
    FeedConcat(s, head, [last]);
    FeedOne(s', last);
  }

  lemma FeedItem(s: ParseState, item: Item)
    requires !s.inBlock && ItemOk(item)
    ensures FeedAll(s, ItemLines(item)) == s.(inBlock := item.Unclosed?, deps := s.deps + DirectOf(item))
    ensures forall i :: 0 <= i < |ItemLines(item)| ==> Unbroken(ItemLines(item)[i])
  {
    assert s.deps + [] == s.deps;
    match item
    case Other(lead, text) =>
      FeedOther(s, lead, text);
      FeedOne(s, lead + text);
    case Unfinished(before, gap, word, trail, comment) =>
      FeedUnfinished(s, before, gap, word, trail, comment);
      Separated(before + ("require" + (gap + (word + trail))), comment);
      FeedOne(s, Commented(before + ("require" + (gap + (word + trail))), comment));
    case Single(before, r) =>
      FeedSingle(s, before, r);
      Separated(before + ("require" + Body(r)), r.comment);
      FeedOne(s, Commented(before + ("require" + Body(r)), r.comment));
    case Block(_, _, _, _, _, _, _) => FeedBlock(s, item);
    case Unclosed(before, open, rest, entries) => FeedOpened(s, before, open, rest, entries);
  }

  lemma FeedOne(s: ParseState, line: string)
    ensures FeedAll(s, [line]) == Feed(s, line)
  {
    assert [line][..0] == [];
  }

  lemma {:induction false} FeedItems(s: ParseState, items: seq<Item>)
    requires !s.inBlock && ItemsOk(items)
    ensures FeedAll(s, Lines(items)) == s.(inBlock := EndsOpen(items), deps := s.deps + Expected(items))
    ensures forall i :: 0 <= i < |Lines(items)| ==> Unbroken(Lines(items)[i])
  {
    hide FeedAll, ItemLines, DirectOf, ItemOk, Unbroken;
    if items == [] {
      FeedNothing(s);
      assert s.deps + [] == s.deps;
    } else {
      var n := |items| - 1;
      FeedItems(s, items[..n]);
      var s' := s.(deps := s.deps + Expected(items[..n]));
      FeedItem(s', items[n]);
      FeedConcat(s, Lines(items[..n]), ItemLines(items[n]));
      Associative(s.deps, Expected(items[..n]), DirectOf(items[n]));
    }
  }

  lemma FeedNothing(s: ParseState)
    ensures FeedAll(s, []) == s
  {
  }

  // What str.splitlines takes for the end of a line.
  const LINE_ENDS: seq<string> :=
    ["\n", "\r\n", "\r", "\U{b}", "\U{c}", "\U{1c}", "\U{1d}", "\U{1e}", "\U{85}", "\U{2028}", "\U{2029}"]

  // The text of the lines, each with its own end.
  function TextOf(lines: seq<string>, ends: seq<string>): string
    requires |lines| == |ends|
  {
    if lines == [] then "" else lines[0] + (ends[0] + TextOf(lines[1..], ends[1..]))
  }

  // Every line has an end, but the last can do without if it is not empty; a CR
  // is no end in front of an LF, the two are one.
  predicate EndsOk(lines: seq<string>, ends: seq<string>) {
    && |lines| == |ends|
    && (forall i :: 0 <= i < |ends| ==> ends[i] in LINE_ENDS || (ends[i] == "" && i == |ends| - 1 && lines[i] != ""))
    && (forall i :: 0 <= i < |ends| - 1 && ends[i] == "\r" ==> lines[i + 1] != "" || ends[i + 1] != "\n")
  }

  lemma LineOff(line: string, end: string, rest: string)
    requires Unbroken(line) && end in LINE_ENDS && (end == "\r" ==> rest == "" || rest[0] != '\n')
    ensures SplitLines(line + (end + rest)) == [line] + SplitLines(rest)
  {
    EndBreaks(end);
    var s := line + (end + rest);
    LineEndOf(line, end + rest);
    assert s[..|line|] == line && s[|line| + |end|..] == rest;
    assert s[|line|] == end[0];
    if |end| == 2 || rest != "" {
      assert s[|line| + 1] == if |end| == 2 then end[1] else rest[0];
    }
  }

  lemma EndBreaks(end: string)
    requires end in LINE_ENDS
    ensures end != "" && IsBreak(end[0]) && (|end| == 1 || end == "\r\n")
  {
  }

  lemma LastLine(line: string)
    requires Unbroken(line) && line != ""
    ensures SplitLines(line) == [line]
  {
    assert line + "" == line;
    LineEndOf(line, "");
  }

  lemma {:induction false} LinesOff(lines: seq<string>, ends: seq<string>)
    requires EndsOk(lines, ends) && forall i :: 0 <= i < |lines| ==> Unbroken(lines[i])
    ensures SplitLines(TextOf(lines, ends)) == lines
  {
    hide SplitLines, Unbroken, LINE_ENDS;
    if lines == [] {
      SplitNothing();
    } else if ends[0] !in LINE_ENDS {
      LastLine(lines[0]);
      assert lines == [lines[0]] && TextOf(lines, ends) == lines[0];
    } else {
      LinesOff(lines[1..], ends[1..]);
      if ends[0] == "\r" {
        NextStart(lines, ends);
      }
      LineOff(lines[0], ends[0], TextOf(lines[1..], ends[1..]));
    }
  }

  lemma SplitNothing()
    ensures SplitLines("") == []
  {
  }

  // Nothing after a CR starts with an LF.
  lemma NextStart(lines: seq<string>, ends: seq<string>)
    requires lines != [] && EndsOk(lines, ends) && ends[0] == "\r"
    requires forall i :: 0 <= i < |lines| ==> Unbroken(lines[i])
    ensures var rest := TextOf(lines[1..], ends[1..]); rest == "" || rest[0] != '\n'
  {
  }

  // From any go.mod text made of such lines, the parser returns the name and
  // version of every require, single or in a block, whose comment does not say
  // it is indirect, in order, and nothing else.
  lemma Recovered(items: seq<Item>, ends: seq<string>)
    requires ItemsOk(items)
    requires EndsOk(Lines(items), ends)
    ensures ParsedDeps(TextOf(Lines(items), ends)) == Expected(items)
  {
    hide ItemsOk, Lines, EndsOk, Unbroken, FeedAll, SplitLines, TextOf;
    FeedItems(INITIAL, items);
    LinesOff(Lines(items), ends);
    assert [] + Expected(items) == Expected(items);
  }
}
