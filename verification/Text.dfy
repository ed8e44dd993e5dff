// Lines and white space.
module Text {

  // The pieces of s between occurrences of sep.
  function SplitOn(s: string, sep: char): (r: seq<string>)
    ensures |r| > 0
  {
    if s == [] then [[]]
    else
      var rest := SplitOn(s[1..], sep);
      if s[0] == sep then [[]] + rest else Extend(s[0], rest)
  }

  // The pieces with c put in front of the first.
  function Extend(c: char, pieces: seq<string>): seq<string>
    requires pieces != []
  {
    [[c] + pieces[0]] + pieces[1..]
  }

  lemma ExtendConcat(c: char, a: seq<string>, b: seq<string>)
    requires a != []
    ensures Extend(c, a + b) == Extend(c, a) + b
  {
    assert (a + b)[1..] == a[1..] + b;
  }

  function Join(pieces: seq<string>, sep: char): string {
    if pieces == [] then []
    else if |pieces| == 1 then pieces[0]
    else pieces[0] + ([sep] + Join(pieces[1..], sep))
  }

  lemma Associative<T>(a: seq<T>, b: seq<T>, c: seq<T>)
    ensures (a + b) + c == a + (b + c)
  {
  }

  lemma {:induction false} SplitConcat(a: string, b: string, sep: char)
    ensures SplitOn(a + ([sep] + b), sep) == SplitOn(a, sep) + SplitOn(b, sep)
  {
    var tail := [sep] + b;
    if a == [] {
      assert a + tail == tail && tail[1..] == b;
    } else {
      SplitConcat(a[1..], b, sep);
      assert (a + tail)[1..] == a[1..] + tail;
      ExtendConcat(a[0], SplitOn(a[1..], sep), SplitOn(b, sep));
      Associative([[]], SplitOn(a[1..], sep), SplitOn(b, sep));
    }
  }

  lemma {:induction false} SplitPlain(a: string, sep: char)
    requires sep !in a
    ensures SplitOn(a, sep) == [a]
  {
    if a != [] {
      SplitPlain(a[1..], sep);
      assert [a[0]] + a[1..] == a;
    }
  }

  // Splitting undoes joining when no piece contains the separator.
  lemma {:induction false} SplitJoin(pieces: seq<string>, sep: char)
    requires pieces != [] && forall i :: 0 <= i < |pieces| ==> sep !in pieces[i]
    ensures SplitOn(Join(pieces, sep), sep) == pieces
  {
    SplitPlain(pieces[0], sep);
    if |pieces| > 1 {
      SplitJoin(pieces[1..], sep);
      SplitConcat(pieces[0], Join(pieces[1..], sep), sep);
    }
  }

  // The white space both Go's TrimSpace and Python's str.strip remove.
  predicate IsUnicodeSpace(c: char) {
    || '\t' <= c <= '\r' || c == ' ' || c == '\U{85}' || c == '\U{a0}' || c == '\U{1680}'
    || c == '\U{2028}' || c == '\U{2029}' || c == '\U{202f}' || c == '\U{205f}' || c == '\U{3000}'
    || '\U{2000}' <= c <= '\U{200a}'
  }

  function TrimLeft(s: string, space: char -> bool): string {
    if s != [] && space(s[0]) then TrimLeft(s[1..], space) else s
  }

  function TrimRight(s: string, space: char -> bool): string {
    if s != [] && space(s[|s| - 1]) then TrimRight(s[..|s| - 1], space) else s
  }

  function Trim(s: string, space: char -> bool): string {
    TrimRight(TrimLeft(s, space), space)
  }

  // Trim takes off exactly the space characters at both ends.
  lemma TrimExact(s: string, space: char -> bool) returns (left: string, right: string)
    ensures s == left + Trim(s, space) + right
    ensures forall i :: 0 <= i < |left| ==> space(left[i])
    ensures forall i :: 0 <= i < |right| ==> space(right[i])
    ensures var t := Trim(s, space); t != "" ==> !space(t[0]) && !space(t[|t| - 1])
  {
    left := TrimLeftExact(s, space);
    right := TrimRightExact(TrimLeft(s, space), space);
    Associative(left, Trim(s, space), right);
  }

  lemma {:induction false} TrimLeftExact(s: string, space: char -> bool) returns (left: string)
    ensures s == left + TrimLeft(s, space) && forall i :: 0 <= i < |left| ==> space(left[i])
    ensures var t := TrimLeft(s, space); t != "" ==> !space(t[0])
  {
    left := [];
    if s != [] && space(s[0]) {
      left := TrimLeftExact(s[1..], space);
      left := [s[0]] + left;
    }
  }

  lemma {:induction false} TrimRightExact(s: string, space: char -> bool) returns (right: string)
    ensures s == TrimRight(s, space) + right && forall i :: 0 <= i < |right| ==> space(right[i])
    ensures var t := TrimRight(s, space); t != "" ==> t[0] == s[0] && !space(t[|t| - 1])
  {
    right := [];
    if s != [] && space(s[|s| - 1]) {
      right := TrimRightExact(s[..|s| - 1], space);
      right := right + [s[|s| - 1]];
    }
  }

  predicate IsDigit(c: char) { '0' <= c <= '9' }

  predicate AllDigits(s: string) { forall i :: 0 <= i < |s| ==> IsDigit(s[i]) }

  // The number a string of digits denotes.
  function Value(s: string): nat
    requires AllDigits(s)
  {
    if s == [] then 0 else 10 * Value(s[..|s| - 1]) + (s[|s| - 1] as int - '0' as int)
  }
}
