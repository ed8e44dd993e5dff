// Types and notions shared by all modules.
module Prelude {

  datatype Option<+T> = None | Some(value: T)

  datatype Result<+T, +E> = Ok(value: T) | Err(error: E)

  predicate NoDuplicates<T(==)>(s: seq<T>) {
    forall i, j :: 0 <= i < j < |s| ==> s[i] != s[j]
  }

  function Elements<T>(s: seq<T>): set<T> { set x | x in s }

  // A sequence without repeats has as many elements as its set.
  lemma {:induction false} DistinctCount<T>(s: seq<T>)
    requires NoDuplicates(s)
    ensures |Elements(s)| == |s|
  {
    if s != [] {
      var last, rest := s[|s| - 1], s[..|s| - 1];
      DistinctCount(rest);
      assert s == rest + [last];
      assert Elements(s) == Elements(rest) + {last} && last !in Elements(rest);
    }
  }

  lemma TwiceIn<T>(s: seq<T>, i: nat, j: nat)
    requires i < j < |s|
    ensures s[i] == s[j] ==> multiset(s)[s[i]] >= 2
  {
    var a, b := s[..i + 1], s[i + 1..];
    assert s == a + b;
    assert a[i] == s[i] && b[j - i - 1] == s[j];
    assert s[i] in multiset(a) && s[j] in multiset(b);
  }

  lemma {:induction false} OnceIn<T>(s: seq<T>, x: T)
    requires NoDuplicates(s)
    ensures multiset(s)[x] <= 1
  {
    if s != [] {
      var last, rest := s[|s| - 1], s[..|s| - 1];
      OnceIn(rest, x);
      assert s == rest + [last];
      assert last !in multiset(rest);
    }
  }

  // Rearranging makes no repeats.
  lemma Rearranged<T>(s: seq<T>, t: seq<T>)
    requires NoDuplicates(s) && multiset(s) == multiset(t)
    ensures NoDuplicates(t) && Elements(s) == Elements(t) && |s| == |t|
  {
    forall i, j | 0 <= i < j < |t| ensures t[i] != t[j] {
      TwiceIn(t, i, j);
      OnceIn(s, t[i]);
    }
    forall x: T ensures x in s <==> x in t {
      assert x in multiset(s) <==> x in multiset(t);
    }
    DistinctCount(s);
    DistinctCount(t);
  }
}
