/** Python's `sorted` on strings, by code points. */
module Sorting {
  import opened Prelude

  function Insert(x: string, s: seq<string>): seq<string> {
    if s == [] then [x] else if StringLess(s[0], x) then [s[0]] + Insert(x, s[1..]) else [x] + s
  }

  function Sorted(s: seq<string>): seq<string> {
    if s == [] then [] else Insert(s[0], Sorted(s[1..]))
  }

  predicate Ascending(s: seq<string>) {
    forall i | 0 < i < |s| :: !StringLess(s[i], s[i - 1])
  }

  lemma {:induction false} InsertKeeps(x: string, s: seq<string>)
    ensures multiset(Insert(x, s)) == multiset([x] + s)
  {
    if s == [] || !StringLess(s[0], x) {
    } else {
      InsertKeeps(x, s[1..]);
      assert s == [s[0]] + s[1..];
    }
  }

  /** Sorting only reorders. */
  lemma {:induction false} SortedKeeps(s: seq<string>)
    ensures multiset(Sorted(s)) == multiset(s)
  {
    if s == [] {
    } else {
      SortedKeeps(s[1..]);
      InsertKeeps(s[0], Sorted(s[1..]));
      assert s == [s[0]] + s[1..];
    }
  }

  lemma {:induction false} InsertAscends(x: string, s: seq<string>)
    requires Ascending(s)
    ensures Ascending(Insert(x, s))
  {
    if s != [] && StringLess(s[0], x) {
      var rest := Insert(x, s[1..]);
      assert forall i | 0 < i < |s[1..]| :: s[1..][i] == s[i + 1] && s[1..][i - 1] == s[i];
      InsertAscends(x, s[1..]);
      StringLessTotal(s[0], x);
      assert rest[0] == x || (|s| > 1 && rest[0] == s[1]);
    } else if s != [] {
      StringLessTotal(s[0], x);
    }
  }

  /** And its result is in order. */
  lemma {:induction false} SortedAscends(s: seq<string>)
    ensures Ascending(Sorted(s))
  {
    if s == [] {
    } else {
      SortedAscends(s[1..]);
      InsertAscends(s[0], Sorted(s[1..]));
    }
  }

  lemma HeadDistinct(x: string, s: seq<string>)
    ensures NoDuplicates([x] + s) <==> x !in s && NoDuplicates(s)
  {
    var t := [x] + s;
    if NoDuplicates(t) {
      forall i, j | 0 <= i < j < |s|
        ensures s[i] != s[j]
      {
        assert t[i + 1] != t[j + 1];
      }
      forall i | 0 <= i < |s|
        ensures s[i] != x
      {
        assert t[0] != t[i + 1];
      }
    }
  }

  /** Duplicates show in the multiset, so reordering makes none. */
  lemma {:induction false} DuplicatesCount(s: seq<string>)
    ensures NoDuplicates(s) <==> forall x <- s :: multiset(s)[x] == 1
  {
    if s == [] {
    } else {
      var x, t := s[0], s[1..];
      assert s == [x] + t;
      HeadDistinct(x, t);
      DuplicatesCount(t);
      assert multiset(s) == multiset{x} + multiset(t);
      if forall y <- s :: multiset(s)[y] == 1 {
        assert multiset(s)[x] == 1;
        assert x !in multiset(t);
        forall y | y in t
          ensures multiset(t)[y] == 1
        {
          assert y in s && multiset(s)[y] == 1;
        }
      }
    }
  }

  lemma SortedNoDuplicates(s: seq<string>)
    requires NoDuplicates(s)
    ensures NoDuplicates(Sorted(s)) && forall x :: x in Sorted(s) <==> x in s
  {
    SortedKeeps(s);
    DuplicatesCount(s);
    DuplicatesCount(Sorted(s));
    assert forall x :: x in multiset(Sorted(s)) <==> x in multiset(s);
  }
}
