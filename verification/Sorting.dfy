/** Stable sorting by a total preorder: the contract of JavaScript's Array.prototype.sort and of
    Elixir's Enum.sort_by, as a function. */
module Sorting {

  /** `before(x, y)`: x may stand in front of y. */
  ghost predicate TotalPreorder<T(!new)>(before: (T, T) -> bool) {
    (forall x, y :: before(x, y) || before(y, x)) &&
    (forall x, y, z :: before(x, y) && before(y, z) ==> before(x, z))
  }

  ghost predicate Antisymmetric<T(!new)>(before: (T, T) -> bool) {
    forall x, y :: before(x, y) && before(y, x) ==> x == y
  }

  ghost predicate Sorted<T(!new)>(s: seq<T>, before: (T, T) -> bool) {
    forall i, j :: 0 <= i < j < |s| ==> before(s[i], s[j])
  }

  function Insert<T>(x: T, s: seq<T>, before: (T, T) -> bool): (r: seq<T>)
    ensures |r| == |s| + 1
  {
    if s == [] || before(x, s[0]) then [x] + s else [s[0]] + Insert(x, s[1..], before)
  }

  function Sort<T>(s: seq<T>, before: (T, T) -> bool): (r: seq<T>)
    ensures |r| == |s|
  {
    if s == [] then [] else Insert(s[0], Sort(s[1..], before), before)
  }

  function Filter<T>(s: seq<T>, keep: T -> bool): (r: seq<T>)
    ensures |r| <= |s|
  {
    if s == [] then [] else (if keep(s[0]) then [s[0]] else []) + Filter(s[1..], keep)
  }

  // ----- Sort permutes, sorts and is stable

  lemma {:induction false} InsertPermutes<T>(x: T, s: seq<T>, before: (T, T) -> bool)
    ensures multiset(Insert(x, s, before)) == multiset{x} + multiset(s)
  {
    if s != [] && !before(x, s[0]) {
      InsertPermutes(x, s[1..], before);
      assert s == [s[0]] + s[1..];
    }
  }

  lemma {:induction false} SortPermutes<T>(s: seq<T>, before: (T, T) -> bool)
    ensures multiset(Sort(s, before)) == multiset(s)
  {
    if s != [] {
      SortPermutes(s[1..], before);
      InsertPermutes(s[0], Sort(s[1..], before), before);
      assert s == [s[0]] + s[1..];
    }
  }

  lemma {:induction false} InsertSorts<T(!new)>(x: T, s: seq<T>, before: (T, T) -> bool)
    requires TotalPreorder(before) && Sorted(s, before)
    ensures Sorted(Insert(x, s, before), before)
  {
    if s != [] && !before(x, s[0]) {
      var rest := Insert(x, s[1..], before);
      InsertSorts(x, s[1..], before);
      InsertPermutes(x, s[1..], before);
      forall y | y in rest ensures before(s[0], y) {
        assert y in multiset(rest);
      }
    }
  }

  lemma {:induction false} SortSorts<T(!new)>(s: seq<T>, before: (T, T) -> bool)
    requires TotalPreorder(before)
    ensures Sorted(Sort(s, before), before)
  {
    if s != [] {
      SortSorts(s[1..], before);
      InsertSorts(s[0], Sort(s[1..], before), before);
    }
  }

  /** `keep` picks elements that tie with one another. */
  ghost predicate Ties<T(!new)>(keep: T -> bool, before: (T, T) -> bool) {
    forall x, y :: keep(x) && keep(y) ==> before(x, y)
  }

  lemma {:induction false} InsertKeepsTies<T(!new)>(x: T, s: seq<T>, before: (T, T) -> bool, keep: T -> bool)
    requires Ties(keep, before)
    ensures Filter(Insert(x, s, before), keep) == Filter([x] + s, keep)
  {
    if s == [] || before(x, s[0]) {
    } else {
      InsertKeepsTies(x, s[1..], before, keep);
      assert ([x] + s)[1..] == s && ([x] + s[1..])[1..] == s[1..];
      assert ([s[0]] + Insert(x, s[1..], before))[1..] == Insert(x, s[1..], before);
      assert !(keep(x) && keep(s[0]));
    }
  }

  /** Stability: elements that tie keep their order. */
  lemma {:induction false} SortIsStable<T(!new)>(s: seq<T>, before: (T, T) -> bool, keep: T -> bool)
    requires Ties(keep, before)
    ensures Filter(Sort(s, before), keep) == Filter(s, keep)
  {
    if s != [] {
      var rest := Sort(s[1..], before);
      SortIsStable(s[1..], before, keep);
      InsertKeepsTies(s[0], rest, before, keep);
      assert ([s[0]] + rest)[1..] == rest;
    }
  }

  lemma {:induction false} TailMultiset<T>(s: seq<T>)
    requires s != []
    ensures multiset(s[1..]) == multiset(s) - multiset{s[0]}
  {
    assert s == [s[0]] + s[1..];
  }

  /** The first of a sorted list comes before everything in it. */
  lemma {:induction false} FirstIsBefore<T(!new)>(s: seq<T>, x: T, before: (T, T) -> bool)
    requires Sorted(s, before) && x in multiset(s)
    ensures s[0] == x || before(s[0], x)
  {
    var i :| 0 <= i < |s| && s[i] == x;
  }

  /** With no ties, the sorted order of given elements is unique. */
  lemma {:induction false} SortedUnique<T(!new)>(a: seq<T>, b: seq<T>, before: (T, T) -> bool)
    requires Antisymmetric(before) && Sorted(a, before) && Sorted(b, before)
    requires multiset(a) == multiset(b)
    ensures a == b
  {
    assert |a| == |multiset(a)| == |multiset(b)| == |b|;
    if a != [] {
      assert a[0] in multiset(b) && b[0] in multiset(a);
      FirstIsBefore(b, a[0], before);
      FirstIsBefore(a, b[0], before);
      TailMultiset(a);
      TailMultiset(b);
      SortedUnique(a[1..], b[1..], before);
      assert a == [a[0]] + a[1..] && b == [b[0]] + b[1..];
    }
  }

  lemma {:induction false} SortIsCanonical<T(!new)>(a: seq<T>, b: seq<T>, before: (T, T) -> bool)
    requires TotalPreorder(before) && Antisymmetric(before) && multiset(a) == multiset(b)
    ensures Sort(a, before) == Sort(b, before)
  {
    SortPermutes(a, before);
    SortPermutes(b, before);
    SortSorts(a, before);
    SortSorts(b, before);
    SortedUnique(Sort(a, before), Sort(b, before), before);
  }

  // ----- sorting on a flag first and a second order within each flag value

  /** `lex` puts flagged elements first and otherwise sorts as `before`. */
  ghost predicate FlagFirst<T(!new)>(lex: (T, T) -> bool, flag: T -> bool, before: (T, T) -> bool) {
    forall x, y :: lex(x, y) <==> (if flag(x) == flag(y) then before(x, y) else flag(x))
  }

  lemma {:induction false} FilterIn<T(!new)>(s: seq<T>, keep: T -> bool)
    ensures forall x :: x in Filter(s, keep) <==> x in s && keep(x)
  {
    if s != [] {
      FilterIn(s[1..], keep);
      assert s == [s[0]] + s[1..];
    }
  }

  lemma {:induction false} InsertFlagged<T(!new)>(x: T, a: seq<T>, b: seq<T>, flag: T -> bool,
                                                  lex: (T, T) -> bool, before: (T, T) -> bool)
    requires FlagFirst(lex, flag, before) && flag(x)
    requires (forall y :: y in a ==> flag(y)) && (forall y :: y in b ==> !flag(y))
    ensures Insert(x, a + b, lex) == Insert(x, a, before) + b
  {
    if a == [] {
      assert a + b == b;
    } else {
      assert (a + b)[1..] == a[1..] + b;
      if !before(x, a[0]) {
        InsertFlagged(x, a[1..], b, flag, lex, before);
      }
    }
  }

  lemma {:induction false} InsertAmongUnflagged<T(!new)>(x: T, b: seq<T>, flag: T -> bool,
                                                         lex: (T, T) -> bool, before: (T, T) -> bool)
    requires FlagFirst(lex, flag, before) && !flag(x) && forall y :: y in b ==> !flag(y)
    ensures Insert(x, b, lex) == Insert(x, b, before)
  {
    if b != [] && !before(x, b[0]) {
      InsertAmongUnflagged(x, b[1..], flag, lex, before);
    }
  }

  lemma {:induction false} InsertUnflagged<T(!new)>(x: T, a: seq<T>, b: seq<T>, flag: T -> bool,
                                                    lex: (T, T) -> bool, before: (T, T) -> bool)
    requires FlagFirst(lex, flag, before) && !flag(x)
    requires (forall y :: y in a ==> flag(y)) && (forall y :: y in b ==> !flag(y))
    ensures Insert(x, a + b, lex) == a + Insert(x, b, before)
  {
    if a == [] {
      assert a + b == b;
      InsertAmongUnflagged(x, b, flag, lex, before);
    } else {
      assert (a + b)[1..] == a[1..] + b;
      InsertUnflagged(x, a[1..], b, flag, lex, before);
    }
  }

  /** Sorting the two halves apart and joining them is one sort on the flag first. */
  lemma {:induction false} SortByFlag<T(!new)>(s: seq<T>, flag: T -> bool, unflag: T -> bool,
                                               lex: (T, T) -> bool, before: (T, T) -> bool)
    requires FlagFirst(lex, flag, before) && forall x :: unflag(x) <==> !flag(x)
    ensures Sort(s, lex) == Sort(Filter(s, flag), before) + Sort(Filter(s, unflag), before)
  {
    if s != [] {
      var x, rest := s[0], s[1..];
      var a, b := Sort(Filter(rest, flag), before), Sort(Filter(rest, unflag), before);
      SortByFlag(rest, flag, unflag, lex, before);
      SortedFilterMembers(rest, flag, before);
      SortedFilterMembers(rest, unflag, before);
      SortCons(x, rest, lex);
      FilterCons(x, rest, flag);
      FilterCons(x, rest, unflag);
      assert s == [x] + rest;
      if flag(x) {
        InsertFlagged(x, a, b, flag, lex, before);
        SortCons(x, Filter(rest, flag), before);
      } else {
        InsertUnflagged(x, a, b, flag, lex, before);
        SortCons(x, Filter(rest, unflag), before);
      }
    }
  }

  lemma {:induction false} SortCons<T>(x: T, s: seq<T>, before: (T, T) -> bool)
    ensures Sort([x] + s, before) == Insert(x, Sort(s, before), before)
  {
    assert ([x] + s)[1..] == s;
  }

  lemma {:induction false} FilterCons<T>(x: T, s: seq<T>, keep: T -> bool)
    ensures Filter([x] + s, keep) == (if keep(x) then [x] + Filter(s, keep) else Filter(s, keep))
  {
    assert ([x] + s)[1..] == s;
  }

  lemma {:induction false} SortedFilterMembers<T(!new)>(s: seq<T>, keep: T -> bool, before: (T, T) -> bool)
    ensures forall x :: x in Sort(Filter(s, keep), before) ==> keep(x)
  {
    FilterIn(s, keep);
    SortedMembers(Filter(s, keep), before);
    forall x | x in Sort(Filter(s, keep), before) ensures keep(x) {
      assert x in Filter(s, keep);
    }
  }

  lemma {:induction false} SortedMembers<T(!new)>(s: seq<T>, before: (T, T) -> bool)
    ensures forall x :: x in Sort(s, before) <==> x in s
  {
    SortPermutes(s, before);
    forall x ensures x in Sort(s, before) <==> x in s {
      assert x in multiset(Sort(s, before)) <==> x in multiset(s);
    }
  }
}
