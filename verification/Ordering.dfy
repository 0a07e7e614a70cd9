/**
 Orders and sorting: the meaning of Python's `sorted(set)` and of the stable `list.sort`.

 A stable sort is characterised independently of any algorithm (`StableSortOf`), that
 characterisation is shown to pin down one result, and the result is shown to be computable
 by merging sorted pieces.
*/
module Ordering {

  lemma {:induction false} Member<T>(s: set<T>) returns (x: T)
    requires s != {}
    ensures x in s
  {
    x :| x in s;
  }

  ghost predicate Preorder<T(!new)>(before: (T, T) -> bool) {
    && (forall x, y :: before(x, y) || before(y, x))
    && (forall x, y, z :: before(x, y) && before(y, z) ==> before(x, z))
  }

  ghost predicate TotalOrder<T(!new)>(le: (T, T) -> bool) {
    && Preorder(le)
    && (forall x, y :: le(x, y) && le(y, x) ==> x == y)
  }

  ghost predicate SortedBy<T>(s: seq<T>, before: (T, T) -> bool) {
    forall i, j :: 0 <= i < j < |s| ==> before(s[i], s[j])
  }

  // ---------------------------------------------------------------------------
  // sorted(set)
  // ---------------------------------------------------------------------------

  lemma {:induction false} LeastExists<T(!new)>(s: set<T>, le: (T, T) -> bool)
    requires s != {} && TotalOrder(le)
    ensures exists x :: x in s && forall y :: y in s ==> le(x, y)
    decreases s
  {
    var c :| c in s;
    var rest := s - {c};
    if rest == {} {
      assert s == {c} by {
        assert s == rest + {c};
      }
    } else {
      LeastExists(rest, le);
      var m :| m in rest && forall y :: y in rest ==> le(m, y);
      var x := if le(m, c) then m else c;
      assert x in s && forall y :: y in s ==> y == c || y in rest;
    }
  }

  function Least<T(==, !new)>(s: set<T>, le: (T, T) -> bool): (x: T)
    requires s != {} && TotalOrder(le)
    ensures x in s
  {
    LeastExists(s, le);
    var x :| x in s && forall y :: y in s ==> le(x, y);
    x
  }

  lemma {:induction false} LeastIsLeast<T(!new)>(s: set<T>, le: (T, T) -> bool)
    requires s != {} && TotalOrder(le)
    ensures forall y :: y in s ==> le(Least(s, le), y)
  {
  }

  predicate IntLe(a: int, b: int) {
    a <= b
  }

  /** The members of a set in ascending order. */
  function Ascending<T(==, !new)>(s: set<T>, le: (T, T) -> bool): (r: seq<T>)
    requires TotalOrder(le)
    ensures |r| == |s|
    decreases s
  {
    if s == {} then []
    else
      var m := Least(s, le);
      [m] + Ascending(s - {m}, le)
  }

  ghost predicate StrictlyAscending<T>(r: seq<T>, le: (T, T) -> bool) {
    forall i, j :: 0 <= i < j < |r| ==> le(r[i], r[j]) && r[i] != r[j]
  }

  lemma {:induction false} AscendingMembers<T(!new)>(s: set<T>, le: (T, T) -> bool)
    requires TotalOrder(le)
    ensures forall x :: x in Ascending(s, le) <==> x in s
    decreases s
  {
    if s == {} {
    } else {
      AscendingMembers(s - {Least(s, le)}, le);
    }
  }

  lemma {:induction false} AscendingIsStrict<T(!new)>(s: set<T>, le: (T, T) -> bool)
    requires TotalOrder(le)
    ensures StrictlyAscending(Ascending(s, le), le)
    decreases s
  {
    if s == {} {
    } else {
      var m := Least(s, le);
      var t := Ascending(s - {m}, le);
      assert Ascending(s, le) == [m] + t;
      AscendingIsStrict(s - {m}, le);
      AscendingMembers(s - {m}, le);
      LeastIsLeast(s, le);
      hide Ascending, Least, StrictlyAscending, Preorder;
      StrictCons(m, t, le);
    }
  }

  lemma {:induction false} StrictCons<T(!new)>(h: T, t: seq<T>, le: (T, T) -> bool)
    requires StrictlyAscending(t, le) && forall y :: y in t ==> le(h, y) && h != y
    ensures StrictlyAscending([h] + t, le)
  {
    assert forall j :: 0 <= j < |t| ==> t[j] in t;
  }

  /** A strictly ordered listing is determined by its members. */
  lemma {:induction false} ListingUnique<T(!new)>(a: seq<T>, b: seq<T>, lt: (T, T) -> bool)
    requires SortedBy(a, lt) && SortedBy(b, lt)
    requires Asymmetric(lt) && Within(a, b) && Within(b, a)
    ensures a == b
  {
    assert b != [] ==> b[0] in a;
    if a == [] {
    } else {
      assert a[0] in b;
      hide *;
      SameFirst(a, b, lt);
      TailSorted(a, lt);
      TailSorted(b, lt);
      RestWithin(a, b, lt);
      RestWithin(b, a, lt);
      ListingUnique(a[1..], b[1..], lt);
      assert a == [a[0]] + a[1..] && b == [b[0]] + b[1..];
    }
  }

  ghost predicate Asymmetric<T(!new)>(lt: (T, T) -> bool) {
    forall x, y :: lt(x, y) ==> !lt(y, x)
  }

  ghost predicate Within<T>(a: seq<T>, b: seq<T>) {
    forall i :: 0 <= i < |a| ==> a[i] in b
  }

  lemma {:induction false} SameFirst<T(!new)>(a: seq<T>, b: seq<T>, lt: (T, T) -> bool)
    requires SortedBy(a, lt) && SortedBy(b, lt) && a != [] && b != []
    requires Asymmetric(lt)
    requires a[0] in b && b[0] in a
    ensures a[0] == b[0]
  {
    var i :| 0 <= i < |b| && b[i] == a[0];
    var j :| 0 <= j < |a| && a[j] == b[0];
    assert i > 0 ==> lt(b[0], b[i]);
    assert j > 0 ==> lt(a[0], a[j]);
  }

  lemma {:induction false} RestMember<T(!new)>(a: seq<T>, b: seq<T>, lt: (T, T) -> bool, i: nat)
    requires SortedBy(a, lt) && 0 < i < |a| && b != [] && a[0] == b[0]
    requires Asymmetric(lt) && a[i] in b
    ensures a[i] in b[1..]
  {
    assert lt(a[0], a[i]);
    var j :| 0 <= j < |b| && b[j] == a[i];
    assert j > 0;
    assert b[1..][j - 1] == a[i];
  }

  lemma {:induction false} RestWithin<T(!new)>(a: seq<T>, b: seq<T>, lt: (T, T) -> bool)
    requires SortedBy(a, lt) && a != [] && b != [] && a[0] == b[0]
    requires Asymmetric(lt) && Within(a, b)
    ensures Within(a[1..], b[1..])
  {
    hide SortedBy, Asymmetric;
    forall i | 0 <= i < |a| - 1
      ensures a[1..][i] in b[1..]
    {
      assert a[i + 1] in b;
      RestMember(a, b, lt, i + 1);
    }
  }

  function Members<T>(s: seq<T>): set<T> {
    set x | x in s
  }

  lemma {:induction false} HeadSet<T>(m: T, t: seq<T>, n: nat, s: set<T>)
    requires 0 < n <= |t| + 1
    ensures s - Members(([m] + t)[..n]) == s - {m} - Members(t[..n - 1])
    ensures ([m] + t)[n..] == t[n - 1..]
  {
    assert ([m] + t)[..n] == [m] + t[..n - 1];
    assert Members([m] + t[..n - 1]) == {m} + Members(t[..n - 1]);
  }

  /** Removing the first n members of a set leaves the rest of its listing. */
  lemma {:induction false} AscendingRest<T(!new)>(s: set<T>, le: (T, T) -> bool, n: nat)
    requires TotalOrder(le) && n <= |s|
    ensures Ascending(s - Members(Ascending(s, le)[..n]), le) == Ascending(s, le)[n..]
    decreases n
  {
    var all := Ascending(s, le);
    if n == 0 {
      assert Members(all[..0]) == {};
      assert all[0..] == all;
      assert s - {} == s;
    } else {
      var m := Least(s, le);
      var t := Ascending(s - {m}, le);
      assert all == [m] + t;
      AscendingRest(s - {m}, le, n - 1);
      HeadSet(m, t, n, s);
    }
  }

  // ---------------------------------------------------------------------------
  // list.sort
  // ---------------------------------------------------------------------------

  function Filter<T(!new)>(s: seq<T>, keep: T -> bool): (r: seq<T>)
    ensures |r| <= |s|
    ensures forall x :: x in r <==> x in s && keep(x)
  {
    if s == [] then []
    else if keep(s[0]) then [s[0]] + Filter(s[1..], keep)
    else Filter(s[1..], keep)
  }

  lemma {:induction false} TailOfConcat<T>(a: seq<T>, b: seq<T>)
    requires a != []
    ensures a + b != [] && (a + b)[0] == a[0] && (a + b)[1..] == a[1..] + b
  {
  }

  lemma {:induction false} FilterConcat<T(!new)>(a: seq<T>, b: seq<T>, keep: T -> bool)
    ensures Filter(a + b, keep) == Filter(a, keep) + Filter(b, keep)
  {
    if a == [] {
      assert a + b == b;
    } else {
      hide *;
      TailOfConcat(a, b);
      FilterConcat(a[1..], b, keep);
      FilterCut(a, keep);
      FilterCut(a + b, keep);
      LeftHeadKept(if keep(a[0]) then [a[0]] else [], Filter(a[1..], keep), Filter(b, keep));
    }
  }

  lemma {:induction false} FilterNone<T(!new)>(s: seq<T>, keep: T -> bool)
    requires forall x :: x in s ==> !keep(x)
    ensures Filter(s, keep) == []
  {
    if s == [] {
    } else {
      assert s[0] in s;
      FilterNone(s[1..], keep);
    }
  }

  lemma {:induction false} FilterAll<T(!new)>(s: seq<T>, keep: T -> bool)
    requires forall x :: x in s ==> keep(x)
    ensures Filter(s, keep) == s
  {
    if s == [] {
    } else {
      assert s[0] in s;
      FilterAll(s[1..], keep);
    }
  }

  lemma {:induction false} FilterSorted<T(!new)>(s: seq<T>, keep: T -> bool, before: (T, T) -> bool)
    requires SortedBy(s, before)
    ensures SortedBy(Filter(s, keep), before)
  {
    if s == [] {
    } else {
      assert SortedBy(s[1..], before);
      FilterSorted(s[1..], keep, before);
      var r := Filter(s[1..], keep);
      forall y | y in r
        ensures before(s[0], y)
      {
        assert y in s[1..];
      }
    }
  }

  /** Merge of two runs; on a tie the left run goes first. */
  function Merge<T>(a: seq<T>, b: seq<T>, before: (T, T) -> bool): (r: seq<T>)
    ensures |r| == |a| + |b|
    decreases |a| + |b|
  {
    if a == [] then b
    else if b == [] then a
    else if before(a[0], b[0]) then [a[0]] + Merge(a[1..], b, before)
    else [b[0]] + Merge(a, b[1..], before)
  }

  /** `s.sort(key=...)`: insertion of each element ahead of the later ones it ties with. */
  function Sort<T>(s: seq<T>, before: (T, T) -> bool): (r: seq<T>)
    ensures |r| == |s|
  {
    if s == [] then [] else Merge([s[0]], Sort(s[1..], before), before)
  }

  function Same<T>(before: (T, T) -> bool, x: T): T -> bool {
    y => before(x, y) && before(y, x)
  }

  /** Python's guarantee for `list.sort`: sorted, and elements of equal key keep their order. */
  ghost predicate StableSortOf<T(!new)>(r: seq<T>, s: seq<T>, before: (T, T) -> bool) {
    && SortedBy(r, before)
    && multiset(r) == multiset(s)
    && forall x :: Filter(r, Same(before, x)) == Filter(s, Same(before, x))
  }

  lemma {:induction false} MergeContents<T(!new)>(a: seq<T>, b: seq<T>, before: (T, T) -> bool)
    requires Preorder(before)
    requires SortedBy(a, before) && SortedBy(b, before)
    ensures multiset(Merge(a, b, before)) == multiset(a) + multiset(b)
    ensures SortedBy(Merge(a, b, before), before)
    decreases |a| + |b|
  {
    MergeMultiset(a, b, before);
    if a == [] || b == [] {
    } else {
      TailSorted(a, before);
      TailSorted(b, before);
      if before(a[0], b[0]) {
        MergeContents(a[1..], b, before);
        hide SortedBy;
        HeadIsFirst(a[0], a[1..], b, Merge(a[1..], b, before), before);
      } else {
        MergeContents(a, b[1..], before);
        hide SortedBy;
        HeadIsFirst(b[0], b[1..], a, Merge(a, b[1..], before), before);
      }
    }
  }

  lemma {:induction false} MergeMultiset<T(!new)>(a: seq<T>, b: seq<T>, before: (T, T) -> bool)
    ensures multiset(Merge(a, b, before)) == multiset(a) + multiset(b)
    decreases |a| + |b|
  {
    if a == [] {
      assert multiset(b) == multiset(a) + multiset(b);
    } else if b == [] {
      assert multiset(a) == multiset(a) + multiset(b);
    } else {
      if before(a[0], b[0]) {
        MergeMultiset(a[1..], b, before);
      } else {
        MergeMultiset(a, b[1..], before);
      }
      MergeCut(a, b, before);
      hide *;
      HeadMultiset(a);
      HeadMultiset(b);
      HeadMultiset(Merge(a, b, before));
    }
  }

  lemma {:induction false} HeadMultiset<T>(s: seq<T>)
    requires s != []
    ensures multiset(s) == multiset{s[0]} + multiset(s[1..])
  {
    assert s == [s[0]] + s[1..];
  }

  lemma {:induction false} TailSorted<T(!new)>(s: seq<T>, before: (T, T) -> bool)
    requires SortedBy(s, before) && s != []
    ensures SortedBy(s[1..], before)
    ensures forall y :: y in s[1..] ==> before(s[0], y)
  {
  }

  /** Taking the first element of a permutation out of it. */
  lemma {:induction false} PermutationHead<T>(a: seq<T>, b: seq<T>) returns (i: nat)
    requires a != [] && multiset(a) == multiset(b)
    ensures i < |b| && b == b[..i] + [a[0]] + b[i + 1..] && a == [a[0]] + a[1..]
    ensures multiset(a[1..]) == multiset(b[..i] + b[i + 1..])
  {
    assert a == [a[0]] + a[1..];
    assert a[0] in multiset(a);
    i :| 0 <= i < |b| && b[i] == a[0];
    assert b == b[..i] + [b[i]] + b[i + 1..];
    assert multiset(b[..i] + b[i + 1..]) == multiset(b) - multiset{b[i]};
    assert multiset(a[1..]) == multiset(a) - multiset{a[0]};
  }

  lemma {:induction false} HeadIsFirst<T(!new)>(h: T, own: seq<T>, other: seq<T>, rest: seq<T>, before: (T, T) -> bool)
    requires Preorder(before)
    requires SortedBy(rest, before) && multiset(rest) == multiset(own) + multiset(other)
    requires forall y :: y in own ==> before(h, y)
    requires other != [] && before(h, other[0]) && SortedBy(other, before)
    ensures SortedBy([h] + rest, before)
  {
    forall y | y in rest
      ensures before(h, y)
    {
      assert y in multiset(rest);
      if y in multiset(other) {
        var i :| 0 <= i < |other| && other[i] == y;
        assert i > 0 ==> before(other[0], y);
      } else {
        assert y in multiset(own);
      }
    }
  }

  lemma {:induction false} FilterCons<T(!new)>(h: T, t: seq<T>, keep: T -> bool)
    ensures Filter([h] + t, keep) == (if keep(h) then [h] else []) + Filter(t, keep)
  {
  }

  lemma {:induction false} OvertakenHasNoTies<T(!new)>(a: seq<T>, y: T, before: (T, T) -> bool, x: T)
    requires Preorder(before) && SortedBy(a, before)
    requires a != [] && !before(a[0], y) && Same(before, x)(y)
    ensures Filter(a, Same(before, x)) == []
  {
    var first := a[0];
    forall z | z in a
      ensures !Same(before, x)(z)
    {
      var i :| 0 <= i < |a| && a[i] == z;
      assert before(first, first) && before(first, z);
      assert before(z, y) ==> before(first, y);
      assert before(z, x) ==> before(z, y);
    }
    FilterNone(a, Same(before, x));
  }

  lemma {:induction false} FilterCut<T(!new)>(s: seq<T>, keep: T -> bool)
    requires s != []
    ensures Filter(s, keep) == (if keep(s[0]) then [s[0]] else []) + Filter(s[1..], keep)
  {
  }

  lemma {:induction false} FilterLast<T(!new)>(s: seq<T>, keep: T -> bool)
    requires s != []
    ensures var last := s[|s| - 1];
            Filter(s, keep) == Filter(s[..|s| - 1], keep) + (if keep(last) then [last] else [])
  {
    var n := |s| - 1;
    FilterConcat(s[..n], [s[n]], keep);
    FilterCut([s[n]], keep);
    LastApart(s);
  }

  lemma {:induction false} LastApart<T>(s: seq<T>)
    requires s != []
    ensures s[..|s| - 1] + [s[|s| - 1]] == s
  {
  }

  lemma {:induction false} MergeCut<T>(a: seq<T>, b: seq<T>, before: (T, T) -> bool)
    requires a != [] && b != []
    ensures var m := Merge(a, b, before);
            if before(a[0], b[0]) then m[0] == a[0] && m[1..] == Merge(a[1..], b, before)
            else m[0] == b[0] && m[1..] == Merge(a, b[1..], before)
  {
  }

  lemma {:induction false} LeftHeadKept<T>(head: seq<T>, a: seq<T>, b: seq<T>)
    ensures head + (a + b) == (head + a) + b
  {
  }

  lemma {:induction false} RightHeadKept<T>(head: seq<T>, a: seq<T>, b: seq<T>)
    requires head == [] || a == []
    ensures head + (a + b) == a + (head + b)
  {
  }

  lemma {:induction false} MergeKeepsTies<T(!new)>(a: seq<T>, b: seq<T>, before: (T, T) -> bool, x: T)
    requires Preorder(before)
    requires SortedBy(a, before)
    ensures Filter(Merge(a, b, before), Same(before, x)) == Filter(a, Same(before, x)) + Filter(b, Same(before, x))
    decreases |a| + |b|
  {
    var same := Same(before, x);
    if a == [] || b == [] {
      hide Same;
      assert Filter([], same) == [];
    } else if before(a[0], b[0]) {
      assert SortedBy(a[1..], before);
      MergeKeepsTies(a[1..], b, before, x);
      hide *;
      MergeCut(a, b, before);
      FilterCut(a, same);
      FilterCut(Merge(a, b, before), same);
      LeftHeadKept(if same(a[0]) then [a[0]] else [], Filter(a[1..], same), Filter(b, same));
    } else {
      MergeKeepsTies(a, b[1..], before, x);
      hide *;
      MergeCut(a, b, before);
      FilterCut(b, same);
      FilterCut(Merge(a, b, before), same);
      if same(b[0]) {
        OvertakenHasNoTies(a, b[0], before, x);
      }
      RightHeadKept(if same(b[0]) then [b[0]] else [], Filter(a, same), Filter(b[1..], same));
    }
  }

  /** The model's sort meets Python's guarantee. */
  lemma {:induction false} SortIsStableSort<T(!new)>(s: seq<T>, before: (T, T) -> bool)
    requires Preorder(before)
    ensures StableSortOf(Sort(s, before), s, before)
  {
    if s == [] {
    } else {
      SortIsStableSort(s[1..], before);
      var r := Sort(s[1..], before);
      assert Sort(s, before) == Merge([s[0]], r, before);
      assert SortedBy([s[0]], before);
      MergeContents([s[0]], r, before);
      HeadMultiset(s);
      hide SortedBy, Preorder, Sort, Merge, Filter, Same;
      forall x
        ensures Filter(Merge([s[0]], r, before), Same(before, x)) == Filter(s, Same(before, x))
      {
        MergeKeepsTies([s[0]], r, before, x);
        FilterConcat([s[0]], s[1..], Same(before, x));
        assert [s[0]] + s[1..] == s;
      }
    }
  }

  /** Python's guarantee determines the result: there is only one stable sort. */
  lemma {:induction false} StableSortUnique<T(!new)>(r1: seq<T>, r2: seq<T>, s: seq<T>, before: (T, T) -> bool)
    requires Preorder(before)
    requires StableSortOf(r1, s, before) && StableSortOf(r2, s, before)
    ensures r1 == r2
  {
    assert |r1| == |multiset(r1)| && |r2| == |multiset(r2)|;
    AgreeingSorts(r1, r2, before);
  }

  ghost predicate SameTies<T(!new)>(r1: seq<T>, r2: seq<T>, before: (T, T) -> bool) {
    forall x :: Filter(r1, Same(before, x)) == Filter(r2, Same(before, x))
  }

  lemma {:induction false} SameHead<T(!new)>(r1: seq<T>, r2: seq<T>, before: (T, T) -> bool)
    requires Preorder(before) && r1 != [] && r2 != []
    requires SortedBy(r1, before) && SortedBy(r2, before)
    requires multiset(r1) == multiset(r2) && SameTies(r1, r2, before)
    ensures r1[0] == r2[0]
  {
    var x, y := r1[0], r2[0];
    assert x in multiset(r2) && y in multiset(r1);
    var i :| 0 <= i < |r2| && r2[i] == x;
    var j :| 0 <= j < |r1| && r1[j] == y;
    assert before(x, x) && before(y, y);
    assert before(x, y) && before(y, x);
    assert Filter(r1, Same(before, x)) == Filter(r2, Same(before, x));
    assert Filter(r1, Same(before, x))[0] == x && Filter(r2, Same(before, x))[0] == y;
  }

  lemma {:induction false} SameTails<T(!new)>(h: T, t1: seq<T>, t2: seq<T>, before: (T, T) -> bool)
    requires multiset([h] + t1) == multiset([h] + t2) && SameTies([h] + t1, [h] + t2, before)
    ensures multiset(t1) == multiset(t2) && SameTies(t1, t2, before)
  {
    assert multiset(t1) == multiset([h] + t1) - multiset{h};
    assert multiset(t2) == multiset([h] + t2) - multiset{h};
    forall x
      ensures Filter(t1, Same(before, x)) == Filter(t2, Same(before, x))
    {
      FilterCons(h, t1, Same(before, x));
      FilterCons(h, t2, Same(before, x));
      assert Filter([h] + t1, Same(before, x)) == Filter([h] + t2, Same(before, x));
      var skip := if Same(before, x)(h) then 1 else 0;
      assert Filter([h] + t1, Same(before, x))[skip..] == Filter(t1, Same(before, x));
      assert Filter([h] + t2, Same(before, x))[skip..] == Filter(t2, Same(before, x));
    }
  }

  lemma {:induction false} AgreeingSorts<T(!new)>(r1: seq<T>, r2: seq<T>, before: (T, T) -> bool)
    requires Preorder(before) && |r1| == |r2|
    requires SortedBy(r1, before) && SortedBy(r2, before)
    requires multiset(r1) == multiset(r2) && SameTies(r1, r2, before)
    ensures r1 == r2
  {
    if r1 == [] {
    } else {
      SameHead(r1, r2, before);
      assert r1 == [r1[0]] + r1[1..] && r2 == [r1[0]] + r2[1..];
      SameTails(r1[0], r1[1..], r2[1..], before);
      AgreeingSorts(r1[1..], r2[1..], before);
    }
  }

  lemma {:induction false} SortOfSorted<T(!new)>(s: seq<T>, before: (T, T) -> bool)
    requires Preorder(before) && SortedBy(s, before)
    ensures Sort(s, before) == s
  {
    SortIsStableSort(s, before);
    StableSortUnique(Sort(s, before), s, s, before);
  }

  /** Sorting a concatenation is merging the sorted halves. */
  lemma {:induction false} SortConcat<T(!new)>(a: seq<T>, b: seq<T>, before: (T, T) -> bool)
    requires Preorder(before)
    ensures Sort(a + b, before) == Merge(Sort(a, before), Sort(b, before), before)
  {
    SortIsStableSort(a, before);
    SortIsStableSort(b, before);
    SortIsStableSort(a + b, before);
    var m := Merge(Sort(a, before), Sort(b, before), before);
    MergeContents(Sort(a, before), Sort(b, before), before);
    assert multiset(a + b) == multiset(a) + multiset(b);
    forall x
      ensures Filter(m, Same(before, x)) == Filter(a + b, Same(before, x))
    {
      MergeKeepsTies(Sort(a, before), Sort(b, before), before, x);
      FilterConcat(a, b, Same(before, x));
    }
    StableSortUnique(Sort(a + b, before), m, a + b, before);
  }

  // ---------------------------------------------------------------------------
  // Heads of merges
  // ---------------------------------------------------------------------------

  function Take<T>(s: seq<T>, k: nat): (r: seq<T>)
    ensures |r| == if |s| < k then |s| else k
    ensures r <= s
  {
    if |s| < k then s else s[..k]
  }

  /** The first k elements of a merge depend only on the first k elements of each side. */
  lemma {:induction false} MergeHead<T(!new)>(a: seq<T>, a': seq<T>, b: seq<T>, b': seq<T>, k: nat,
                                              before: (T, T) -> bool)
    requires Take(a, k) == Take(a', k) && Take(b, k) == Take(b', k)
    ensures Take(Merge(a, b, before), k) == Take(Merge(a', b', before), k)
    decreases k
  {
    if k == 0 {
    } else {
      assert (a == [] <==> a' == []) && (b == [] <==> b' == []);
      assert a != [] ==> a[0] == Take(a, k)[0] == Take(a', k)[0] == a'[0];
      assert b != [] ==> b[0] == Take(b, k)[0] == Take(b', k)[0] == b'[0];
      TakeTail(a, a', k);
      TakeTail(b, b', k);
      if a != [] && b != [] {
        if before(a[0], b[0]) {
          MergeHead(a[1..], a'[1..], b, b', k - 1, before);
        } else {
          MergeHead(a, a', b[1..], b'[1..], k - 1, before);
        }
      }
    }
  }

  lemma {:induction false} TakeTail<T>(a: seq<T>, a': seq<T>, k: nat)
    requires k > 0 && Take(a, k) == Take(a', k)
    ensures Take(a, k - 1) == Take(a', k - 1)
    ensures a != [] && a' != [] ==> Take(a[1..], k - 1) == Take(a'[1..], k - 1)
  {
  }

  // ---------------------------------------------------------------------------
  // First occurrences
  // ---------------------------------------------------------------------------

  /** First occurrences, in order. */
  function Deduped<T(==)>(s: seq<T>): seq<T> {
    if s == [] then []
    else
      var n := |s| - 1;
      var earlier := Deduped(s[..n]);
      if s[n] in earlier then earlier else earlier + [s[n]]
  }

  lemma {:induction false} DedupedMembers<T>(s: seq<T>)
    ensures forall x :: x in Deduped(s) <==> x in s
    ensures forall i :: 0 <= i < |Deduped(s)| ==> Deduped(s)[i] in s
    ensures forall i, j :: 0 <= i < j < |Deduped(s)| ==> Deduped(s)[i] != Deduped(s)[j]
  {
    if s == [] {
    } else {
      var n := |s| - 1;
      DedupedMembers(s[..n]);
      assert s == s[..n] + [s[n]];
    }
  }

  /** Whatever stands before an entry was asked for before it. */
  lemma {:induction false} DedupedOrder<T>(s: seq<T>, i: nat, j: nat, b: nat)
    requires i < j < |Deduped(s)| && b < |s| && s[b] == Deduped(s)[j]
    ensures Deduped(s)[i] in s[..b]
  {
    var n := |s| - 1;
    var earlier := Deduped(s[..n]);
    DedupedMembers(s[..n]);
    if b < n {
      var prefix := s[..n];
      assert prefix[b] == s[b] && prefix[b] in prefix;
      assert prefix[..b] == s[..b];
      DedupedMembers(s);
      var q :| 0 <= q < |earlier| && earlier[q] == s[b];
      assert Deduped(s)[q] == Deduped(s)[j];
      DedupedOrder(s[..n], i, j, b);
    } else {
      assert earlier[i] in s[..n];
    }
  }
}
