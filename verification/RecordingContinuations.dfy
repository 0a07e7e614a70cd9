/**
 apps/common/recording_views.py: what the rows already read say about the page.

 The fan-out sees only a prefix of each list. A page is certain when no continuation of the prefixes
 could change it; that is decided exactly by counting the kept rows ahead of the first row each list
 might still have.
*/
module RecordingContinuations {
  import opened Wrappers
  import opened Ordering
  import opened Recordings
  import Text

  // ---------------------------------------------------------------------------
  // Rows ahead of a slot
  // ---------------------------------------------------------------------------

  /** Newer than l, or of the same stamp. */
  function NotOlder(l: Row): Row -> bool {
    r => Newer(r, l)
  }

  function Strictly(l: Row): Row -> bool {
    r => !Newer(l, r)
  }

  function Count(rows: seq<Row>, p: Row -> bool): nat {
    |Filter(rows, p)|
  }

  lemma {:induction false} CountConcat(a: seq<Row>, b: seq<Row>, p: Row -> bool)
    ensures Count(a + b, p) == Count(a, p) + Count(b, p)
  {
    FilterConcat(a, b, p);
  }

  lemma {:induction false} CountMerge(a: seq<Row>, b: seq<Row>, p: Row -> bool)
    ensures Count(Merge(a, b, Newer), p) == Count(a, p) + Count(b, p)
    decreases |a| + |b|
  {
    hide Newer;
    if a == [] || b == [] {
      assert Count([], p) == 0;
    } else if Newer(a[0], b[0]) {
      CountMerge(a[1..], b, p);
      FilterCons(a[0], Merge(a[1..], b, Newer), p);
    } else {
      CountMerge(a, b[1..], p);
      FilterCons(b[0], Merge(a, b[1..], Newer), p);
    }
  }

  lemma {:induction false} CountSort(s: seq<Row>, p: Row -> bool)
    ensures Count(Sort(s, Newer), p) == Count(s, p)
  {
    hide Newer;
    if s == [] {
      assert Sort(s, Newer) == [];
    } else {
      CountSort(s[1..], p);
      CountMerge([s[0]], Sort(s[1..], Newer), p);
      CountConcat([s[0]], s[1..], p);
      assert s == [s[0]] + s[1..];
    }
  }

  /** In a sorted list the rows a bound counts come first. */
  lemma {:induction false} CountedFirst(s: seq<Row>, l: Row)
    requires SortedBy(s, Newer) && s != []
    ensures Count(s, NotOlder(l)) == if Newer(s[0], l) then 1 + Count(s[1..], NotOlder(l)) else 0
    ensures Count(s, Strictly(l)) == if !Newer(l, s[0]) then 1 + Count(s[1..], Strictly(l)) else 0
  {
    NewerIsPreorder();
    hide Newer;
    if !Newer(s[0], l) {
      FilterNone(s, NotOlder(l));
    }
    if Newer(l, s[0]) {
      FilterNone(s, Strictly(l));
    }
  }

  /** All rows of x are as old as l or older. */
  ghost predicate After(x: seq<Row>, l: Row) {
    forall i :: 0 <= i < |x| ==> Newer(l, x[i])
  }

  lemma {:induction false} LeftHead(m: seq<Row>, x: seq<Row>, v: seq<Row>)
    requires m != [] && (x == [] || Newer(m[0], x[0])) && (v == [] || Newer(m[0], v[0]))
    ensures Merge(Merge(m, x, Newer), v, Newer) == [m[0]] + Merge(Merge(m[1..], x, Newer), v, Newer)
    ensures Merge(m, v, Newer) == [m[0]] + Merge(m[1..], v, Newer)
  {
    hide Newer;
    assert Merge(m, x, Newer) == [m[0]] + Merge(m[1..], x, Newer);
    assert Merge(m[1..], [], Newer) == m[1..];
  }

  lemma {:induction false} RightHead(m: seq<Row>, x: seq<Row>, v: seq<Row>)
    requires v != [] && (m == [] || !Newer(m[0], v[0])) && (x == [] || !Newer(x[0], v[0]))
    ensures Merge(Merge(m, x, Newer), v, Newer) == [v[0]] + Merge(Merge(m, x, Newer), v[1..], Newer)
    ensures Merge(m, v, Newer) == [v[0]] + Merge(m, v[1..], Newer)
  {
    hide Newer;
    assert Merge([], v[1..], Newer) == v[1..];
  }

  /** Whether the next row of the merge comes from m or from v, as long as rows ahead of l are left. */
  lemma {:induction false} HeadAhead(m: seq<Row>, x: seq<Row>, v: seq<Row>, l: Row)
    requires SortedBy(m, Newer) && SortedBy(v, Newer) && After(x, l)
    requires Count(m, NotOlder(l)) + Count(v, Strictly(l)) > 0
    ensures m != [] && Newer(m[0], l) && (v == [] || Newer(m[0], v[0])) ==>
              && (x == [] || Newer(m[0], x[0]))
              && Count(m, NotOlder(l)) == 1 + Count(m[1..], NotOlder(l)) && SortedBy(m[1..], Newer)
    ensures !(m != [] && Newer(m[0], l) && (v == [] || Newer(m[0], v[0]))) ==>
              && v != [] && (m == [] || !Newer(m[0], v[0])) && (x == [] || !Newer(x[0], v[0]))
              && Count(v, Strictly(l)) == 1 + Count(v[1..], Strictly(l)) && SortedBy(v[1..], Newer)
  {
    NewerIsPreorder();
    hide Newer;
    if m != [] {
      CountedFirst(m, l);
      TailSorted(m, Newer);
    }
    if v != [] {
      CountedFirst(v, l);
      TailSorted(v, Newer);
    }
    assert Count([], NotOlder(l)) == Count([], Strictly(l)) == 0;
  }

  /**
   Rows of x, appended to the list of l behind m and before v, change nothing among the first k rows
   when k rows of m and v stand ahead of them.
  */
  lemma {:induction false} LateRows(m: seq<Row>, x: seq<Row>, v: seq<Row>, l: Row, k: nat)
    requires SortedBy(m, Newer) && SortedBy(v, Newer) && After(x, l)
    requires k <= Count(m, NotOlder(l)) + Count(v, Strictly(l))
    ensures Take(Merge(Merge(m, x, Newer), v, Newer), k) == Take(Merge(m, v, Newer), k)
    decreases |m| + |v|
  {
    hide Newer, Merge, SortedBy, Count, After;
    if k == 0 {
      assert Take(Merge(Merge(m, x, Newer), v, Newer), k) == [] == Take(Merge(m, v, Newer), k);
    } else {
      HeadAhead(m, x, v, l);
      hide Take;
      if m != [] && Newer(m[0], l) && (v == [] || Newer(m[0], v[0])) {
        LeftHead(m, x, v);
        LateRows(m[1..], x, v, l, k - 1);
        SameHeads(m[0], Merge(Merge(m[1..], x, Newer), v, Newer), Merge(m[1..], v, Newer), k);
      } else {
        RightHead(m, x, v);
        LateRows(m, x, v[1..], l, k - 1);
        SameHeads(v[0], Merge(Merge(m, x, Newer), v[1..], Newer), Merge(m, v[1..], Newer), k);
      }
    }
  }

  lemma {:induction false} SameHeads(h: Row, a: seq<Row>, b: seq<Row>, k: nat)
    requires k > 0 && Take(a, k - 1) == Take(b, k - 1)
    ensures Take([h] + a, k) == Take([h] + b, k)
  {
    assert Take([h] + a, k) == [h] + Take(a, k - 1);
    assert Take([h] + b, k) == [h] + Take(b, k - 1);
  }

  /** Rows of the very stamp of l are placed right behind the rows ahead of the slot. */
  lemma {:induction false} PlacedAt(m: seq<Row>, x: seq<Row>, v: seq<Row>, l: Row, j: nat)
    requires SortedBy(m, Newer) && SortedBy(v, Newer) && After(x, l) && j < |x|
    requires forall i :: 0 <= i < |x| ==> Newer(x[i], l)
    ensures var at := Count(m, NotOlder(l)) + Count(v, Strictly(l)) + j;
            at < |m| + |x| + |v| && Merge(Merge(m, x, Newer), v, Newer)[at] == x[j]
    decreases |m| + |v|
  {
    hide Newer, Merge, SortedBy, Count, After;
    if Count(m, NotOlder(l)) + Count(v, Strictly(l)) > 0 {
      HeadAhead(m, x, v, l);
      if m != [] && Newer(m[0], l) && (v == [] || Newer(m[0], v[0])) {
        LeftHead(m, x, v);
        PlacedAt(m[1..], x, v, l, j);
      } else {
        RightHead(m, x, v);
        PlacedAt(m, x, v[1..], l, j);
      }
    } else {
      NothingAhead(m, v, l);
      SlotFirst(m, x, v, l, j);
    }
  }

  lemma {:induction false} NothingAhead(m: seq<Row>, v: seq<Row>, l: Row)
    requires SortedBy(m, Newer) && SortedBy(v, Newer) && Count(m, NotOlder(l)) + Count(v, Strictly(l)) == 0
    ensures m == [] || !Newer(m[0], l)
    ensures v == [] || Newer(l, v[0])
  {
    hide Newer;
    if m != [] {
      CountedFirst(m, l);
    }
    if v != [] {
      CountedFirst(v, l);
    }
  }

  /** With nothing ahead of the slot the new rows come first. */
  lemma {:induction false} SlotFirst(m: seq<Row>, x: seq<Row>, v: seq<Row>, l: Row, j: nat)
    requires After(x, l) && j < |x| && (forall i :: 0 <= i < |x| ==> Newer(x[i], l))
    requires (m == [] || !Newer(m[0], l)) && (v == [] || Newer(l, v[0]))
    ensures Merge(Merge(m, x, Newer), v, Newer)[j] == x[j]
    decreases |x|
  {
    NewerIsPreorder();
    hide Newer;
    assert m != [] ==> !Newer(m[0], x[0]);
    assert v != [] ==> Newer(x[0], v[0]);
    var rest := x[1..];
    assert Merge(m, x, Newer) == [x[0]] + Merge(m, rest, Newer) by {
      if m == [] {
        assert Merge(m, rest, Newer) == rest;
      } else if rest == [] {
        assert Merge(m, rest, Newer) == m;
      }
    }
    assert Merge(Merge(m, x, Newer), v, Newer) == [x[0]] + Merge(Merge(m, rest, Newer), v, Newer);
    if j == 0 {
    } else {
      assert forall i :: 0 <= i < |rest| ==> rest[i] == x[i + 1];
      SlotFirst(m, rest, v, l, j - 1);
    }
  }

  // ---------------------------------------------------------------------------
  // Continuing one list
  // ---------------------------------------------------------------------------

  function Kept(lists: seq<seq<Row>>, keep: Row -> bool): seq<Row> {
    Filter(Concat(lists), keep)
  }

  lemma {:induction false} ConcatSplit(a: seq<seq<Row>>, b: seq<seq<Row>>)
    ensures Concat(a + b) == Concat(a) + Concat(b)
  {
    if a == [] {
      assert a + b == b;
    } else {
      assert (a + b)[1..] == a[1..] + b;
      ConcatSplit(a[1..], b);
    }
  }

  /** The merge as the lists up to and including list i, and the later ones. */
  lemma {:induction false} MergedSplit(lists: seq<seq<Row>>, keep: Row -> bool, n: nat)
    requires n <= |lists|
    ensures Merged(lists, keep) ==
            Merge(Sort(Kept(lists[..n], keep), Newer), Sort(Kept(lists[n..], keep), Newer), Newer)
    ensures SortedBy(Sort(Kept(lists[..n], keep), Newer), Newer) && SortedBy(Sort(Kept(lists[n..], keep), Newer), Newer)
  {
    NewerIsPreorder();
    assert lists == lists[..n] + lists[n..];
    ConcatSplit(lists[..n], lists[n..]);
    FilterConcat(Concat(lists[..n]), Concat(lists[n..]), keep);
    SortConcat(Kept(lists[..n], keep), Kept(lists[n..], keep), Newer);
    SortIsStableSort(Kept(lists[..n], keep), Newer);
    SortIsStableSort(Kept(lists[n..], keep), Newer);
  }

  lemma {:induction false} KeptContinued(lists: seq<seq<Row>>, keep: Row -> bool, i: nat, x: seq<Row>)
    requires i < |lists|
    ensures Kept(lists[i := lists[i] + x][..i + 1], keep) == Kept(lists[..i + 1], keep) + Filter(x, keep)
    ensures lists[i := lists[i] + x][i + 1..] == lists[i + 1..]
  {
    hide Filter, Concat;
    assert lists[i := lists[i] + x][..i + 1] == lists[..i] + [lists[i] + x];
    assert lists[..i + 1] == lists[..i] + [lists[i]];
    ConcatAppend(lists[..i], lists[i] + x);
    ConcatAppend(lists[..i], lists[i]);
    assert Concat(lists[..i]) + (lists[i] + x) == Concat(lists[..i]) + lists[i] + x;
    FilterConcat(Concat(lists[..i + 1]), x, keep);
  }

  /** The same merge after list i has been continued by x. */
  lemma {:induction false} MergedContinued(lists: seq<seq<Row>>, keep: Row -> bool, i: nat, x: seq<Row>)
    requires i < |lists|
    ensures Merged(lists[i := lists[i] + x], keep) ==
            Merge(Merge(Sort(Kept(lists[..i + 1], keep), Newer), Sort(Filter(x, keep), Newer), Newer),
                  Sort(Kept(lists[i + 1..], keep), Newer), Newer)
  {
    NewerIsPreorder();
    hide Merged, Kept, Sort, Merge, Newer, Filter;
    KeptContinued(lists, keep, i, x);
    MergedSplit(lists[i := lists[i] + x], keep, i + 1);
    SortConcat(Kept(lists[..i + 1], keep), Filter(x, keep), Newer);
  }

  function Last(rows: seq<Row>): Row
    requires rows != []
  {
    rows[|rows| - 1]
  }

  /**
   The kept rows ahead of the slot after the last row of list i: newer ones, and those of the same
   stamp in list i or an earlier list.
  */
  function RowsAhead(lists: seq<seq<Row>>, keep: Row -> bool, i: nat, l: Row): nat
    requires i < |lists|
  {
    Count(Kept(lists[..i + 1], keep), NotOlder(l)) + Count(Kept(lists[i + 1..], keep), Strictly(l))
  }

  lemma {:induction false} FilterAfter(x: seq<Row>, keep: Row -> bool, l: Row)
    requires SortedBy(x, Newer) && After(x, l)
    ensures SortedBy(Sort(Filter(x, keep), Newer), Newer) && After(Sort(Filter(x, keep), Newer), l)
  {
    NewerIsPreorder();
    hide Newer;
    FilterSorted(x, keep, Newer);
    SortOfSorted(Filter(x, keep), Newer);
    var kept := Filter(x, keep);
    forall i | 0 <= i < |kept|
      ensures Newer(l, kept[i])
    {
      assert kept[i] in kept;
      assert kept[i] in x;
    }
  }

  /** Continuing one list behind its last row l leaves the first k rows alone when k are ahead of it. */
  lemma {:induction false} OneContinued(lists: seq<seq<Row>>, keep: Row -> bool, i: nat, x: seq<Row>, l: Row, k: nat)
    requires i < |lists| && SortedBy(x, Newer) && After(x, l) && k <= RowsAhead(lists, keep, i, l)
    ensures Take(Merged(lists[i := lists[i] + x], keep), k) == Take(Merged(lists, keep), k)
  {
    hide Newer, Merge, Sort, Filter, Take, Concat;
    var m, v := Sort(Kept(lists[..i + 1], keep), Newer), Sort(Kept(lists[i + 1..], keep), Newer);
    MergedSplit(lists, keep, i + 1);
    MergedContinued(lists, keep, i, x);
    FilterAfter(x, keep, l);
    CountSort(Kept(lists[..i + 1], keep), NotOlder(l));
    CountSort(Kept(lists[i + 1..], keep), Strictly(l));
    LateRows(m, Sort(Filter(x, keep), Newer), v, l, k);
  }

  // ---------------------------------------------------------------------------
  // Continuing all lists
  // ---------------------------------------------------------------------------

  /** What sorted lists give the fan-out to read. */
  ghost predicate AsRead(prefixes: seq<seq<Row>>) {
    AllSorted(prefixes) && forall j :: 0 <= j < |prefixes| ==> |prefixes[j]| <= FETCH_LIMIT
  }

  /** Sorted lists of which exactly these prefixes are read. */
  ghost predicate Continues(lists: seq<seq<Row>>, prefixes: seq<seq<Row>>) {
    AllSorted(lists) && Prefixes(lists) == prefixes
  }

  /** Enough kept rows ahead of every list that may have more rows. */
  predicate Certain(prefixes: seq<seq<Row>>, keep: Row -> bool, k: int) {
    forall i :: 0 <= i < |prefixes| && |prefixes[i]| == FETCH_LIMIT ==>
      RowsAhead(prefixes, keep, i, Last(prefixes[i])) >= k
  }

  /** The first n lists continued, the others as read. */
  function Mixed(lists: seq<seq<Row>>, prefixes: seq<seq<Row>>, n: nat): seq<seq<Row>>
    requires |lists| == |prefixes| && n <= |lists|
  {
    lists[..n] + prefixes[n..]
  }

  lemma {:induction false} MoreRowsCount(lists: seq<seq<Row>>, keep: Row -> bool, p: Row -> bool)
    ensures Count(Kept(lists, keep), p) >= Count(Kept(Prefixes(lists), keep), p)
  {
    if lists == [] {
      assert Prefixes(lists) == [];
    } else {
      MoreRowsCount(lists[1..], keep, p);
      assert Prefixes(lists)[1..] == Prefixes(lists[1..]);
      var prefix := Take(lists[0], FETCH_LIMIT);
      var rest := lists[0][|prefix|..];
      assert lists[0] == prefix + rest;
      FilterConcat(prefix, rest, keep);
      FilterConcat(lists[0], Concat(lists[1..]), keep);
      FilterConcat(prefix, Concat(Prefixes(lists[1..])), keep);
      CountConcat(Filter(prefix, keep), Filter(rest, keep), p);
      CountConcat(Filter(lists[0], keep), Kept(lists[1..], keep), p);
      CountConcat(Filter(prefix, keep), Kept(Prefixes(lists[1..]), keep), p);
    }
  }

  /** Continuing earlier lists never takes rows away from ahead of a slot. */
  lemma {:induction false} MixedAhead(lists: seq<seq<Row>>, keep: Row -> bool, n: nat, l: Row)
    requires n < |lists|
    ensures RowsAhead(Mixed(lists, Prefixes(lists), n), keep, n, l) >= RowsAhead(Prefixes(lists), keep, n, l)
  {
    var prefixes := Prefixes(lists);
    var mixed := Mixed(lists, prefixes, n);
    assert mixed[n + 1..] == prefixes[n + 1..];
    assert mixed[..n + 1] == lists[..n] + [prefixes[n]];
    assert prefixes[..n + 1] == prefixes[..n] + [prefixes[n]];
    assert Prefixes(lists[..n]) == prefixes[..n];
    ConcatAppend(lists[..n], prefixes[n]);
    ConcatAppend(prefixes[..n], prefixes[n]);
    FilterConcat(Concat(lists[..n]), prefixes[n], keep);
    FilterConcat(Concat(prefixes[..n]), prefixes[n], keep);
    CountConcat(Kept(lists[..n], keep), Filter(prefixes[n], keep), NotOlder(l));
    CountConcat(Kept(prefixes[..n], keep), Filter(prefixes[n], keep), NotOlder(l));
    MoreRowsCount(lists[..n], keep, NotOlder(l));
  }

  lemma {:induction false} RestIsAfter(list: seq<Row>)
    requires SortedBy(list, Newer) && |list| >= FETCH_LIMIT
    ensures SortedBy(list[FETCH_LIMIT..], Newer)
    ensures After(list[FETCH_LIMIT..], list[FETCH_LIMIT - 1])
  {
    hide Newer;
  }

  lemma {:induction false} MixedStep(lists: seq<seq<Row>>, keep: Row -> bool, n: nat, k: nat)
    requires AllSorted(lists) && n < |lists| && Certain(Prefixes(lists), keep, k)
    ensures Take(Merged(Mixed(lists, Prefixes(lists), n + 1), keep), k) ==
            Take(Merged(Mixed(lists, Prefixes(lists), n), keep), k)
  {
    hide Merged, RowsAhead, Newer;
    var prefixes := Prefixes(lists);
    var mixed := Mixed(lists, prefixes, n);
    if |lists[n]| <= FETCH_LIMIT {
      assert prefixes[n] == lists[n];
      assert lists[..n + 1] == lists[..n] + [prefixes[n]];
      assert prefixes[n..] == [prefixes[n]] + prefixes[n + 1..];
      assert Mixed(lists, prefixes, n + 1) == mixed;
    } else {
      var x := lists[n][FETCH_LIMIT..];
      assert lists[n] == prefixes[n] + x;
      assert Mixed(lists, prefixes, n + 1) == mixed[n := mixed[n] + x];
      RestIsAfter(lists[n]);
      assert Last(prefixes[n]) == lists[n][FETCH_LIMIT - 1];
      MixedAhead(lists, keep, n, Last(prefixes[n]));
      OneContinued(mixed, keep, n, x, Last(prefixes[n]), k);
    }
  }

  lemma {:induction false} MixedSame(lists: seq<seq<Row>>, keep: Row -> bool, n: nat, k: nat)
    requires AllSorted(lists) && n <= |lists| && Certain(Prefixes(lists), keep, k)
    ensures Take(Merged(Mixed(lists, Prefixes(lists), n), keep), k) == Take(Merged(Prefixes(lists), keep), k)
  {
    hide Merged, Certain, AllSorted;
    if n == 0 {
      assert Mixed(lists, Prefixes(lists), 0) == Prefixes(lists);
    } else {
      MixedSame(lists, keep, n - 1, k);
      MixedStep(lists, keep, n - 1, k);
    }
  }

  /** A certain page is the page of the full lists. */
  lemma {:induction false} CertainPageRight(lists: seq<seq<Row>>, logs: bool, page: int, size: int)
    requires AllSorted(lists) && page > 0 && size > 0 && Certain(Prefixes(lists), Keeps(logs), page * size)
    ensures FanOutPage(Prefixes(lists), logs, page, size).results == FanOutPage(lists, logs, page, size).results
  {
    Product(page, size);
    var keep := Keeps(logs);
    MixedSame(lists, keep, |lists|, page * size);
    assert Mixed(lists, Prefixes(lists), |lists|) == lists;
    hide Certain, Merged;
    PageCutHead(Merged(Prefixes(lists), keep), Merged(lists, keep), page, size);
  }

  // ---------------------------------------------------------------------------
  // Every page that is not certain can be wrong
  // ---------------------------------------------------------------------------

  /** A number above every uuid of some rows. */
  function Above(rows: seq<Row>): (n: nat)
    ensures forall r :: r in rows ==> r.uuid < n
  {
    if rows == [] then 0
    else
      var rest := Above(rows[1..]);
      if rows[0].uuid < rest then rest else rows[0].uuid + 1
  }

  /** n further rows of one stamp, which every listing keeps, with uuids from `base` on. */
  function Further(base: nat, stamp: Option<string>, n: nat): (r: seq<Row>)
    ensures |r| == n
    ensures forall i :: 0 <= i < n ==> r[i] == Row(base + i, stamp, None, None, None)
  {
    seq(n, i requires 0 <= i < n => Row(base + i, stamp, None, None, None))
  }

  lemma {:induction false} AllKept(rows: seq<Row>, keep: Row -> bool)
    requires forall i :: 0 <= i < |rows| ==> keep(rows[i])
    ensures Filter(rows, keep) == rows
  {
    if rows == [] {
      assert Filter(rows, keep) == [];
    } else {
      AllKept(rows[1..], keep);
    }
  }

  lemma {:induction false} FurtherKept(base: nat, l: Row, n: nat, logs: bool)
    ensures var x := Further(base, l.startStamp, n);
            && SortedBy(x, Newer) && After(x, l) && (forall i :: 0 <= i < n ==> Newer(x[i], l))
            && Sort(Filter(x, Keeps(logs)), Newer) == x
  {
    NewerIsPreorder();
    var x := Further(base, l.startStamp, n);
    assert Text.Strip("") == "";
    assert forall i :: 0 <= i < n ==> !Excluded(x[i]);
    assert forall i :: 0 <= i < n ==> Stamp(x[i]) == Stamp(l);
    assert Newer(l, l);
    hide Excluded;
    AllKept(x, Keeps(logs));
    assert SortedBy(x, Newer);
    SortOfSorted(x, Newer);
  }

  lemma {:induction false} ContinuedOnce(prefixes: seq<seq<Row>>, i: nat, x: seq<Row>)
    requires AsRead(prefixes)
    requires i < |prefixes| && |prefixes[i]| == FETCH_LIMIT && SortedBy(x, Newer) && After(x, Last(prefixes[i]))
    ensures Continues(prefixes[i := prefixes[i] + x], prefixes)
  {
    NewerIsPreorder();
    hide Newer;
    var lists := prefixes[i := prefixes[i] + x];
    assert SortedBy(lists[i], Newer) by {
      forall a, b | 0 <= a < b < |lists[i]|
        ensures Newer(lists[i][a], lists[i][b])
      {
        assert a < FETCH_LIMIT ==> a == FETCH_LIMIT - 1 || Newer(prefixes[i][a], Last(prefixes[i]));
        assert Newer(Last(prefixes[i]), Last(prefixes[i]));
      }
    }
    assert Prefixes(lists)[i] == prefixes[i];
    assert forall j :: 0 <= j < |prefixes| ==> Prefixes(lists)[j] == prefixes[j];
    assert Prefixes(lists) == prefixes;
  }

  lemma {:induction false} AheadWhenSorted(lists: seq<seq<Row>>, keep: Row -> bool, i: nat, l: Row)
    requires i < |lists|
    ensures RowsAhead(lists, keep, i, l) ==
            Count(Sort(Kept(lists[..i + 1], keep), Newer), NotOlder(l))
            + Count(Sort(Kept(lists[i + 1..], keep), Newer), Strictly(l))
  {
    hide Newer, Sort, Kept, Count;
    CountSort(Kept(lists[..i + 1], keep), NotOlder(l));
    CountSort(Kept(lists[i + 1..], keep), Strictly(l));
  }

  /** Kept rows of the stamp of l behind list i appear right after the rows ahead of its slot. */
  lemma {:induction false} PlacedBehind(lists: seq<seq<Row>>, keep: Row -> bool, i: nat, l: Row, x: seq<Row>, j: nat)
    requires i < |lists| && j < |x| && After(x, l) && (forall n :: 0 <= n < |x| ==> Newer(x[n], l))
    requires Sort(Filter(x, keep), Newer) == x
    ensures var merged := Merged(lists[i := lists[i] + x], keep);
            var at := RowsAhead(lists, keep, i, l) + j;
            at < |merged| && merged[at] == x[j]
  {
    hide *;
    MergedSplit(lists, keep, i + 1);
    MergedContinued(lists, keep, i, x);
    AheadWhenSorted(lists, keep, i, l);
    PlacedAt(Sort(Kept(lists[..i + 1], keep), Newer), x, Sort(Kept(lists[i + 1..], keep), Newer), l, j);
  }

  lemma {:induction false} MergedUuids(prefixes: seq<seq<Row>>, keep: Row -> bool, q: nat)
    requires q < |Merged(prefixes, keep)|
    ensures Merged(prefixes, keep)[q].uuid < Above(Concat(prefixes))
  {
    NewerIsPreorder();
    var merged, kept := Merged(prefixes, keep), Filter(Concat(prefixes), keep);
    SortIsStableSort(kept, Newer);
    hide Newer, Sort, Filter;
    assert merged[q] in multiset(merged);
    assert merged[q] in kept;
    assert merged[q] in Concat(prefixes);
  }

  lemma {:induction false} CutAt(rows: seq<Row>, page: int, size: int, q: nat)
    requires page > 0 && size > 0 && (page - 1) * size <= q < page * size
    ensures var cut, at := PageCut(rows, page, size), q - (page - 1) * size;
            (at < |cut| <==> q < |rows|) && (at < |cut| ==> cut[at] == rows[q])
  {
    Product(page - 1, size);
  }

  /** A page that shows a row with a new uuid is not a page of rows with smaller ones. */
  lemma {:induction false} CutsDiffer(full: seq<Row>, short: seq<Row>, page: int, size: int, q: nat, base: nat)
    requires page > 0 && size > 0 && (page - 1) * size <= q < page * size
    requires q < |full| && full[q].uuid >= base && (q < |short| ==> short[q].uuid < base)
    ensures PageCut(full, page, size) != PageCut(short, page, size)
  {
    hide PageCut;
    CutAt(full, page, size, q);
    CutAt(short, page, size, q);
  }

  lemma {:induction false} UncertainPageWrong(prefixes: seq<seq<Row>>, logs: bool, page: int, size: int)
    returns (lists: seq<seq<Row>>)
    requires AsRead(prefixes)
    requires page > 0 && size > 0 && !Certain(prefixes, Keeps(logs), page * size)
    ensures Continues(lists, prefixes)
    ensures FanOutPage(prefixes, logs, page, size).results != FanOutPage(lists, logs, page, size).results
  {
    hide *;
    PageBounds(page, size);
    var i := UncertainList(prefixes, Keeps(logs), page * size);
    var q, base;
    lists, q, base := NewRowShown(prefixes, logs, (page - 1) * size, page * size, i);
    CutsDiffer(Merged(lists, Keeps(logs)), Merged(prefixes, Keeps(logs)), page, size, q, base);
    Results(lists, logs, page, size);
    Results(prefixes, logs, page, size);
  }

  lemma {:induction false} PageBounds(page: int, size: int)
    requires page > 0 && size > 0
    ensures 0 <= (page - 1) * size < page * size
  {
    Product(page - 1, size);
  }

  lemma {:induction false} Results(lists: seq<seq<Row>>, logs: bool, page: int, size: int)
    ensures FanOutPage(lists, logs, page, size).results == PageCut(Merged(lists, Keeps(logs)), page, size)
  {
  }

  lemma {:induction false} UncertainList(prefixes: seq<seq<Row>>, keep: Row -> bool, k: int) returns (i: nat)
    requires !Certain(prefixes, keep, k)
    ensures i < |prefixes| && |prefixes[i]| == FETCH_LIMIT && RowsAhead(prefixes, keep, i, Last(prefixes[i])) < k
  {
    i :| 0 <= i < |prefixes| && |prefixes[i]| == FETCH_LIMIT && RowsAhead(prefixes, keep, i, Last(prefixes[i])) < k;
  }

  /** With fewer than k rows ahead of list i, a continuation can put a new row anywhere from there to k. */
  lemma {:induction false} NewRowShown(prefixes: seq<seq<Row>>, logs: bool, lo: nat, k: nat, i: nat)
    returns (lists: seq<seq<Row>>, q: nat, base: nat)
    requires AsRead(prefixes)
    requires lo < k && i < |prefixes| && |prefixes[i]| == FETCH_LIMIT
    requires RowsAhead(prefixes, Keeps(logs), i, Last(prefixes[i])) < k
    ensures Continues(lists, prefixes) && lo <= q < k
    ensures var full, short := Merged(lists, Keeps(logs)), Merged(prefixes, Keeps(logs));
            q < |full| && full[q].uuid >= base && (q < |short| ==> short[q].uuid < base)
  {
    hide RowsAhead, Merged, Keeps, Newer, AsRead, Continues, SortedBy, After, Concat, Above;
    var l, keep := Last(prefixes[i]), Keeps(logs);
    var ahead := RowsAhead(prefixes, keep, i, l);
    base := Above(Concat(prefixes));
    var x := Further(base, l.startStamp, k);
    FurtherKept(base, l, k, logs);
    lists := prefixes[i := prefixes[i] + x];
    ContinuedOnce(prefixes, i, x);
    q := if ahead < lo then lo else ahead;
    PlacedBehind(prefixes, keep, i, l, x, q - ahead);
    if q < |Merged(prefixes, keep)| {
      MergedUuids(prefixes, keep, q);
    }
  }

  ghost predicate RightForAll(prefixes: seq<seq<Row>>, logs: bool, page: int, size: int) {
    forall lists :: Continues(lists, prefixes) ==>
      FanOutPage(prefixes, logs, page, size).results == FanOutPage(lists, logs, page, size).results
  }

  /**
   From the rows read alone: a page is right whatever else the lists hold if and only if, for every
   list read to the limit, page * size kept rows stand ahead of the slot after its last row.
  */
  lemma {:induction false} PageCertainIff(prefixes: seq<seq<Row>>, logs: bool, page: int, size: int)
    requires AsRead(prefixes)
    requires page > 0 && size > 0
    ensures RightForAll(prefixes, logs, page, size) <==> Certain(prefixes, Keeps(logs), page * size)
  {
    hide Certain, Merged, PageCut, Keeps;
    if Certain(prefixes, Keeps(logs), page * size) {
      forall lists | Continues(lists, prefixes)
        ensures FanOutPage(prefixes, logs, page, size).results == FanOutPage(lists, logs, page, size).results
      {
        CertainPageRight(lists, logs, page, size);
      }
    } else {
      var lists := UncertainPageWrong(prefixes, logs, page, size);
    }
  }

  /** End to end: a page the fan-out can be certain of is the page of the full lists. */
  lemma {:induction false} FanOutCertain(extensions: seq<string>, fetch: string -> Option<seq<Row>>,
                                         full: string -> seq<Row>, logs: bool, page: int, size: int)
    requires Answers(extensions, fetch, full) && page > 0 && size > 0
    requires Certain(Batches(extensions, fetch), Keeps(logs), page * size)
    ensures FanOutPage(Batches(extensions, fetch), logs, page, size).results
            == FanOutPage(FullLists(extensions, full), logs, page, size).results
  {
    hide Certain, Merged, PageCut, Keeps;
    BatchesArePrefixes(extensions, fetch, full);
    CertainPageRight(FullLists(extensions, full), logs, page, size);
  }

  // ---------------------------------------------------------------------------
  // The `next` flag
  // ---------------------------------------------------------------------------

  ghost predicate NextRightForAll(prefixes: seq<seq<Row>>, logs: bool, page: int, size: int) {
    forall lists :: Continues(lists, prefixes) ==>
      FanOutPage(prefixes, logs, page, size).next == FanOutPage(lists, logs, page, size).next
  }

  lemma {:induction false} ReadWhole(lists: seq<seq<Row>>)
    requires forall i :: 0 <= i < |lists| ==> |Prefixes(lists)[i]| < FETCH_LIMIT
    ensures Prefixes(lists) == lists
  {
    assert forall i :: 0 <= i < |lists| ==> Prefixes(lists)[i] == lists[i];
  }

  /**
   From the rows read alone: the flag is right whatever else the lists hold if and only if kept rows
   beyond the page were read or every list was read whole.
  */
  lemma {:induction false} NextCertainIff(prefixes: seq<seq<Row>>, logs: bool, page: int, size: int)
    requires AsRead(prefixes)
    ensures NextRightForAll(prefixes, logs, page, size) <==>
            page * size < Total(prefixes, Keeps(logs))
            || forall i :: 0 <= i < |prefixes| ==> |prefixes[i]| < FETCH_LIMIT
  {
    hide Keeps, Merged, PageCut;
    if i :| 0 <= i < |prefixes| && |prefixes[i]| == FETCH_LIMIT {
      if page * size >= Total(prefixes, Keeps(logs)) {
        var lists := NextWrong(prefixes, logs, page, size, i);
      } else {
        forall lists | Continues(lists, prefixes)
          ensures FanOutPage(prefixes, logs, page, size).next == FanOutPage(lists, logs, page, size).next
        {
          NextFlagExactIff(lists, logs, page, size);
        }
      }
    } else {
      forall lists | Continues(lists, prefixes)
        ensures FanOutPage(prefixes, logs, page, size).next == FanOutPage(lists, logs, page, size).next
      {
        ReadWhole(lists);
      }
    }
  }

  lemma {:induction false} NextWrong(prefixes: seq<seq<Row>>, logs: bool, page: int, size: int, i: nat)
    returns (lists: seq<seq<Row>>)
    requires AsRead(prefixes)
    requires i < |prefixes| && |prefixes[i]| == FETCH_LIMIT && page * size >= Total(prefixes, Keeps(logs))
    ensures Continues(lists, prefixes)
    ensures FanOutPage(prefixes, logs, page, size).next != FanOutPage(lists, logs, page, size).next
  {
    var n := page * size + 1;
    var l := Last(prefixes[i]);
    var x := Further(0, l.startStamp, n);
    FurtherKept(0, l, n, logs);
    lists := prefixes[i := prefixes[i] + x];
    ContinuedOnce(prefixes, i, x);
    hide Keeps, Merged;
    PlacedBehind(prefixes, Keeps(logs), i, l, x, n - 1);
    MergedLength(lists, Keeps(logs));
    MergedLength(prefixes, Keeps(logs));
  }
}
