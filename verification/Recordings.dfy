/**
 apps/common/recording_views.py: the call-recordings listing.

 A request naming several extensions reads at most FETCH_LIMIT rows of each extension's list,
 merges them, sorts them newest first and cuts a page. The theorems below say for which page
 parameters that page is the page of the full lists whatever the lists hold, with the logs filter and
 without it, and when the `next` flag is right.
*/
module Recordings {
  import opened Wrappers
  import opened Ordering
  import Text

  const FETCH_LIMIT: nat := 200
  const MAX_PAGE_SIZE := 100
  const BLOCKED_NUMBERS: set<string> := {"9142215776", "9295679099"}

  /** One recording. `uuid` stands for the fields the listing does not look at. */
  datatype Row = Row(
    uuid: nat,
    startStamp: Option<string>,
    callerIdNumber: Option<string>,
    destinationNumber: Option<string>,
    extension: Option<string>)

  /** `r.get("start_stamp") or ""` */
  function Stamp(r: Row): string {
    if r.startStamp.Some? then r.startStamp.value else ""
  }

  /** `sort(key=Stamp, reverse=True)`: newest first, ties in their original order. */
  predicate Newer(a: Row, b: Row) {
    Text.Le(Stamp(b), Stamp(a))
  }

  lemma {:induction false} NewerIsPreorder()
    ensures Preorder(Newer)
  {
    Text.LeIsTotalOrder();
  }

  /** `_is_logs_row_excluded` */
  predicate Excluded(r: Row) {
    || (r.callerIdNumber.Some? && r.callerIdNumber.value in BLOCKED_NUMBERS)
    || (r.destinationNumber.Some? && r.destinationNumber.value in BLOCKED_NUMBERS)
    || var ext := Text.Strip(if r.extension.Some? then r.extension.value else "");
       Text.AllDigits(ext) && 100 <= Text.DigitsValue(ext) <= 199
  }

  function Keeps(logs: bool): Row -> bool {
    r => !logs || !Excluded(r)
  }

  // ---------------------------------------------------------------------------
  // _filter_logs_results
  // ---------------------------------------------------------------------------

  function LoweredCount(count: int, removed: nat): int {
    if removed == 0 then count else if count < removed then 0 else count - removed
  }

  /** A paginated results envelope, rewritten in place by the logs filter. */
  class Envelope {
    var results: Option<seq<Row>>
    var count: Option<int>

    method FilterLogs()
      modifies this
      ensures results == if old(results).None? then None else Some(Filter(old(results.value), Keeps(true)))
      ensures count ==
              if old(results).None? || old(count).None? then old(count)
              else Some(LoweredCount(old(count).value,
                                     |old(results).value| - |Filter(old(results).value, Keeps(true))|))
    {
      if results.Some? {
        var original := results.value;
        var filtered: seq<Row> := [];
        for i := 0 to |original|
          invariant results == old(results) && count == old(count)
          invariant filtered == Filter(original[..i], Keeps(true))
        {
          hide Filter, Excluded;
          assert original[..i + 1][..i] == original[..i];
          FilterLast(original[..i + 1], Keeps(true));
          if !Excluded(original[i]) {
            filtered := filtered + [original[i]];
          }
        }
        assert original[..|original|] == original;
        var removed := |original| - |filtered|;
        results := Some(filtered);
        if removed != 0 && count.Some? {
          count := Some(if count.value < removed then 0 else count.value - removed);
        }
      }
    }
  }

  /** Filtering twice is filtering once: nothing more is removed and the count stays. */
  lemma {:induction false} FilterLogsIdempotent(rows: seq<Row>, keep: Row -> bool)
    ensures Filter(Filter(rows, keep), keep) == Filter(rows, keep)
  {
    if rows == [] {
    } else {
      FilterLogsIdempotent(rows[1..], keep);
      FilterConcat([rows[0]], rows[1..], keep);
      FilterConcat(Filter([rows[0]], keep), Filter(rows[1..], keep), keep);
      assert rows == [rows[0]] + rows[1..];
    }
  }

  // ---------------------------------------------------------------------------
  // The request
  // ---------------------------------------------------------------------------

  datatype Request = Request(
    reqType: string,
    extensionParam: string,
    ownExtension: Option<string>,
    page: IntParam,
    pageSize: IntParam)

  datatype Response =
    | Page(count: nat, next: bool, previous: bool, results: seq<Row>)
    | Forwarded(extension: string)
    | BadRequest

  datatype Route =
    | NoExtension
    | Single(extension: string)
    | BadPaging
    | FanOut(extensions: seq<string>, page: int, pageSize: int)

  predicate Unlocked(req: Request) {
    Text.Lower(req.reqType) == "logs" || Text.Lower(req.reqType) == "log"
  }

  predicate IsLogs(req: Request) {
    req.reqType == "logs"
  }

  function ParamOr(p: IntParam, default: int): int
    requires !p.Malformed?
  {
    if p.Absent? then default else p.value
  }

  /** Everything `get` decides before it reads any row. */
  function RouteOf(req: Request): (route: Route)
    ensures !Unlocked(req) && route.Single? ==> req.ownExtension == Some(route.extension)
    ensures !Unlocked(req) && (req.ownExtension.None? || req.ownExtension.value == "") ==> route == NoExtension
    ensures route.FanOut? ==> |route.extensions| >= 2 && route.pageSize <= 100 && "" !in route.extensions
    ensures Unlocked(req) && route.Single? ==> route.extension == req.extensionParam
    ensures Unlocked(req) ==> route != NoExtension
    ensures route.FanOut? && !Unlocked(req) ==> req.ownExtension.Some? && ',' in req.ownExtension.value
    ensures route.BadPaging? ==> req.page.Malformed? || req.pageSize.Malformed?
    ensures route.BadPaging? && !Unlocked(req) ==> req.ownExtension.Some?
    ensures route.FanOut? && req.page.Value? ==> route.page == req.page.value
    ensures route.FanOut? && req.page.Absent? ==> route.page == 1
    ensures route.FanOut? && req.pageSize.Absent? ==> route.pageSize == 20
    ensures route.FanOut? && req.pageSize.Value? && req.pageSize.value <= 100 ==>
              route.pageSize == req.pageSize.value
    ensures route.FanOut? && req.pageSize.Value? && req.pageSize.value > 100 ==>
              route.pageSize == 100
    ensures route.Single? ==> |Text.CommaList(route.extension)| <= 1
    ensures route.FanOut? && Unlocked(req) ==> route.extensions == Text.CommaList(req.extensionParam)
    ensures route.FanOut? && !Unlocked(req) ==> route.extensions == Text.CommaList(req.ownExtension.value)
    ensures route.BadPaging? ==>
              |Text.CommaList(if Unlocked(req) then req.extensionParam else req.ownExtension.value)| >= 2
  {
    if !Unlocked(req) && (req.ownExtension.None? || req.ownExtension.value == "") then
      NoExtension
    else
      var raw := if Unlocked(req) then req.extensionParam else req.ownExtension.value;
      assert ',' !in raw ==> |Text.CommaList(raw)| <= 1 by {
        if ',' !in raw {
          Text.CommaListSingle(raw);
        }
      }
      var extensions := Text.CommaList(raw);
      if |extensions| <= 1 then Single(raw)
      else if req.page.Malformed? || req.pageSize.Malformed? then BadPaging
      else
        var size := ParamOr(req.pageSize, 20);
        FanOut(extensions, ParamOr(req.page, 1), if size < MAX_PAGE_SIZE then size else MAX_PAGE_SIZE)
  }

  // ---------------------------------------------------------------------------
  // Fan-out, merge, sort, page cut
  // ---------------------------------------------------------------------------

  function Concat(lists: seq<seq<Row>>): seq<Row> {
    if lists == [] then [] else lists[0] + Concat(lists[1..])
  }

  function Merged(lists: seq<seq<Row>>, keep: Row -> bool): seq<Row> {
    Sort(Filter(Concat(lists), keep), Newer)
  }

  /** Python's `s[lo:hi]`, where a negative bound counts from the end. */
  function Slice(s: seq<Row>, lo: int, hi: int): seq<Row> {
    var i := if lo < 0 then (if lo + |s| < 0 then 0 else lo + |s|) else if lo > |s| then |s| else lo;
    var j := if hi < 0 then (if hi + |s| < 0 then 0 else hi + |s|) else if hi > |s| then |s| else hi;
    if i < j then s[i..j] else []
  }

  function PageCut(rows: seq<Row>, page: int, size: int): seq<Row> {
    Slice(rows, (page - 1) * size, (page - 1) * size + size)
  }

  /** `_fetch`: a failed upstream call contributes no rows. */
  function Batch(extension: string, fetch: string -> Option<seq<Row>>): seq<Row> {
    if fetch(extension).Some? then fetch(extension).value else []
  }

  function Batches(extensions: seq<string>, fetch: string -> Option<seq<Row>>): (r: seq<seq<Row>>)
    ensures |r| == |extensions|
    ensures forall i :: 0 <= i < |r| ==> r[i] == Batch(extensions[i], fetch)
  {
    seq(|extensions|, i requires 0 <= i < |extensions| => Batch(extensions[i], fetch))
  }

  lemma {:induction false} ConcatAppend(lists: seq<seq<Row>>, last: seq<Row>)
    ensures Concat(lists + [last]) == Concat(lists) + last
  {
    if lists == [] {
      assert lists + [last] == [last];
      assert Concat([last]) == last + Concat([]);
    } else {
      assert (lists + [last])[1..] == lists[1..] + [last];
      ConcatAppend(lists[1..], last);
    }
  }

  function FanOutPage(lists: seq<seq<Row>>, logs: bool, page: int, size: int): Response {
    var merged := Merged(lists, Keeps(logs));
    Page(|merged|, page * size < |merged|, page > 1, PageCut(merged, page, size))
  }

  method FetchAll(extensions: seq<string>, fetch: string -> Option<seq<Row>>) returns (merged: seq<Row>)
    ensures merged == Concat(Batches(extensions, fetch))
  {
    merged := [];
    ghost var batches := Batches(extensions, fetch);
    for i := 0 to |extensions|
      invariant merged == Concat(batches[..i])
    {
      var batch := Batch(extensions[i], fetch);
      ConcatAppend(batches[..i], batch);
      assert batches[..i + 1] == batches[..i] + [batch];
      merged := merged + batch;
    }
    assert batches[..|extensions|] == batches;
  }

  /**
   `CallRecordingListView.get`. `single` is the envelope of the one-call path (null unless the
   upstream answered 200); `fetch` is the upstream's answer to the per-extension call for the first
   FETCH_LIMIT rows, None on any other status.
  */
  method Get(req: Request, single: Envelope?, fetch: string -> Option<seq<Row>>) returns (resp: Response)
    modifies single
    ensures match RouteOf(req)
            case NoExtension => resp == Page(0, false, false, [])
            case BadPaging => resp == BadRequest
            case Single(extension) => resp == Forwarded(extension)
            case FanOut(extensions, page, size) =>
              resp == FanOutPage(Batches(extensions, fetch), IsLogs(req), page, size)
    ensures RouteOf(req).Single? && IsLogs(req) && single != null && old(single.results).Some? ==>
              single.results == Some(Filter(old(single.results.value), Keeps(true)))
    ensures single != null && !(RouteOf(req).Single? && IsLogs(req)) ==> unchanged(single)
  {
    hide RouteOf, IsLogs, Filter, Sort, Batches, Concat;
    var logs := IsLogs(req);
    match RouteOf(req)
    case NoExtension =>
      resp := Page(0, false, false, []);
    case Single(extension) =>
      if logs && single != null {
        single.FilterLogs();
      }
      resp := Forwarded(extension);
    case BadPaging =>
      resp := BadRequest;
    case FanOut(extensions, page, size) =>
      var merged := FetchAll(extensions, fetch);
      merged := Filter(merged, Keeps(logs));
      merged := Sort(merged, Newer);
      var total := |merged|;
      var offset := (page - 1) * size;
      resp := Page(total, page * size < total, page > 1, Slice(merged, offset, offset + size));
  }

  // ---------------------------------------------------------------------------
  // The page of the prefixes is the page of the full lists
  // ---------------------------------------------------------------------------

  ghost predicate AllSorted(lists: seq<seq<Row>>) {
    forall i :: 0 <= i < |lists| ==> SortedBy(lists[i], Newer)
  }

  /** What the fan-out reads of each list. */
  function Prefixes(lists: seq<seq<Row>>): (r: seq<seq<Row>>)
    ensures |r| == |lists|
    ensures forall i :: 0 <= i < |lists| ==> r[i] == Take(lists[i], FETCH_LIMIT)
  {
    seq(|lists|, i requires 0 <= i < |lists| => Take(lists[i], FETCH_LIMIT))
  }

  lemma {:induction false} MergedCons(first: seq<Row>, rest: seq<seq<Row>>, keep: Row -> bool)
    requires SortedBy(first, Newer)
    ensures Merged([first] + rest, keep) == Merge(Filter(first, keep), Merged(rest, keep), Newer)
  {
    NewerIsPreorder();
    assert ([first] + rest)[1..] == rest;
    FilterConcat(first, Concat(rest), keep);
    SortConcat(Filter(first, keep), Filter(Concat(rest), keep), Newer);
    FilterSorted(first, keep, Newer);
    SortOfSorted(Filter(first, keep), Newer);
  }

  /** Families of sorted lists whose kept rows agree up to k merge to the same first k rows. */
  lemma {:induction false} MergedHead(a: seq<seq<Row>>, b: seq<seq<Row>>, keep: Row -> bool, k: nat)
    requires |a| == |b| && AllSorted(a) && AllSorted(b)
    requires forall i :: 0 <= i < |a| ==> Take(Filter(a[i], keep), k) == Take(Filter(b[i], keep), k)
    ensures Take(Merged(a, keep), k) == Take(Merged(b, keep), k)
  {
    hide Merged, Filter, Merge, Take;
    if a == [] {
      assert b == [];
    } else {
      assert a == [a[0]] + a[1..] && b == [b[0]] + b[1..];
      MergedCons(a[0], a[1..], keep);
      MergedCons(b[0], b[1..], keep);
      MergedHead(a[1..], b[1..], keep, k);
      MergeHead(Filter(a[0], keep), Filter(b[0], keep), Merged(a[1..], keep), Merged(b[1..], keep), k, Newer);
    }
  }

  lemma {:induction false} PrefixHead(list: seq<Row>, keep: Row -> bool, k: nat)
    requires |list| <= FETCH_LIMIT || |Filter(Take(list, FETCH_LIMIT), keep)| >= k
    ensures Take(Filter(Take(list, FETCH_LIMIT), keep), k) == Take(Filter(list, keep), k)
  {
    var prefix := Take(list, FETCH_LIMIT);
    assert list == prefix + list[|prefix|..];
    FilterConcat(prefix, list[|prefix|..], keep);
  }

  lemma {:induction false} PrefixesSorted(lists: seq<seq<Row>>)
    requires AllSorted(lists)
    ensures AllSorted(Prefixes(lists))
  {
  }

  /** A page cut from the front looks at no row past its end. */
  lemma {:induction false} PageCutHead(a: seq<Row>, b: seq<Row>, page: int, size: int)
    requires page >= 1 && size >= 0
    requires page * size >= 0 && Take(a, page * size) == Take(b, page * size)
    ensures PageCut(a, page, size) == PageCut(b, page, size)
  {
  }

  /**
   The page cut from the merged prefixes is the page of the full lists, ties included, whenever
   every list either is read whole or still keeps page * size rows of what was read.
  */
  lemma {:induction false} PageOfPrefixesExact(lists: seq<seq<Row>>, logs: bool, page: int, size: int)
    requires AllSorted(lists)
    requires page >= 1 && size >= 0
    requires forall i :: 0 <= i < |lists| ==>
               |lists[i]| <= FETCH_LIMIT || |Filter(Take(lists[i], FETCH_LIMIT), Keeps(logs))| >= page * size
    ensures FanOutPage(Prefixes(lists), logs, page, size).results == FanOutPage(lists, logs, page, size).results
  {
    var keep, k := Keeps(logs), page * size;
    assert k >= 0 by {
      Product(page, size);
    }
    PrefixesSorted(lists);
    forall i | 0 <= i < |lists|
      ensures Take(Filter(Prefixes(lists)[i], keep), k) == Take(Filter(lists[i], keep), k)
    {
      PrefixHead(lists[i], keep, k);
    }
    MergedHead(Prefixes(lists), lists, keep, k);
    PageCutHead(Merged(Prefixes(lists), keep), Merged(lists, keep), page, size);
  }

  lemma {:induction false} Product(a: int, b: int)
    ensures a >= 0 && b >= 0 ==> a * b >= 0
    ensures a >= 1 && b <= 0 ==> a * b <= b
    ensures a <= 0 && b <= 0 ==> a * b >= 0
    ensures a <= -1 && b >= 0 ==> a * b <= -b
    ensures a <= -1 && b <= 0 ==> a * b >= -b
    ensures (a - 1) * b + b == a * b
  {
    if a >= 1 && b <= 0 {
      assert (a - 1) * b <= 0;
    }
    if a <= -1 && b >= 0 {
      assert (a + 1) * b <= 0;
    }
    if a <= -1 && b <= 0 {
      assert (a + 1) * b >= 0;
    }
  }

  // ---------------------------------------------------------------------------
  // Exactly which pages are right for all lists
  // ---------------------------------------------------------------------------

  /** The page parameters that show nothing, whatever the rows. */
  predicate BlankPage(page: int, size: int) {
    size == 0 || page == 0 || (size < 0 && page != 1)
  }

  /**
   The page parameters for which no list can make the cut go wrong. The logs filter may leave
   nothing of the rows read, so with it only blank pages are safe.
  */
  predicate SafePage(logs: bool, page: int, size: int) {
    BlankPage(page, size) || (!logs && size > 0 && page > 0 && page * size <= 200)
  }

  ghost predicate PageAlwaysExact(logs: bool, page: int, size: int) {
    forall lists: seq<seq<Row>> :: AllSorted(lists) ==>
      FanOutPage(Prefixes(lists), logs, page, size).results == FanOutPage(lists, logs, page, size).results
  }

  lemma {:induction false} KeepAll(rows: seq<Row>)
    ensures Filter(rows, Keeps(false)) == rows
  {
    if rows == [] {
    } else {
      KeepAll(rows[1..]);
    }
  }

  lemma {:induction false} EmptyCut(rows: seq<Row>, page: int, size: int)
    requires BlankPage(page, size)
    ensures PageCut(rows, page, size) == []
  {
    Product(page, size);
    Product(page - 1, size);
  }

  lemma {:induction false} SafePageSuffices(lists: seq<seq<Row>>, logs: bool, page: int, size: int)
    requires AllSorted(lists) && SafePage(logs, page, size)
    ensures FanOutPage(Prefixes(lists), logs, page, size).results == FanOutPage(lists, logs, page, size).results
  {
    if BlankPage(page, size) {
      EmptyCut(Merged(lists, Keeps(logs)), page, size);
      EmptyCut(Merged(Prefixes(lists), Keeps(logs)), page, size);
    } else {
      forall i | 0 <= i < |lists|
        ensures |Filter(Take(lists[i], FETCH_LIMIT), Keeps(false))| == |Take(lists[i], FETCH_LIMIT)|
      {
        KeepAll(Take(lists[i], FETCH_LIMIT));
      }
      PageOfPrefixesExact(lists, false, page, size);
    }
  }

  /** n recordings of one extension, all with the same stamp. */
  function Series(n: nat): (r: seq<Row>)
    ensures |r| == n
    ensures forall i :: 0 <= i < n ==> r[i] == Row(i, None, None, None, None)
    ensures SortedBy(r, Newer)
  {
    seq(n, i requires 0 <= i < n => Row(i, None, None, None, None))
  }

  lemma {:induction false} ConcatSingle(list: seq<Row>)
    ensures Concat([list]) == list
  {
    assert [list][1..] == [];
    assert list + [] == list;
  }

  lemma {:induction false} MergedSeries(n: nat)
    ensures Merged([Series(n)], Keeps(false)) == Series(n)
  {
    ConcatSingle(Series(n));
    KeepAll(Series(n));
    NewerIsPreorder();
    SortOfSorted(Series(n), Newer);
  }

  /** A length whose list the cut gets wrong. */
  function Witness(page: int, size: int): int {
    if page > 0 && size > 0 then page * size
    else if size > 0 then FETCH_LIMIT - (page - 1) * size
    else FETCH_LIMIT + 1 - size
  }

  lemma {:induction false} UnfilteredPageFails(page: int, size: int)
    requires !SafePage(false, page, size)
    ensures !PageAlwaysExact(false, page, size)
  {
    var n := Witness(page, size);
    CutsDiffer(page, size);
    var lists := [Series(n)];
    assert Prefixes(lists) == [Series(FETCH_LIMIT)] by {
      assert Take(Series(n), FETCH_LIMIT) == Series(FETCH_LIMIT);
    }
    assert AllSorted(lists);
    hide Series, PageCut, Merged, Witness, Prefixes;
    MergedSeries(n);
    MergedSeries(FETCH_LIMIT);
    assert FanOutPage(Prefixes(lists), false, page, size).results != FanOutPage(lists, false, page, size).results;
  }

  lemma {:induction false} CutsDiffer(page: int, size: int)
    requires !SafePage(false, page, size)
    ensures Witness(page, size) > FETCH_LIMIT
    ensures PageCut(Series(FETCH_LIMIT), page, size) != PageCut(Series(Witness(page, size)), page, size)
  {
    Product(page, size);
    Product(page - 1, size);
    var n := Witness(page, size);
    assert n > FETCH_LIMIT;
    var cut, full := PageCut(Series(FETCH_LIMIT), page, size), PageCut(Series(n), page, size);
    if page > 0 && size > 0 {
      assert |full| == size > |cut|;
    } else if size > 0 {
      assert full[0].uuid == FETCH_LIMIT;
    } else {
      assert |full| == FETCH_LIMIT + 1;
    }
  }

  /** n recordings the logs page never shows. */
  function Blocked(n: nat): (r: seq<Row>)
    ensures |r| == n
    ensures forall i :: 0 <= i < n ==> r[i] == Row(i, None, Some("9142215776"), None, None)
    ensures forall x :: x in r ==> Excluded(x)
  {
    seq(n, i requires 0 <= i < n => Row(i, None, Some("9142215776"), None, None))
  }

  lemma {:induction false} SeriesKept(rows: seq<Row>)
    requires forall x :: x in rows ==> !Excluded(x)
    ensures Filter(rows, Keeps(true)) == rows
  {
    hide Excluded;
    if rows == [] {
      assert Filter(rows, Keeps(true)) == [];
    } else {
      assert rows[0] in rows;
      SeriesKept(rows[1..]);
    }
  }

  /** A full page of blocked rows hides everything after it. */
  lemma {:induction false} MergedBehindBlocked(n: nat)
    ensures Merged([Blocked(FETCH_LIMIT)], Keeps(true)) == []
    ensures Merged([Blocked(FETCH_LIMIT) + Series(n)], Keeps(true)) == Series(n)
  {
    var blocked, kept := Blocked(FETCH_LIMIT), Series(n);
    ConcatSingle(blocked);
    ConcatSingle(blocked + kept);
    FilterNone(blocked, Keeps(true));
    FilterConcat(blocked, kept, Keeps(true));
    forall x | x in kept
      ensures !Excluded(x)
    {
      assert Text.Strip("") == "";
    }
    SeriesKept(kept);
    assert [] + kept == kept;
    NewerIsPreorder();
    SortOfSorted(kept, Newer);
  }

  /** How many kept rows behind the blocked ones make the page non-empty. */
  function KeptWitness(page: int, size: int): int {
    if page > 0 && size > 0 then page * size
    else if size > 0 then size - page * size
    else 1 - size
  }

  lemma {:induction false} FilteredPageFails(page: int, size: int)
    requires !SafePage(true, page, size)
    ensures !PageAlwaysExact(true, page, size)
  {
    var n := KeptWitness(page, size);
    KeptCutNotEmpty(page, size);
    var list := Blocked(FETCH_LIMIT) + Series(n);
    assert Prefixes([list]) == [Blocked(FETCH_LIMIT)] by {
      assert Take(list, FETCH_LIMIT) == Blocked(FETCH_LIMIT);
    }
    assert AllSorted([list]);
    hide Series, Blocked, PageCut, Merged, KeptWitness, Prefixes;
    MergedBehindBlocked(n);
    assert FanOutPage(Prefixes([list]), true, page, size).results != FanOutPage([list], true, page, size).results;
  }

  lemma {:induction false} KeptCutNotEmpty(page: int, size: int)
    requires !SafePage(true, page, size)
    ensures KeptWitness(page, size) > 0
    ensures PageCut([], page, size) == [] != PageCut(Series(KeptWitness(page, size)), page, size)
  {
    Product(page, size);
    Product(page - 1, size);
    assert KeptWitness(page, size) > 0;
  }

  lemma {:induction false} UnsafePageFails(logs: bool, page: int, size: int)
    requires !SafePage(logs, page, size)
    ensures !PageAlwaysExact(logs, page, size)
  {
    if logs {
      FilteredPageFails(page, size);
    } else {
      UnfilteredPageFails(page, size);
    }
  }

  /** The page is right for all sorted lists exactly when SafePage holds, with and without the filter. */
  lemma {:induction false} PageExactIff(logs: bool, page: int, size: int)
    ensures PageAlwaysExact(logs, page, size) <==> SafePage(logs, page, size)
  {
    hide SafePage, Merged, PageCut;
    if SafePage(logs, page, size) {
      forall lists: seq<seq<Row>> | AllSorted(lists)
        ensures FanOutPage(Prefixes(lists), logs, page, size).results == FanOutPage(lists, logs, page, size).results
      {
        SafePageSuffices(lists, logs, page, size);
      }
    } else {
      UnsafePageFails(logs, page, size);
    }
  }

  function FullLists(extensions: seq<string>, full: string -> seq<Row>): (r: seq<seq<Row>>)
    ensures |r| == |extensions|
    ensures forall i :: 0 <= i < |r| ==> r[i] == full(extensions[i])
  {
    seq(|extensions|, i requires 0 <= i < |extensions| => full(extensions[i]))
  }

  /** The upstream answers each extension with the first FETCH_LIMIT rows of its sorted list. */
  ghost predicate Answers(extensions: seq<string>, fetch: string -> Option<seq<Row>>, full: string -> seq<Row>) {
    forall i :: 0 <= i < |extensions| ==>
      SortedBy(full(extensions[i]), Newer) && fetch(extensions[i]) == Some(Take(full(extensions[i]), FETCH_LIMIT))
  }

  lemma {:induction false} BatchesArePrefixes(extensions: seq<string>, fetch: string -> Option<seq<Row>>,
                                              full: string -> seq<Row>)
    requires Answers(extensions, fetch, full)
    ensures AllSorted(FullLists(extensions, full))
    ensures Batches(extensions, fetch) == Prefixes(FullLists(extensions, full))
  {
    assert forall i :: 0 <= i < |extensions| ==> Batch(extensions[i], fetch) == Take(full(extensions[i]), FETCH_LIMIT);
  }

  /** End to end: the fan-out serves the page of the full lists on every safe page. */
  lemma {:induction false} FanOutServesFullPage(extensions: seq<string>, fetch: string -> Option<seq<Row>>,
                                                full: string -> seq<Row>, logs: bool, page: int, size: int)
    requires Answers(extensions, fetch, full) && SafePage(logs, page, size)
    ensures FanOutPage(Batches(extensions, fetch), logs, page, size).results
            == FanOutPage(FullLists(extensions, full), logs, page, size).results
  {
    hide FanOutPage, SafePage;
    BatchesArePrefixes(extensions, fetch, full);
    SafePageSuffices(FullLists(extensions, full), logs, page, size);
  }

  // ---------------------------------------------------------------------------
  // The count and the `next` flag
  // ---------------------------------------------------------------------------

  /** How many rows are left after the filter. */
  function Total(lists: seq<seq<Row>>, keep: Row -> bool): nat {
    if lists == [] then 0 else |Filter(lists[0], keep)| + Total(lists[1..], keep)
  }

  lemma {:induction false} MergedLength(lists: seq<seq<Row>>, keep: Row -> bool)
    ensures |Merged(lists, keep)| == Total(lists, keep)
  {
    if lists == [] {
      assert Concat(lists) == [];
    } else {
      MergedLength(lists[1..], keep);
      FilterConcat(lists[0], Concat(lists[1..]), keep);
    }
  }

  lemma {:induction false} PrefixTotal(lists: seq<seq<Row>>, keep: Row -> bool)
    ensures Total(Prefixes(lists), keep) <= Total(lists, keep)
  {
    if lists == [] {
      assert Prefixes(lists) == [];
    } else {
      PrefixTotal(lists[1..], keep);
      assert Prefixes(lists)[1..] == Prefixes(lists[1..]);
      var prefix := Take(lists[0], FETCH_LIMIT);
      assert lists[0] == prefix + lists[0][|prefix|..];
      FilterConcat(prefix, lists[0][|prefix|..], keep);
    }
  }

  /**
   The `next` flag is right unless the page ends among the rows that were not read: at or after the
   last kept row read, and before the last kept row there is.
  */
  lemma {:induction false} NextFlagExactIff(lists: seq<seq<Row>>, logs: bool, page: int, size: int)
    ensures FanOutPage(Prefixes(lists), logs, page, size).next == FanOutPage(lists, logs, page, size).next
            <==> !(Total(Prefixes(lists), Keeps(logs)) <= page * size < Total(lists, Keeps(logs)))
  {
    MergedLength(lists, Keeps(logs));
    MergedLength(Prefixes(lists), Keeps(logs));
    PrefixTotal(lists, Keeps(logs));
  }

  lemma {:induction false} UnfilteredPrefixTotal(lists: seq<seq<Row>>)
    ensures Total(Prefixes(lists), Keeps(false)) == Total(lists, Keeps(false))
            || Total(Prefixes(lists), Keeps(false)) >= FETCH_LIMIT
  {
    if lists == [] {
      assert Prefixes(lists) == [];
    } else {
      UnfilteredPrefixTotal(lists[1..]);
      PrefixTotal(lists[1..], Keeps(false));
      assert Prefixes(lists)[1..] == Prefixes(lists[1..]);
      KeepAll(lists[0]);
      KeepAll(Take(lists[0], FETCH_LIMIT));
    }
  }

  /** Without the filter, on the first FETCH_LIMIT rows: wrong only where the rows read end. */
  lemma {:induction false} UnfilteredNextFlagIff(lists: seq<seq<Row>>, page: int, size: int)
    requires page * size <= FETCH_LIMIT
    ensures FanOutPage(Prefixes(lists), false, page, size).next == FanOutPage(lists, false, page, size).next
            <==> !(page * size == Total(Prefixes(lists), Keeps(false)) == FETCH_LIMIT < Total(lists, Keeps(false)))
  {
    NextFlagExactIff(lists, false, page, size);
    UnfilteredPrefixTotal(lists);
    PrefixTotal(lists, Keeps(false));
  }
}
