/**
 apps/common/fax_views.py: `_fetch_all_fax_files` and the page cut of `FaxFileListView.get`.

 The upstream is a function from page numbers to answers; None is an answer that is not a 200 with a
 list of results.
*/
module FaxPaging {
  import opened Wrappers
  import Ordering

  const FETCH_PAGE_SIZE: nat := 1000
  const DEFAULT_PAGE_SIZE: nat := 25
  const MAX_PAGE_SIZE: nat := 1000

  /** `assignee` is the user id of the fax's local tag. */
  datatype Fax = Fax(uuid: string, assignee: Option<string>)

  type Upstream = nat -> Option<seq<Fax>>

  /** The loop leaves at this page: it failed, or it is not full. */
  predicate Stops(upstream: Upstream, page: nat) {
    upstream(page).None? || |upstream(page).value| < FETCH_PAGE_SIZE
  }

  /** What fetching from `page` on gives, when some page up to `stop` ends the loop. */
  function Collected(upstream: Upstream, page: nat, stop: nat): Option<seq<Fax>>
    requires page <= stop && Stops(upstream, stop)
    decreases stop - page
  {
    if upstream(page).None? then None
    else if |upstream(page).value| < FETCH_PAGE_SIZE then upstream(page)
    else
      var rest := Collected(upstream, page + 1, stop);
      if rest.None? then None else Some(upstream(page).value + rest.value)
  }

  /** `_fetch_all_fax_files`: it ends because some page does. */
  method FetchAll(upstream: Upstream, ghost stop: nat) returns (all: Option<seq<Fax>>)
    requires stop >= 1 && Stops(upstream, stop)
    ensures all == Collected(upstream, 1, stop)
  {
    var records := [];
    var page := 1;
    ghost var whole := Collected(upstream, 1, stop);
    assert whole.Some? ==> [] + whole.value == whole.value;
    while true
      invariant 1 <= page <= stop
      invariant Collected(upstream, 1, stop) ==
                var rest := Collected(upstream, page, stop);
                if rest.None? then None else Some(records + rest.value)
      decreases stop - page
    {
      var answer := upstream(page);
      if answer.None? {
        return None;
      }
      ghost var before := records;
      records := records + answer.value;
      if |answer.value| < FETCH_PAGE_SIZE {
        break;
      }
      ghost var rest := Collected(upstream, page + 1, stop);
      assert rest.Some? ==> before + (answer.value + rest.value) == records + rest.value;
      page := page + 1;
    }
    all := Some(records);
  }

  function Min(a: nat, b: nat): nat {
    if a < b then a else b
  }

  /** `list[(page - 1) * size : (page - 1) * size + size]` for page >= 1 and size >= 1 */
  function Cut<T>(list: seq<T>, page: int, size: int): seq<T>
    requires page >= 1 && size >= 1
  {
    var start := (page - 1) * size;
    Positive(page - 1, size);
    list[Min(start, |list|)..Min(start + size, |list|)]
  }

  lemma {:induction false} Positive(a: int, b: int)
    requires a >= 0 && b >= 0
    ensures a * b >= 0
    ensures (a + 1) * b == a * b + b
  {
  }

  /** The upstream pages one fixed list, and pages past its end are empty. */
  ghost predicate Faithful(upstream: Upstream, list: seq<Fax>) {
    forall page :: page >= 1 ==> upstream(page) == Some(Cut(list, page, FETCH_PAGE_SIZE))
  }

  /** A faithful upstream always ends the loop. */
  lemma {:induction false} FaithfulStops(upstream: Upstream, list: seq<Fax>)
    requires Faithful(upstream, list)
    ensures Stops(upstream, |list| / FETCH_PAGE_SIZE + 1)
  {
  }

  lemma {:induction false} CollectedRest(upstream: Upstream, list: seq<Fax>, page: nat, stop: nat)
    requires Faithful(upstream, list) && 1 <= page <= stop && Stops(upstream, stop)
    requires (page - 1) * FETCH_PAGE_SIZE <= |list|
    ensures Collected(upstream, page, stop) == Some(list[(page - 1) * FETCH_PAGE_SIZE..])
    decreases stop - page
  {
    var start := (page - 1) * FETCH_PAGE_SIZE;
    assert upstream(page) == Some(Cut(list, page, FETCH_PAGE_SIZE));
    assert list[start..|list|] == list[start..];
    if start + FETCH_PAGE_SIZE <= |list| {
      CollectedRest(upstream, list, page + 1, stop);
      assert list[start..start + FETCH_PAGE_SIZE] + list[start + FETCH_PAGE_SIZE..] == list[start..];
    }
  }

  /** Fetching everything from a faithful upstream gives the whole list, in order. */
  lemma {:induction false} FetchesWhole(upstream: Upstream, list: seq<Fax>, stop: nat)
    requires Faithful(upstream, list) && stop >= 1 && Stops(upstream, stop)
    ensures Collected(upstream, 1, stop) == Some(list)
  {
    CollectedRest(upstream, list, 1, stop);
    assert list[0..] == list;
  }

  /** The upstream pages one fixed list, but never puts more than `cap` faxes on a page. */
  ghost predicate Capped(upstream: Upstream, list: seq<Fax>, cap: nat) {
    && cap >= 1
    && forall page :: page >= 1 ==> upstream(page) == Some(Cut(list, page, Min(cap, FETCH_PAGE_SIZE)))
  }

  /**
   From an upstream with a cap the loop returns the whole list if and only if the cap admits the page
   size asked for or the list fits one page; otherwise the first short page ends it with that page alone.
  */
  lemma {:induction false} CappedFetchIff(upstream: Upstream, list: seq<Fax>, cap: nat, stop: nat)
    requires Capped(upstream, list, cap) && stop >= 1 && Stops(upstream, stop)
    ensures Collected(upstream, 1, stop) == Some(list) <==> cap >= 1000 || |list| <= cap
    ensures cap < 1000 ==> Collected(upstream, 1, stop) == Some(list[..Min(cap, |list|)])
  {
    if cap >= FETCH_PAGE_SIZE {
      assert Faithful(upstream, list);
      FetchesWhole(upstream, list, stop);
    } else {
      assert upstream(1) == Some(Cut(list, 1, cap));
      assert Cut(list, 1, cap) == list[..Min(cap, |list|)];
      assert |list| <= cap ==> list[..|list|] == list;
    }
  }

  /** Any failed page before the end makes the whole fetch fail: no partial list is returned. */
  lemma {:induction false} FailsWhole(upstream: Upstream, page: nat, failed: nat, stop: nat)
    requires page <= failed <= stop && Stops(upstream, stop) && upstream(failed).None?
    requires forall p :: page <= p < failed ==> !Stops(upstream, p)
    ensures Collected(upstream, page, stop).None?
    decreases failed - page
  {
    if page < failed {
      assert !Stops(upstream, page);
      FailsWhole(upstream, page + 1, failed, stop);
    }
  }

  // ---------------------------------------------------------------------------
  // The listing
  // ---------------------------------------------------------------------------

  function PageNumber(p: IntParam): (n: int)
    ensures n >= 1
  {
    match p
    case Absent => 1
    case Malformed => 1
    case Value(v) => if v < 1 then 1 else v
  }

  function PageSize(p: IntParam): (n: int)
    ensures 1 <= n <= MAX_PAGE_SIZE
  {
    match p
    case Absent => DEFAULT_PAGE_SIZE
    case Malformed => DEFAULT_PAGE_SIZE
    case Value(v) => if v < 1 then 1 else if v > MAX_PAGE_SIZE then MAX_PAGE_SIZE else v
  }

  datatype Response =
    | Unavailable
    | Everything(faxes: seq<Fax>)
    | Page(count: nat, page: int, pageSize: int, results: seq<Fax>)

  function Mine(list: seq<Fax>, user: string): seq<Fax> {
    Ordering.Filter(list, (f: Fax) => f.assignee == Some(user))
  }

  function Listing(fetched: Option<seq<Fax>>, user: string, exportAll: bool, page: IntParam,
                   pageSize: IntParam): Response {
    if fetched.None? then Unavailable
    else if exportAll then Everything(Mine(fetched.value, user))
    else
      var mine := Mine(fetched.value, user);
      Page(|mine|, PageNumber(page), PageSize(pageSize), Cut(mine, PageNumber(page), PageSize(pageSize)))
  }

  /** `FaxFileListView.get` with `assigned_to=me` */
  method List(upstream: Upstream, ghost stop: nat, user: string, exportAll: bool, page: IntParam, pageSize: IntParam)
    returns (r: Response)
    requires stop >= 1 && Stops(upstream, stop)
    ensures r == Listing(Collected(upstream, 1, stop), user, exportAll, page, pageSize)
  {
    var all := FetchAll(upstream, stop);
    if all.None? {
      return Unavailable;
    }
    var filtered := Ordering.Filter(all.value, (f: Fax) => f.assignee == Some(user));
    if exportAll {
      return Everything(filtered);
    }
    var number, size := PageNumber(page), PageSize(pageSize);
    r := Page(|filtered|, number, size, Cut(filtered, number, size));
  }

  function Pages<T>(list: seq<T>, n: nat, size: int): seq<T>
    requires size >= 1
  {
    if n == 0 then [] else Pages(list, n - 1, size) + Cut(list, n, size)
  }

  lemma {:induction false} PrefixGrows<T>(list: seq<T>, start: nat, stop: nat)
    requires start <= stop
    ensures list[..Min(start, |list|)] + list[Min(start, |list|)..Min(stop, |list|)] == list[..Min(stop, |list|)]
  {
  }

  lemma {:induction false} CutFrom<T>(list: seq<T>, page: int, size: int, start: nat)
    requires page >= 1 && size >= 1 && start == (page - 1) * size
    ensures Cut(list, page, size) == list[Min(start, |list|)..Min(start + size, |list|)]
  {
  }

  /** The first n pages are the first n * size entries: no gap and no overlap. */
  lemma {:induction false} PagesArePrefix<T>(list: seq<T>, n: nat, size: int)
    requires size >= 1
    ensures n * size >= 0
    ensures Pages(list, n, size) == list[..Min(n * size, |list|)]
  {
    if n == 0 {
    } else {
      PagesArePrefix(list, n - 1, size);
      Positive(n - 1, size);
      var start := (n - 1) * size;
      assert 0 <= start && n * size == start + size;
      CutFrom(list, n, size, start);
      assert Pages(list, n, size) == Pages(list, n - 1, size) + Cut(list, n, size);
      hide *;
      PrefixGrows(list, start, start + size);
    }
  }

  /** Enough pages give back the whole list, whatever the page size. */
  lemma {:induction false} PagesAreWhole<T>(list: seq<T>, n: nat, size: int)
    requires size >= 1 && n * size >= |list|
    ensures Pages(list, n, size) == list
  {
    PagesArePrefix(list, n, size);
    assert list[..|list|] == list;
  }

  /** The results of the listing's pages 1 to n for one size. */
  function Shown(fetched: Option<seq<Fax>>, user: string, n: nat, size: IntParam): seq<Fax> {
    if n == 0 then []
    else
      var r := Listing(fetched, user, false, Value(n), size);
      Shown(fetched, user, n - 1, size) + (if r.Page? then r.results else [])
  }

  /**
   With a faithful upstream, walking the pages of any requested size shows exactly the user's faxes
   of the whole upstream list, each once and in order.
  */
  lemma {:induction false} ShownIsMine(upstream: Upstream, list: seq<Fax>, stop: nat, user: string, n: nat,
                                       size: IntParam)
    requires Faithful(upstream, list) && stop >= 1 && Stops(upstream, stop)
    requires n * PageSize(size) >= |Mine(list, user)|
    ensures Shown(Collected(upstream, 1, stop), user, n, size) == Mine(list, user)
  {
    FetchesWhole(upstream, list, stop);
    ShownIsPages(list, user, n, size);
    PagesAreWhole(Mine(list, user), n, PageSize(size));
  }

  lemma {:induction false} ShownIsPages(list: seq<Fax>, user: string, n: nat, size: IntParam)
    ensures Shown(Some(list), user, n, size) == Pages(Mine(list, user), n, PageSize(size))
  {
    if n == 0 {
    } else {
      ShownIsPages(list, user, n - 1, size);
      assert PageNumber(Value(n)) == n;
      hide Mine, Cut, PageNumber, PageSize;
    }
  }

  /** Of any list exactly the faxes tagged for the user count, in the order of the list. */
  lemma {:induction false} MineIs(before: seq<Fax>, f: Fax, rest: seq<Fax>, user: string)
    ensures Mine([], user) == []
    ensures Mine(before + [f] + rest, user) ==
            Mine(before, user) + (if f.assignee == Some(user) then [f] else []) + Mine(rest, user)
  {
    var mine := (g: Fax) => g.assignee == Some(user);
    MineIsFilter(before + [f] + rest, user, mine);
    MineIsFilter(before, user, mine);
    MineIsFilter(rest, user, mine);
    MineIsFilter([], user, mine);
    assert Ordering.Filter([], mine) == [];
    Ordering.FilterConcat(before + [f], rest, mine);
    Ordering.FilterConcat(before, [f], mine);
    Ordering.FilterCut([f], mine);
    assert [f][1..] == [];
    hide *;
    assert Ordering.Filter([f], mine) == if f.assignee == Some(user) then [f] else [];
  }

  lemma {:induction false} MineIsFilter(list: seq<Fax>, user: string, mine: Fax -> bool)
    requires forall f :: mine(f) <==> f.assignee == Some(user)
    ensures Mine(list, user) == Ordering.Filter(list, mine)
  {
    if list == [] {
    } else {
      MineIsFilter(list[1..], user, mine);
    }
  }

  /** Page 1 of 25 by default or when malformed; at least page 1 and size 1, and never more than 1000. */
  lemma {:induction false} ListingParams(list: seq<Fax>, user: string, page: IntParam, pageSize: IntParam)
    ensures var r := Listing(Some(list), user, false, page, pageSize);
            && r.Page? && r.count == |Mine(list, user)|
            && r.page == (if page.Value? && page.value >= 1 then page.value else 1)
            && r.pageSize == (if !pageSize.Value? then 25
                              else if pageSize.value < 1 then 1
                              else if pageSize.value > 1000 then 1000
                              else pageSize.value)
            && |r.results| <= r.pageSize
    ensures Listing(None, user, false, page, pageSize) == Unavailable
    ensures Listing(Some(list), user, true, page, pageSize) == Everything(Mine(list, user))
  {
  }
}
