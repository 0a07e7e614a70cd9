/**
 apps/common/recording_views.py: what the pages of the recordings listing show, said of the rows'
 own fields: which rows, in which order, and what count and the page flags tell.
*/
module RecordingPages {
  import opened Wrappers
  import opened Ordering
  import opened Recordings
  import Text

  // ---------------------------------------------------------------------------
  // Order
  // ---------------------------------------------------------------------------

  /** a is at least as new as b: a missing stamp is older than any. */
  ghost predicate NotOlderThan(a: Row, b: Row) {
    match b.startStamp
    case None => true
    case Some(stamp) => if a.startStamp.Some? then Text.Le(stamp, a.startStamp.value) else stamp == ""
  }

  lemma {:induction false} MergedDescends(lists: seq<seq<Row>>, keep: Row -> bool)
    ensures var rows := Merged(lists, keep);
            forall i, j :: 0 <= i < j < |rows| ==> NotOlderThan(rows[i], rows[j])
  {
    NewerIsPreorder();
    SortIsStableSort(Filter(Concat(lists), keep), Newer);
    var rows := Merged(lists, keep);
    assert SortedBy(rows, Newer);
  }

  /** The rows of page p are the rows at positions (p - 1) * size up to p * size. */
  lemma {:induction false} CutAt(rows: seq<Row>, page: int, size: int)
    requires page >= 1 && size >= 1
    ensures 0 <= (page - 1) * size && page * size == (page - 1) * size + size
    ensures var lo, hi := Least((page - 1) * size, |rows|), Least(page * size, |rows|);
            PageCut(rows, page, size) == rows[lo..hi]
  {
    assert page * size == (page - 1) * size + size;
    assert (page - 1) * size >= 0 by {
      NotNegative(page - 1, size);
    }
  }

  lemma {:induction false} NotNegative(a: int, b: int)
    requires a >= 0 && b >= 0
    ensures a * b >= 0
  {
  }

  function Least(a: int, b: int): int {
    if a < b then a else b
  }

  lemma {:induction false} CutInOrder(rows: seq<Row>, page: int, size: int)
    requires forall i, j :: 0 <= i < j < |rows| ==> NotOlderThan(rows[i], rows[j])
    ensures var cut := PageCut(rows, page, size);
            forall i, j :: 0 <= i < j < |cut| ==> NotOlderThan(cut[i], cut[j])
  {
    hide NotOlderThan;
  }

  /** Every page, whatever its parameters, shows the newest rows first. */
  lemma {:induction false} PageDescends(lists: seq<seq<Row>>, logs: bool, page: int, size: int)
    ensures var rows := FanOutPage(lists, logs, page, size).results;
            forall i, j :: 0 <= i < j < |rows| ==> NotOlderThan(rows[i], rows[j])
  {
    MergedDescends(lists, Keeps(logs));
    CutInOrder(Merged(lists, Keeps(logs)), page, size);
  }

  /** No row on a later page is newer than one on an earlier page. */
  lemma {:induction false} LaterPagesAreOlder(lists: seq<seq<Row>>, logs: bool, p: int, q: int, size: int, a: Row,
                                              b: Row)
    requires 1 <= p < q && size >= 1
    requires a in FanOutPage(lists, logs, p, size).results && b in FanOutPage(lists, logs, q, size).results
    ensures NotOlderThan(a, b)
  {
    var rows := Merged(lists, Keeps(logs));
    MergedDescends(lists, Keeps(logs));
    hide NotOlderThan, Merged, PageCut;
    PagesApart(p, q, size);
    var i := OnPage(rows, p, size, a);
    var j := OnPage(rows, q, size, b);
    assert i < j;
  }

  /** A row of a page stands at one of the page's positions. */
  lemma {:induction false} OnPage(rows: seq<Row>, page: int, size: int, r: Row) returns (i: nat)
    requires page >= 1 && size >= 1 && r in PageCut(rows, page, size)
    ensures i < |rows| && rows[i] == r && (page - 1) * size <= i < page * size
  {
    hide PageCut;
    CutAt(rows, page, size);
    var cut := PageCut(rows, page, size);
    var k :| 0 <= k < |cut| && cut[k] == r;
    i := (page - 1) * size + k;
  }

  lemma {:induction false} PagesApart(p: int, q: int, size: int)
    requires 1 <= p < q && size >= 1
    ensures p * size <= (q - 1) * size
  {
    NotNegative(q - 1 - p, size);
    assert (q - 1) * size == p * size + (q - 1 - p) * size;
  }

  // ---------------------------------------------------------------------------
  // Which rows
  // ---------------------------------------------------------------------------

  /** Pages 1 to n, one after the other. */
  function Pages(lists: seq<seq<Row>>, logs: bool, n: nat, size: int): seq<Row> {
    if n == 0 then [] else Pages(lists, logs, n - 1, size) + FanOutPage(lists, logs, n, size).results
  }

  lemma {:induction false} PagesAre(lists: seq<seq<Row>>, logs: bool, n: nat, size: int)
    requires size >= 1
    ensures n * size >= 0
    ensures var rows := Merged(lists, Keeps(logs));
            Pages(lists, logs, n, size) == rows[..Least(n * size, |rows|)]
  {
    hide Merged, PageCut;
    if n == 0 {
    } else {
      PagesAre(lists, logs, n - 1, size);
      CutAt(Merged(lists, Keeps(logs)), n, size);
    }
  }

  /**
   Pages are disjoint and complete: walking enough of them shows every kept row that was read, as often
   as it was read, and no other.
  */
  lemma {:induction false} PagesShowAll(lists: seq<seq<Row>>, logs: bool, n: nat, size: int)
    requires size >= 1 && n * size >= FanOutPage(lists, logs, 1, size).count
    ensures multiset(Pages(lists, logs, n, size)) == multiset(Filter(Concat(lists), Keeps(logs)))
  {
    var rows := Merged(lists, Keeps(logs));
    PagesAre(lists, logs, n, size);
    assert rows[..|rows|] == rows;
    NewerIsPreorder();
    SortIsStableSort(Filter(Concat(lists), Keeps(logs)), Newer);
  }

  lemma {:induction false} InConcat(lists: seq<seq<Row>>, r: Row)
    ensures r in Concat(lists) <==> exists i :: 0 <= i < |lists| && r in lists[i]
  {
    if lists == [] {
    } else {
      InConcat(lists[1..], r);
      assert forall i :: 1 <= i < |lists| ==> lists[i] == lists[1..][i - 1];
      assert forall i :: 0 <= i < |lists| - 1 ==> lists[1..][i] == lists[i + 1];
    }
  }

  /** A row is on some page if and only if an answered call returned it and the listing keeps it. */
  lemma {:induction false} ShownIff(extensions: seq<string>, fetch: string -> Option<seq<Row>>, logs: bool, n: nat,
                                    size: int, r: Row)
    requires size >= 1 && n * size >= FanOutPage(Batches(extensions, fetch), logs, 1, size).count
    ensures r in Pages(Batches(extensions, fetch), logs, n, size) <==>
            && (exists i :: 0 <= i < |extensions| && fetch(extensions[i]).Some? && r in fetch(extensions[i]).value)
            && (logs ==> !Excluded(r))
  {
    var lists := Batches(extensions, fetch);
    PagesShowAll(lists, logs, n, size);
    assert r in Pages(lists, logs, n, size) <==> r in multiset(Pages(lists, logs, n, size));
    assert r in Filter(Concat(lists), Keeps(logs)) <==> r in multiset(Filter(Concat(lists), Keeps(logs)));
    InConcat(lists, r);
    hide Filter, Concat, Pages;
    assert forall i :: 0 <= i < |lists| ==> lists[i] == Batch(extensions[i], fetch);
  }

  // ---------------------------------------------------------------------------
  // Which rows the logs page leaves out
  // ---------------------------------------------------------------------------

  ghost predicate BlockedNumber(number: Option<string>) {
    number == Some("9142215776") || number == Some("9295679099")
  }

  /** A call from or to one of the two blocked numbers is left out, wherever it rang. */
  lemma {:induction false} BlockedLeftOut(r: Row)
    requires BlockedNumber(r.callerIdNumber) || BlockedNumber(r.destinationNumber)
    ensures Excluded(r)
  {
  }

  /** Any other call is left out if and only if its extension reads 100 to 199, blanks and leading zeros aside. */
  lemma {:induction false} ExtensionLeftOut(r: Row, left: string, core: string, right: string)
    requires !BlockedNumber(r.callerIdNumber) && !BlockedNumber(r.destinationNumber)
    requires r.extension == Some(left + core + right) && Text.Blank(left) && Text.Blank(right)
    requires core != "" ==> core[0] !in Text.BLANKS && core[|core| - 1] !in Text.BLANKS
    ensures Excluded(r) <==>
            && |core| >= 3 && core[|core| - 3] == '1'
            && (forall i :: 0 <= i < |core| ==> '0' <= core[i] <= '9')
            && (forall i :: 0 <= i < |core| - 3 ==> core[i] == '0')
  {
    Text.StripIs(left, core, right);
    if Text.AllDigits(core) {
      Text.HundredsIff(core);
    }
  }

  lemma {:induction false} NoExtensionKept(r: Row)
    requires !BlockedNumber(r.callerIdNumber) && !BlockedNumber(r.destinationNumber) && r.extension.None?
    ensures !Excluded(r)
  {
    Text.StripIs("", "", "");
  }

  // ---------------------------------------------------------------------------
  // The count and the flags
  // ---------------------------------------------------------------------------

  /** `next` says whether the following page shows anything, `previous` whether a page precedes. */
  lemma {:induction false} FlagsTell(lists: seq<seq<Row>>, logs: bool, page: int, size: int)
    requires page >= 1 && size >= 1
    ensures var resp := FanOutPage(lists, logs, page, size);
            && (resp.next <==> FanOutPage(lists, logs, page + 1, size).results != [])
            && (resp.previous <==> page != 1)
            && resp.count == |Filter(Concat(lists), Keeps(logs))|
  {
    var rows := Merged(lists, Keeps(logs));
    CutAt(rows, page + 1, size);
  }

  /** The type parameter lifts the lock when it spells log or logs in any case; only "logs" itself filters. */
  lemma {:induction false} UnlockedIff(req: Request)
    ensures var t := req.reqType;
            Unlocked(req) <==>
            && 3 <= |t| <= 4 && t[0] in {'l', 'L'} && t[1] in {'o', 'O'} && t[2] in {'g', 'G'}
            && (|t| == 4 ==> t[3] in {'s', 'S'})
    ensures IsLogs(req) <==> req.reqType == "logs"
  {
  }
}
