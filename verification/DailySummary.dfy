/**
 apps/common/cdr_views.py: `_recompute_answer_rate` and `_merge_daily_summary`.

 Per-extension daily summaries are regrouped by date, summed, and given rates recomputed from the
 sums. None stands for a TypeError or AttributeError raised by malformed upstream data.
*/
module DailySummary {
  import opened Wrappers
  import opened NumericTree
  import Ordering

  const TOTAL: seq<string> := ["total_calls"]
  const OUTGOING: seq<string> := ["outgoing", "answered"]
  const INCOMING: seq<string> := ["incoming", "answered"]

  // ---------------------------------------------------------------------------
  // Rates
  // ---------------------------------------------------------------------------

  function RoundHalfEven(x: real): int {
    var below := x.Floor;
    var part := x - below as real;
    if part < 0.5 || (part == 0.5 && below % 2 == 0) then below else below + 1
  }

  /** `round(x, 1)` */
  function Round1(x: real): real {
    RoundHalfEven(x * 10.0) as real / 10.0
  }

  /** Rounding to one decimal moves a percentage by at most 0.05 and never out of 0..100. */
  lemma {:induction false} RoundingBounds(x: real)
    ensures -0.05 <= Round1(x) - x <= 0.05
    ensures 0.0 <= x <= 100.0 ==> 0.0 <= Round1(x) <= 100.0
  {
  }

  /** `round((answered / total) * 100, 1) if total else 0.0` */
  function Rate(answered: real, total: real): real {
    if total != 0.0 then Round1(answered / total * 100.0) else 0.0
  }

  lemma {:induction false} QuotientBounds(a: real, t: real)
    requires 0.0 <= a <= t && t > 0.0
    ensures 0.0 <= a / t <= 1.0
  {
  }

  lemma {:induction false} RateBounds(answered: real, total: real)
    requires 0.0 <= answered <= total
    ensures 0.0 <= Rate(answered, total) <= 100.0
    ensures total > 0.0 ==> -0.05 <= Rate(answered, total) - answered / total * 100.0 <= 0.05
  {
    if total > 0.0 {
      QuotientBounds(answered, total);
      RoundingBounds(answered / total * 100.0);
    }
  }

  /** A rate leaves 0..100 exactly when the share does by more than rounding can hide. */
  lemma {:induction false} RateInRangeIff(answered: real, total: real)
    ensures 0.0 <= Rate(answered, total) <= 100.0 <==>
            total == 0.0 || -0.05 <= answered / total * 100.0 <= 100.05
  {
  }

  /**
   The rate shown for `answered` of `total`: 0 without calls, else the tenth of a percent nearest to the
   share, and the even one of two that are equally near.
  */
  ghost predicate ShownRate(r: real, answered: real, total: real) {
    if total == 0.0 then r == 0.0
    else exists n: int :: InTenths(n, answered, total) && r == n as real / 10.0
  }

  /** n is the whole number nearest to x, the even one of two that are equally near. */
  ghost predicate NearestTo(n: int, x: real) {
    && -0.5 <= x - n as real <= 0.5
    && (x - n as real in {-0.5, 0.5} ==> n % 2 == 0)
  }

  /** n tenths of a percent are nearest to the share. */
  ghost predicate InTenths(n: int, answered: real, total: real)
    requires total != 0.0
  {
    NearestTo(n, answered / total * 1000.0)
  }

  lemma {:induction false} RateShown(answered: real, total: real)
    ensures ShownRate(Rate(answered, total), answered, total)
  {
    if total != 0.0 {
      var share := answered / total;
      var n := RoundHalfEven(share * 100.0 * 10.0);
      assert share * 100.0 * 10.0 == share * 1000.0;
      NearestEven(share * 1000.0);
      assert InTenths(n, answered, total);
      assert Rate(answered, total) == n as real / 10.0;
    }
  }

  lemma {:induction false} NearestEven(x: real)
    ensures NearestTo(RoundHalfEven(x), x)
  {
  }

  /** `o.get(key, 0) or 0` */
  function Operand(o: Object, key: string): Option<real> {
    if key in o then Addend(o[key]) else Some(0.0)
  }

  /** `o.get(key, {}).get("answered", 0) or 0` */
  function AnsweredIn(o: Object, key: string): Option<real> {
    if key !in o then Some(0.0)
    else if o[key].Obj? then Operand(o[key].fields, "answered")
    else None
  }

  function Answered(o: Object): Option<real> {
    var outgoing, incoming := AnsweredIn(o, "outgoing"), AnsweredIn(o, "incoming");
    if outgoing.Some? && incoming.Some? then Some(outgoing.value + incoming.value) else None
  }

  lemma {:induction false} OperandsAreAmounts(o: Object)
    ensures Operand(o, "total_calls").Some? ==> Operand(o, "total_calls").value == Amount(o, TOTAL)
    ensures Answered(o).Some? ==> Answered(o).value == Amount(o, OUTGOING) + Amount(o, INCOMING)
  {
  }

  /** `_recompute_answer_rate` */
  function WithRate(o: Object): Option<Object> {
    var total, answered := Operand(o, "total_calls"), Answered(o);
    if total.Some? && answered.Some? then Some(o["answer_rate" := Num(Rate(answered.value, total.value))]) else None
  }

  // ---------------------------------------------------------------------------
  // Rows and dates
  // ---------------------------------------------------------------------------

  /** `payload.get("results", [])`, iterated with `row.get` on every item. */
  function Items(items: seq<Json>): Option<seq<Object>> {
    if items == [] then Some([])
    else
      var rest := Items(items[1..]);
      if items[0].Obj? && rest.Some? then Some([items[0].fields] + rest.value) else None
  }

  function Rows(payload: Object): Option<seq<Object>> {
    if "results" !in payload then Some([])
    else
      match payload["results"]
      case Arr(items) => Items(items)
      case Obj(fields) => if fields == map[] then Some([]) else None
      case Str(s) => if s == "" then Some([]) else None
      case _ => None
  }

  /** `row.get("date")` as a dict key: None when unhashable; True and 1 are the same key. */
  function DateKey(row: Object): Option<Json> {
    var date := if "date" in row then row["date"] else Null;
    match date
    case Obj(_) => None
    case Arr(_) => None
    case Bool(b) => Some(Num(if b then 1.0 else 0.0))
    case _ => Some(date)
  }

  predicate Dated(rows: seq<Object>) {
    forall i :: 0 <= i < |rows| ==> DateKey(rows[i]).Some?
  }

  function DateOf(row: Object): Json
    requires DateKey(row).Some?
  {
    DateKey(row).value
  }

  /** All rows of all payloads in reading order. */
  function AllRows(payloads: seq<Object>): (r: Option<seq<Object>>)
    ensures r.Some? ==> Dated(r.value)
  {
    if payloads == [] then Some([])
    else
      var n := |payloads| - 1;
      var earlier, rows := AllRows(payloads[..n]), Rows(payloads[n]);
      if earlier.Some? && rows.Some? && Dated(rows.value) then Some(earlier.value + rows.value) else None
  }

  /** The dates of the rows, each once, in first-seen order. */
  function Dates(rows: seq<Object>): seq<Json>
    requires Dated(rows)
  {
    if rows == [] then []
    else
      var n := |rows| - 1;
      var earlier, date := Dates(rows[..n]), DateOf(rows[n]);
      if date in earlier then earlier else earlier + [date]
  }

  function RowsOf(rows: seq<Object>, date: Json): seq<Object>
    requires Dated(rows)
  {
    if rows == [] then []
    else
      var n := |rows| - 1;
      RowsOf(rows[..n], date) + (if DateOf(rows[n]) == date then [rows[n]] else [])
  }

  lemma {:induction false} DatesDistinct(rows: seq<Object>)
    requires Dated(rows)
    ensures forall i, j :: 0 <= i < j < |Dates(rows)| ==> Dates(rows)[i] != Dates(rows)[j]
  {
    if rows == [] {
    } else {
      DatesDistinct(rows[..|rows| - 1]);
    }
  }

  /** The rows filed under a date are exactly the rows of that date. */
  lemma {:induction false} RowsOfMembers(rows: seq<Object>, date: Json)
    requires Dated(rows)
    ensures forall row :: row in RowsOf(rows, date) <==> row in rows && DateKey(row) == Some(date)
  {
    if rows == [] {
    } else {
      var n := |rows| - 1;
      RowsOfMembers(rows[..n], date);
      assert rows == rows[..n] + [rows[n]];
    }
  }

  /** The dates listed are exactly the dates that have rows. */
  lemma {:induction false} DatesCover(rows: seq<Object>, date: Json)
    requires Dated(rows)
    ensures date in Dates(rows) <==> RowsOf(rows, date) != []
  {
    if rows == [] {
    } else {
      DatesCover(rows[..|rows| - 1], date);
    }
  }

  lemma {:induction false} DatesPrefix(rows: seq<Object>, n: nat)
    requires Dated(rows) && n <= |rows|
    ensures Dates(rows[..n]) <= Dates(rows)
  {
    if n == |rows| {
      assert rows[..n] == rows;
    } else {
      var m := |rows| - 1;
      assert rows[..m][..n] == rows[..n];
      DatesPrefix(rows[..m], n);
    }
  }

  /** When a row arrives, every date listed before its own has already been seen. */
  lemma {:induction false} FirstSeenOrder(rows: seq<Object>, j: nat, k: nat, b: nat)
    requires Dated(rows) && j < k < |Dates(rows)| && b < |rows| && DateOf(rows[b]) == Dates(rows)[k]
    ensures RowsOf(rows[..b], Dates(rows)[j]) != []
  {
    var date := DateOf(rows[b]);
    DatesPrefix(rows, b);
    DatesPrefix(rows, b + 1);
    assert rows[..b + 1][..b] == rows[..b];
    DatesDistinct(rows);
    var seen := Dates(rows[..b]);
    var i :| 0 <= i < |Dates(rows[..b + 1])| && Dates(rows[..b + 1])[i] == date;
    assert i == k && k <= |seen|;
    assert seen[j] == Dates(rows)[j];
    DatesCover(rows[..b], seen[j]);
  }

  ghost predicate Grouped(byDate: map<Json, seq<Object>>, order: seq<Json>, rows: seq<Object>)
    requires Dated(rows)
  {
    && order == Dates(rows)
    && (forall d :: d in byDate <==> d in order)
    && (forall d :: d in byDate ==> byDate[d] == RowsOf(rows, d))
  }

  /** The inner loop: file the rows of one payload under their dates. */
  method FileRows(byDate: map<Json, seq<Object>>, order: seq<Json>, ghost earlier: seq<Object>, rows: seq<Object>)
    returns (byDate': map<Json, seq<Object>>, order': seq<Json>)
    requires Dated(earlier) && Dated(rows) && Grouped(byDate, order, earlier)
    ensures Dated(earlier + rows) && Grouped(byDate', order', earlier + rows)
  {
    hide Dates, RowsOf;
    byDate', order' := byDate, order;
    ghost var seen := earlier;
    assert rows[..0] == [];
    for i := 0 to |rows|
      invariant seen == earlier + rows[..i] && Dated(seen) && Grouped(byDate', order', seen)
    {
      var row := rows[i];
      var date := DateOf(row);
      GroupedNext(byDate', order', seen, row);
      if date !in byDate' {
        order' := order' + [date];
        byDate' := byDate'[date := []];
      }
      byDate' := byDate'[date := byDate'[date] + [row]];
      seen := seen + [row];
      assert rows[..i + 1] == rows[..i] + [row];
    }
    assert rows[..|rows|] == rows;
  }

  lemma {:induction false} GroupedNext(byDate: map<Json, seq<Object>>, order: seq<Json>, seen: seq<Object>, row: Object)
    requires Dated(seen) && DateKey(row).Some? && Grouped(byDate, order, seen)
    ensures Dated(seen + [row])
    ensures Dates(seen + [row]) == if DateOf(row) in order then order else order + [DateOf(row)]
    ensures forall d :: RowsOf(seen + [row], d) == RowsOf(seen, d) + (if d == DateOf(row) then [row] else [])
    ensures DateOf(row) !in byDate ==> RowsOf(seen, DateOf(row)) == []
  {
    assert (seen + [row])[..|seen|] == seen;
    DatesCover(seen, DateOf(row));
  }

  method GroupByDate(payloads: seq<Object>) returns (ok: bool, byDate: map<Json, seq<Object>>, order: seq<Json>)
    ensures ok <==> AllRows(payloads).Some?
    ensures ok ==> Grouped(byDate, order, AllRows(payloads).value)
  {
    byDate, order := map[], [];
    for i := 0 to |payloads|
      invariant AllRows(payloads[..i]).Some? && Grouped(byDate, order, AllRows(payloads[..i]).value)
    {
      assert payloads[..i + 1][..i] == payloads[..i];
      var rows := Rows(payloads[i]);
      if rows.None? || !Dated(rows.value) {
        RowsFail(payloads, i + 1);
        return false, map[], [];
      }
      byDate, order := FileRows(byDate, order, AllRows(payloads[..i]).value, rows.value);
    }
    assert payloads[..|payloads|] == payloads;
    ok := true;
  }

  lemma {:induction false} RowsFail(payloads: seq<Object>, n: nat)
    requires n <= |payloads| && AllRows(payloads[..n]).None?
    ensures AllRows(payloads).None?
  {
    var m := |payloads| - 1;
    if n == |payloads| {
      assert payloads[..n] == payloads;
    } else {
      assert payloads[..m][..n] == payloads[..n];
      RowsFail(payloads[..m], n);
    }
  }

  // ---------------------------------------------------------------------------
  // The merged summary
  // ---------------------------------------------------------------------------

  /** One day: the sum of its rows, with the rate of the sums. */
  function MergeGroup(rows: seq<Object>): Option<Object> {
    var merged := SumTree(rows);
    if merged.Some? then WithRate(merged.value) else None
  }

  function Days(rows: seq<Object>, dates: seq<Json>): (r: Option<seq<Object>>)
    requires Dated(rows)
    ensures r.Some? ==> |r.value| == |dates|
    ensures r.Some? ==> forall k :: 0 <= k < |dates| ==> MergeGroup(RowsOf(rows, dates[k])) == Some(r.value[k])
  {
    if dates == [] then Some([])
    else
      var n := |dates| - 1;
      var earlier, day := Days(rows, dates[..n]), MergeGroup(RowsOf(rows, dates[n]));
      if earlier.Some? && day.Some? then Some(earlier.value + [day.value]) else None
  }

  /** `sum(r.get(key, {}).get("answered", 0) or 0 for r in merged_results)` */
  function AnsweredOver(days: seq<Object>, key: string): Option<real> {
    if days == [] then Some(0.0)
    else
      var first, rest := AnsweredIn(days[0], key), AnsweredOver(days[1..], key);
      if first.Some? && rest.Some? then Some(first.value + rest.value) else None
  }

  function Objects(days: seq<Object>): (r: seq<Json>)
    ensures |r| == |days|
    ensures forall k :: 0 <= k < |days| ==> r[k] == Obj(days[k])
  {
    seq(|days|, k requires 0 <= k < |days| => Obj(days[k]))
  }

  /** The two assignments that follow the deep merge of the payloads themselves. */
  function Headed(merged: Object, days: seq<Object>): Option<Object> {
    var total := Operand(merged["results" := Arr(Objects(days))], "total_calls");
    var outgoing, incoming := AnsweredOver(days, "outgoing"), AnsweredOver(days, "incoming");
    if total.Some? && outgoing.Some? && incoming.Some? then
      Some(merged["results" := Arr(Objects(days))]
                 ["answer_rate" := Num(Rate(outgoing.value + incoming.value, total.value))])
    else None
  }

  function Summary(payloads: seq<Object>): Option<Object> {
    if payloads == [] then Some(map[])
    else if |payloads| == 1 then Some(payloads[0])
    else
      var rows := AllRows(payloads);
      if rows.None? then None
      else
        var days, merged := Days(rows.value, Dates(rows.value)), SumTree(payloads);
        if days.Some? && merged.Some? then Headed(merged.value, days.value) else None
  }

  method MergeDays(byDate: map<Json, seq<Object>>, order: seq<Json>, ghost rows: seq<Object>)
    returns (days: Option<seq<Object>>)
    requires Dated(rows) && Grouped(byDate, order, rows)
    ensures days == Days(rows, order)
  {
    hide MergeGroup, RowsOf, Dates;
    var merged := [];
    for k := 0 to |order|
      invariant Days(rows, order[..k]) == Some(merged)
    {
      assert order[..k + 1][..k] == order[..k];
      assert order[k] in order;
      var day := MergeGroup(byDate[order[k]]);
      if day.None? {
        DaysFail(rows, order, k + 1);
        return None;
      }
      merged := merged + [day.value];
    }
    assert order[..|order|] == order;
    days := Some(merged);
  }

  lemma {:induction false} DaysFail(rows: seq<Object>, dates: seq<Json>, n: nat)
    requires Dated(rows) && n <= |dates| && Days(rows, dates[..n]).None?
    ensures Days(rows, dates).None?
  {
    hide MergeGroup, RowsOf;
    if n == |dates| {
      assert dates[..n] == dates;
    } else {
      var m := |dates| - 1;
      assert dates[..m][..n] == dates[..n];
      DaysFail(rows, dates[..m], n);
    }
  }

  /** `_merge_daily_summary` */
  method MergeDailySummary(payloads: seq<Object>) returns (summary: Option<Object>)
    ensures summary == Summary(payloads)
  {
    if payloads == [] {
      return Some(map[]);
    }
    if |payloads| == 1 {
      return Some(payloads[0]);
    }
    var ok, byDate, order := GroupByDate(payloads);
    if !ok {
      return None;
    }
    var days := MergeDays(byDate, order, AllRows(payloads).value);
    var merged := SumTree(payloads);
    summary := if days.Some? && merged.Some? then Headed(merged.value, days.value) else None;
  }

  // ---------------------------------------------------------------------------
  // Days
  // ---------------------------------------------------------------------------

  lemma {:induction false} OtherKeysKept(o: Object, key: string, value: Json, path: seq<string>)
    requires path != [] && path[0] != key
    ensures At(o[key := value], path) == At(o, path)
  {
  }

  /** Every count of a day is the sum of the counts of its rows. */
  lemma {:induction false} DayCounts(rows: seq<Object>, path: seq<string>)
    requires rows != [] && MergeGroup(rows).Some?
    requires NumberAt(rows[0], path) && path[0] != "answer_rate"
    ensures At(MergeGroup(rows).value, path) == Some(Num(Total(rows, path)))
    ensures Amount(MergeGroup(rows).value, path) == Total(rows, path)
  {
    LeavesOfSum(rows, path);
    var merged := SumTree(rows).value;
    OtherKeysKept(merged, "answer_rate", MergeGroup(rows).value["answer_rate"], path);
  }

  /** The first row of a day, which gives the merged row its shape, has all three counts. */
  ghost predicate LeadCounted(group: seq<Object>) {
    group != [] && NumberAt(group[0], TOTAL) && NumberAt(group[0], OUTGOING) && NumberAt(group[0], INCOMING)
  }

  /** The first row of every date has a number at the path; the other rows may miss it. */
  ghost predicate Counted(rows: seq<Object>, path: seq<string>)
    requires Dated(rows)
  {
    forall date :: RowsOf(rows, date) != [] ==> NumberAt(RowsOf(rows, date)[0], path)
  }

  ghost predicate AllCounted(rows: seq<Object>)
    requires Dated(rows)
  {
    Counted(rows, TOTAL) && Counted(rows, OUTGOING) && Counted(rows, INCOMING)
  }

  lemma {:induction false} SummedAmount(trees: seq<Object>, path: seq<string>)
    requires trees != [] && SumTree(trees).Some? && NumberAt(trees[0], path)
    ensures Amount(SumTree(trees).value, path) == Total(trees, path)
  {
    LeavesOfSum(trees, path);
  }

  /** A day's rate is the rate of the summed counts. */
  lemma {:induction false} DayRate(rows: seq<Object>)
    requires LeadCounted(rows) && MergeGroup(rows).Some?
    ensures At(MergeGroup(rows).value, ["answer_rate"]) ==
            Some(Num(Rate(Total(rows, OUTGOING) + Total(rows, INCOMING), Total(rows, TOTAL))))
  {
    hide Total, Amount, SumTree, NumberAt, Rate, Operand, Answered;
    SummedAmount(rows, TOTAL);
    SummedAmount(rows, OUTGOING);
    SummedAmount(rows, INCOMING);
    OperandsAreAmounts(SumTree(rows).value);
  }

  /** A textual date survives the merge: day k is the day of the k-th date. */
  lemma {:induction false} DayDate(rows: seq<Object>, k: nat)
    requires Dated(rows) && Days(rows, Dates(rows)).Some? && k < |Dates(rows)| && Dates(rows)[k].Str?
    ensures At(Days(rows, Dates(rows)).value[k], ["date"]) == Some(Dates(rows)[k])
  {
    var date := Dates(rows)[k];
    var group := RowsOf(rows, date);
    assert MergeGroup(group) == Some(Days(rows, Dates(rows)).value[k]);
    DatesCover(rows, date);
    RowsOfMembers(rows, date);
    assert group[0] in group && At(group[0], ["date"]) == Some(date);
    LeavesOfSum(group, ["date"]);
    OtherKeysKept(SumTree(group).value, "answer_rate", MergeGroup(group).value["answer_rate"], ["date"]);
  }

  // ---------------------------------------------------------------------------
  // Conservation
  // ---------------------------------------------------------------------------

  function OverDates(rows: seq<Object>, dates: seq<Json>, path: seq<string>): real
    requires Dated(rows)
  {
    if dates == [] then 0.0 else Total(RowsOf(rows, dates[0]), path) + OverDates(rows, dates[1..], path)
  }

  ghost predicate Distinct(dates: seq<Json>) {
    forall i, j :: 0 <= i < j < |dates| ==> dates[i] != dates[j]
  }

  lemma {:induction false} OverDatesAppend(rows: seq<Object>, dates: seq<Json>, date: Json, path: seq<string>)
    requires Dated(rows)
    ensures OverDates(rows, dates + [date], path) == OverDates(rows, dates, path) + Total(RowsOf(rows, date), path)
  {
    if dates == [] {
      assert [] + [date] == [date];
      assert OverDates(rows, [date][1..], path) == 0.0;
    } else {
      assert (dates + [date])[1..] == dates[1..] + [date];
      OverDatesAppend(rows, dates[1..], date, path);
    }
  }

  lemma {:induction false} TotalAppend(rows: seq<Object>, row: Object, path: seq<string>)
    ensures Total(rows + [row], path) == Total(rows, path) + Amount(row, path)
  {
    TotalConcat(rows, [row], path);
    assert [row][1..] == [];
    assert Total([row], path) == Amount(row, path) + Total([], path);
  }

  lemma {:induction false} TotalLast(rows: seq<Object>, path: seq<string>)
    requires rows != []
    ensures Total(rows, path) == Total(rows[..|rows| - 1], path) + Amount(rows[|rows| - 1], path)
  {
    TotalAppend(rows[..|rows| - 1], rows[|rows| - 1], path);
    Ordering.LastApart(rows);
  }

  lemma {:induction false} OneMoreInGroup(rows: seq<Object>, date: Json, path: seq<string>)
    requires Dated(rows) && rows != []
    ensures Total(RowsOf(rows, date), path) ==
            Total(RowsOf(rows[..|rows| - 1], date), path)
            + (if DateOf(rows[|rows| - 1]) == date then Amount(rows[|rows| - 1], path) else 0.0)
  {
    var n := |rows| - 1;
    if DateOf(rows[n]) == date {
      TotalAppend(RowsOf(rows[..n], date), rows[n], path);
    } else {
      assert RowsOf(rows, date) == RowsOf(rows[..n], date);
    }
  }

  lemma {:induction false} DistinctTail(dates: seq<Json>, date: Json)
    requires dates != [] && Distinct(dates)
    ensures Distinct(dates[1..])
    ensures date in dates <==> date == dates[0] || date in dates[1..]
    ensures date == dates[0] ==> date !in dates[1..]
  {
  }

  /** One more row adds its amount to its own date and to no other. */
  lemma {:induction false} OneMoreRow(rows: seq<Object>, dates: seq<Json>, path: seq<string>)
    requires Dated(rows) && rows != [] && Distinct(dates)
    ensures OverDates(rows, dates, path) ==
            OverDates(rows[..|rows| - 1], dates, path)
            + (if DateOf(rows[|rows| - 1]) in dates then Amount(rows[|rows| - 1], path) else 0.0)
  {
    if dates == [] {
    } else {
      var head, rest := dates[0], dates[1..];
      DistinctTail(dates, DateOf(rows[|rows| - 1]));
      OneMoreRow(rows, rest, path);
      OneMoreInGroup(rows, head, path);
    }
  }

  lemma {:induction false} LastDateListed(rows: seq<Object>)
    requires Dated(rows) && rows != []
    ensures DateOf(rows[|rows| - 1]) in Dates(rows)
  {
  }

  lemma {:induction false} LastRowCounted(rows: seq<Object>, path: seq<string>)
    requires Dated(rows) && rows != []
    ensures var before := rows[..|rows| - 1];
            OverDates(rows, Dates(rows), path) ==
            OverDates(before, Dates(before), path) + Amount(rows[|rows| - 1], path)
  {
    LastDateListed(rows);
    DatesDistinct(rows);
    hide RowsOf, Dates, OverDates, Amount;
    OneMoreRow(rows, Dates(rows), path);
    NewDateIsEmpty(rows, path);
  }

  /** Filing rows under their dates loses and repeats nothing. */
  lemma {:induction false} DatesPartition(rows: seq<Object>, path: seq<string>)
    requires Dated(rows)
    ensures OverDates(rows, Dates(rows), path) == Total(rows, path)
  {
    if rows == [] {
      assert OverDates(rows, [], path) == 0.0;
    } else {
      var n := |rows| - 1;
      DatesPartition(rows[..n], path);
      LastRowCounted(rows, path);
      TotalLast(rows, path);
    }
  }

  lemma {:induction false} NewDateIsEmpty(rows: seq<Object>, path: seq<string>)
    requires Dated(rows) && rows != []
    ensures var before := rows[..|rows| - 1];
            OverDates(before, Dates(rows), path) == OverDates(before, Dates(before), path)
  {
    var before := rows[..|rows| - 1];
    var date := DateOf(rows[|rows| - 1]);
    if date !in Dates(before) {
      OverDatesAppend(before, Dates(before), date, path);
      DatesCover(before, date);
      assert Total([], path) == 0.0;
    }
  }

  lemma {:induction false} DaysTotal(rows: seq<Object>, days: seq<Object>, dates: seq<Json>, path: seq<string>)
    requires Dated(rows) && |days| == |dates|
    requires forall k :: 0 <= k < |dates| ==> Amount(days[k], path) == Total(RowsOf(rows, dates[k]), path)
    ensures Total(days, path) == OverDates(rows, dates, path)
  {
    if days == [] {
    } else {
      DaysTotal(rows, days[1..], dates[1..], path);
    }
  }

  lemma {:induction false} GroupCounted(rows: seq<Object>, date: Json, path: seq<string>)
    requires Dated(rows) && date in Dates(rows) && Counted(rows, path)
    ensures RowsOf(rows, date) != [] && NumberAt(RowsOf(rows, date)[0], path)
  {
    hide RowsOf, Dates;
    DatesCover(rows, date);
  }

  /** The totals of the merged days are the totals of all the rows read. */
  lemma {:induction false} DaysConserve(rows: seq<Object>, path: seq<string>)
    requires Dated(rows) && Days(rows, Dates(rows)).Some?
    requires Counted(rows, path) && path != [] && path[0] != "answer_rate"
    ensures Total(Days(rows, Dates(rows)).value, path) == Total(rows, path)
  {
    var dates := Dates(rows);
    var days := Days(rows, dates).value;
    forall k | 0 <= k < |dates|
      ensures Amount(days[k], path) == Total(RowsOf(rows, dates[k]), path)
    {
      GroupCounted(rows, dates[k], path);
      DayCounts(RowsOf(rows, dates[k]), path);
    }
    DaysTotal(rows, days, dates, path);
    DatesPartition(rows, path);
  }

  /**
   What merging a day loses at a path: when the first row has no number there, the amounts of the
   others.
  */
  function Lost(group: seq<Object>, path: seq<string>): real {
    if group == [] || NumberAt(group[0], path) then 0.0 else Total(group[1..], path)
  }

  function LostOver(rows: seq<Object>, dates: seq<Json>, path: seq<string>): real
    requires Dated(rows)
  {
    if dates == [] then 0.0 else Lost(RowsOf(rows, dates[0]), path) + LostOver(rows, dates[1..], path)
  }

  lemma {:induction false} DayAmount(group: seq<Object>, path: seq<string>)
    requires group != [] && MergeGroup(group).Some? && path != [] && path[0] != "answer_rate"
    ensures Amount(MergeGroup(group).value, path) == Total(group, path) - Lost(group, path)
  {
    if NumberAt(group[0], path) {
      DayCounts(group, path);
    } else {
      LeavesOfSum(group, path);
      OtherKeysKept(SumTree(group).value, "answer_rate", MergeGroup(group).value["answer_rate"], path);
    }
  }

  lemma {:induction false} LostTotal(rows: seq<Object>, days: seq<Object>, dates: seq<Json>, path: seq<string>)
    requires Dated(rows) && |days| == |dates|
    requires forall k :: 0 <= k < |dates| ==>
               Amount(days[k], path) == Total(RowsOf(rows, dates[k]), path) - Lost(RowsOf(rows, dates[k]), path)
    ensures Total(days, path) == OverDates(rows, dates, path) - LostOver(rows, dates, path)
  {
    hide Amount, Lost, RowsOf;
    if days == [] {
    } else {
      LostTotal(rows, days[1..], dates[1..], path);
    }
  }

  /** The merged days hold the totals of the rows less what the merge loses. */
  lemma {:induction false} DaysBalance(rows: seq<Object>, path: seq<string>)
    requires Dated(rows) && Days(rows, Dates(rows)).Some? && path != [] && path[0] != "answer_rate"
    ensures Total(Days(rows, Dates(rows)).value, path) == Total(rows, path) - LostOver(rows, Dates(rows), path)
  {
    hide MergeGroup, RowsOf, Dates, Amount, Lost, Total, OverDates, LostOver;
    var dates := Dates(rows);
    var days := Days(rows, dates).value;
    forall k | 0 <= k < |dates|
      ensures Amount(days[k], path) == Total(RowsOf(rows, dates[k]), path) - Lost(RowsOf(rows, dates[k]), path)
    {
      DatesCover(rows, dates[k]);
      DayAmount(RowsOf(rows, dates[k]), path);
    }
    LostTotal(rows, days, dates, path);
    DatesPartition(rows, path);
  }

  // ---------------------------------------------------------------------------
  // The whole summary
  // ---------------------------------------------------------------------------

  ghost predicate Merges(payloads: seq<Object>) {
    |payloads| > 1 && Summary(payloads).Some?
  }

  function ReadRows(payloads: seq<Object>): (rows: seq<Object>)
    requires AllRows(payloads).Some?
    ensures Dated(rows)
  {
    AllRows(payloads).value
  }

  /** The rows of the merged summary. */
  function MergedDays(payloads: seq<Object>): (days: seq<Object>)
    requires Merges(payloads)
    ensures |days| == |Dates(ReadRows(payloads))|
  {
    Days(ReadRows(payloads), Dates(ReadRows(payloads))).value
  }

  lemma {:induction false} Parts(payloads: seq<Object>)
    requires Merges(payloads)
    ensures |payloads| > 1 && AllRows(payloads).Some? && Dated(ReadRows(payloads)) && SumTree(payloads).Some?
    ensures |MergedDays(payloads)| == |Dates(ReadRows(payloads))|
    ensures Days(ReadRows(payloads), Dates(ReadRows(payloads))) == Some(MergedDays(payloads))
    ensures Summary(payloads) == Headed(SumTree(payloads).value, MergedDays(payloads))
    ensures Summary(payloads).Some?
  {
  }

  /** One row per date, in first-seen order, conserving every count of the rows read. */
  lemma {:induction false} SummaryConserves(payloads: seq<Object>, path: seq<string>)
    requires Merges(payloads)
    requires Counted(ReadRows(payloads), path) && path != [] && path[0] != "answer_rate"
    ensures "results" in Summary(payloads).value
    ensures Summary(payloads).value["results"] == Arr(Objects(MergedDays(payloads)))
    ensures Total(MergedDays(payloads), path) == Total(ReadRows(payloads), path)
    ensures forall k :: 0 <= k < |MergedDays(payloads)| ==>
              At(MergedDays(payloads)[k], path) ==
              Some(Num(Total(RowsOf(ReadRows(payloads), Dates(ReadRows(payloads))[k]), path)))
  {
    var rows := ReadRows(payloads);
    var dates := Dates(rows);
    DaysConserve(rows, path);
    forall k | 0 <= k < |MergedDays(payloads)|
      ensures At(MergedDays(payloads)[k], path) == Some(Num(Total(RowsOf(rows, dates[k]), path)))
    {
      GroupCounted(rows, dates[k], path);
      DayCounts(RowsOf(rows, dates[k]), path);
    }
  }

  /**
   Without any condition on the rows: the totals of the merged rows miss exactly what `Lost` says, so
   they are the totals of the rows read if and only if that is nothing.
  */
  lemma {:induction false} SummaryConservesIff(payloads: seq<Object>, path: seq<string>)
    requires Merges(payloads) && path != [] && path[0] != "answer_rate"
    ensures var rows := ReadRows(payloads);
            && Total(MergedDays(payloads), path) == Total(rows, path) - LostOver(rows, Dates(rows), path)
            && (Total(MergedDays(payloads), path) == Total(rows, path) <==> LostOver(rows, Dates(rows), path) == 0.0)
  {
    hide *;
    Parts(payloads);
    DaysBalance(ReadRows(payloads), path);
  }

  /** Every number at the head of the summary is the sum over the payloads. */
  lemma {:induction false} HeadTotals(payloads: seq<Object>, path: seq<string>)
    requires Merges(payloads) && NumberAt(payloads[0], path)
    requires path[0] != "results" && path[0] != "answer_rate"
    ensures At(Summary(payloads).value, path) == Some(Num(Total(payloads, path)))
  {
    LeavesOfSum(payloads, path);
    var merged := SumTree(payloads).value;
    var listed := merged["results" := Arr(Objects(MergedDays(payloads)))];
    OtherKeysKept(merged, "results", Arr(Objects(MergedDays(payloads))), path);
    OtherKeysKept(listed, "answer_rate", Summary(payloads).value["answer_rate"], path);
  }

  /** The upstream's own promise: the number at the head of a payload is the sum of its rows. */
  ghost predicate Consistent(payload: Object, path: seq<string>) {
    Rows(payload).Some? && NumberAt(payload, path) && Amount(payload, path) == Total(Rows(payload).value, path)
  }

  ghost predicate AllConsistent(payloads: seq<Object>, path: seq<string>) {
    forall i :: 0 <= i < |payloads| ==> Consistent(payloads[i], path)
  }

  lemma {:induction false} ConsistentTotals(payloads: seq<Object>, path: seq<string>)
    requires AllRows(payloads).Some?
    requires AllConsistent(payloads, path)
    ensures Total(payloads, path) == Total(ReadRows(payloads), path)
  {
    if payloads == [] {
    } else {
      var n := |payloads| - 1;
      ConsistentTotals(payloads[..n], path);
      assert payloads == payloads[..n] + [payloads[n]];
      TotalAppend(payloads[..n], payloads[n], path);
      assert Consistent(payloads[n], path);
      TotalConcat(ReadRows(payloads[..n]), Rows(payloads[n]).value, path);
    }
  }

  /** Consistent payloads merge into a consistent summary. */
  lemma {:induction false} SummaryConsistent(payloads: seq<Object>, path: seq<string>)
    requires Merges(payloads)
    requires path != [] && path[0] != "results" && path[0] != "answer_rate"
    requires Counted(ReadRows(payloads), path)
    requires AllConsistent(payloads, path)
    ensures At(Summary(payloads).value, path) == Some(Num(Total(MergedDays(payloads), path)))
  {
    assert Consistent(payloads[0], path);
    HeadTotals(payloads, path);
    ConsistentTotals(payloads, path);
    DaysConserve(ReadRows(payloads), path);
  }

  lemma {:induction false} AnsweredAmount(o: Object, key: string)
    requires AnsweredIn(o, key).Some?
    ensures AnsweredIn(o, key).value == Amount(o, [key, "answered"])
  {
    var path := [key, "answered"];
    assert path[0] == key && path[1..] == ["answered"];
    if key in o {
      assert At(o, path) == At(o[key].fields, ["answered"]);
    }
  }

  lemma {:induction false} AnsweredTotal(days: seq<Object>, key: string)
    requires AnsweredOver(days, key).Some?
    ensures AnsweredOver(days, key).value == Total(days, [key, "answered"])
  {
    if days == [] {
    } else {
      AnsweredTotal(days[1..], key);
      AnsweredAmount(days[0], key);
    }
  }

  lemma {:induction false} HeadedRate(merged: Object, days: seq<Object>)
    requires Headed(merged, days).Some?
    ensures At(Headed(merged, days).value, ["answer_rate"]) ==
            Some(Num(Rate(Total(days, OUTGOING) + Total(days, INCOMING), Amount(merged, TOTAL))))
  {
    AnsweredTotal(days, "outgoing");
    AnsweredTotal(days, "incoming");
    var listed := merged["results" := Arr(Objects(days))];
    assert Operand(listed, "total_calls") == Operand(merged, "total_calls");
    OperandsAreAmounts(merged);
  }

  lemma {:induction false} AnsweredConserve(rows: seq<Object>, days: seq<Object>)
    requires Dated(rows) && AllCounted(rows) && Days(rows, Dates(rows)) == Some(days)
    ensures Total(days, OUTGOING) == Total(rows, OUTGOING) && Total(days, INCOMING) == Total(rows, INCOMING)
  {
    DaysConserve(rows, OUTGOING);
    DaysConserve(rows, INCOMING);
  }

  /** The overall rate compares all answered calls with the total at the head. */
  lemma {:induction false} OverallRate(payloads: seq<Object>)
    requires Merges(payloads) && AllCounted(ReadRows(payloads)) && NumberAt(payloads[0], TOTAL)
    ensures At(Summary(payloads).value, ["answer_rate"]) ==
            Some(Num(Rate(Total(ReadRows(payloads), OUTGOING) + Total(ReadRows(payloads), INCOMING),
                          Total(payloads, TOTAL))))
  {
    hide *;
    Parts(payloads);
    HeadedRate(SumTree(payloads).value, MergedDays(payloads));
    AnsweredConserve(ReadRows(payloads), MergedDays(payloads));
    SummedAmount(payloads, TOTAL);
  }

  /**
   Nothing ties the total at the head of a payload to its rows: the overall rate is a percentage
   exactly when the answered calls of the rows fit the totals of the payloads.
  */
  lemma {:induction false} OverallRateInRangeIff(payloads: seq<Object>, answered: real, total: real)
    requires Merges(payloads) && AllCounted(ReadRows(payloads)) && NumberAt(payloads[0], TOTAL)
    requires answered == Total(ReadRows(payloads), OUTGOING) + Total(ReadRows(payloads), INCOMING)
    requires total == Total(payloads, TOTAL)
    ensures At(Summary(payloads).value, ["answer_rate"]) == Some(Num(Rate(answered, total)))
    ensures 0.0 <= Rate(answered, total) <= 100.0 <==>
            total == 0.0 || -0.05 <= answered / total * 100.0 <= 100.05
  {
    hide *;
    OverallRate(payloads);
    RateInRangeIff(answered, total);
  }

  predicate Possible(row: Object) {
    0.0 <= Amount(row, OUTGOING) + Amount(row, INCOMING) <= Amount(row, TOTAL)
  }

  ghost predicate AllPossible(rows: seq<Object>) {
    forall i :: 0 <= i < |rows| ==> Possible(rows[i])
  }

  lemma {:induction false} PossibleTotals(rows: seq<Object>)
    requires AllPossible(rows)
    ensures 0.0 <= Total(rows, OUTGOING) + Total(rows, INCOMING) <= Total(rows, TOTAL)
  {
    if rows == [] {
    } else {
      assert Possible(rows[0]) && AllPossible(rows[1..]);
      PossibleTotals(rows[1..]);
    }
  }

  /** A percentage shown for `answered` out of `total`: in range and rounded by at most 0.05. */
  ghost predicate FairRate(rate: Option<Json>, answered: real, total: real) {
    && rate.Some? && rate.value.Num?
    && 0.0 <= rate.value.n <= 100.0
    && (total > 0.0 ==> -0.05 <= rate.value.n - answered / total * 100.0 <= 0.05)
  }

  lemma {:induction false} FairRateOf(answered: real, total: real)
    requires 0.0 <= answered <= total
    ensures FairRate(Some(Num(Rate(answered, total))), answered, total)
  {
    RateBounds(answered, total);
  }

  lemma {:induction false} RateOfRowsFair(rate: Option<Json>, rows: seq<Object>)
    requires rate == Some(Num(Rate(Total(rows, OUTGOING) + Total(rows, INCOMING), Total(rows, TOTAL))))
    requires AllPossible(rows)
    ensures FairRate(rate, Total(rows, OUTGOING) + Total(rows, INCOMING), Total(rows, TOTAL))
  {
    PossibleTotals(rows);
    FairRateOf(Total(rows, OUTGOING) + Total(rows, INCOMING), Total(rows, TOTAL));
  }

  lemma {:induction false} GroupRateFair(group: seq<Object>)
    requires LeadCounted(group) && MergeGroup(group).Some?
    requires AllPossible(group)
    ensures FairRate(At(MergeGroup(group).value, ["answer_rate"]),
                     Total(group, OUTGOING) + Total(group, INCOMING), Total(group, TOTAL))
  {
    DayRate(group);
    RateOfRowsFair(At(MergeGroup(group).value, ["answer_rate"]), group);
  }

  lemma {:induction false} GroupAllCounted(rows: seq<Object>, date: Json)
    requires Dated(rows) && date in Dates(rows) && AllCounted(rows)
    ensures LeadCounted(RowsOf(rows, date))
  {
    GroupCounted(rows, date, TOTAL);
    GroupCounted(rows, date, OUTGOING);
    GroupCounted(rows, date, INCOMING);
  }

  lemma {:induction false} GroupPossible(rows: seq<Object>, date: Json)
    requires Dated(rows) && AllPossible(rows)
    ensures AllPossible(RowsOf(rows, date))
  {
    RowsOfMembers(rows, date);
    var group := RowsOf(rows, date);
    forall i | 0 <= i < |group|
      ensures Possible(group[i])
    {
      assert group[i] in group;
    }
  }

  /** When no row answers more calls than it has, every day's rate is fair. */
  lemma {:induction false} DayRatesFair(payloads: seq<Object>, k: nat)
    requires Merges(payloads) && AllCounted(ReadRows(payloads)) && k < |MergedDays(payloads)|
    requires AllPossible(ReadRows(payloads))
    ensures var group := RowsOf(ReadRows(payloads), Dates(ReadRows(payloads))[k]);
            FairRate(At(MergedDays(payloads)[k], ["answer_rate"]),
                     Total(group, OUTGOING) + Total(group, INCOMING), Total(group, TOTAL))
  {
    hide *;
    Parts(payloads);
    var rows := ReadRows(payloads);
    var date := Dates(rows)[k];
    GroupAllCounted(rows, date);
    GroupPossible(rows, date);
    GroupRateFair(RowsOf(rows, date));
  }

  lemma {:induction false} OverallRateOfRows(payloads: seq<Object>)
    requires Merges(payloads) && AllCounted(ReadRows(payloads))
    requires AllConsistent(payloads, TOTAL)
    ensures At(Summary(payloads).value, ["answer_rate"]) ==
            Some(Num(Rate(Total(ReadRows(payloads), OUTGOING) + Total(ReadRows(payloads), INCOMING),
                          Total(ReadRows(payloads), TOTAL))))
  {
    assert Consistent(payloads[0], TOTAL);
    OverallRate(payloads);
    ConsistentTotals(payloads, TOTAL);
  }

  /** So is the overall rate, when each payload's total is the sum of its rows. */
  lemma {:induction false} OverallRateFair(payloads: seq<Object>)
    requires Merges(payloads) && AllCounted(ReadRows(payloads))
    requires AllPossible(ReadRows(payloads)) && AllConsistent(payloads, TOTAL)
    ensures FairRate(At(Summary(payloads).value, ["answer_rate"]),
                     Total(ReadRows(payloads), OUTGOING) + Total(ReadRows(payloads), INCOMING),
                     Total(ReadRows(payloads), TOTAL))
  {
    hide *;
    OverallRateOfRows(payloads);
    Parts(payloads);
    RateOfRowsFair(At(Summary(payloads).value, ["answer_rate"]), ReadRows(payloads));
  }
}
