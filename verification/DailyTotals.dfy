/**
 apps/common/cdr_views.py: the merged daily summary read field by field, from rows and payloads whose
 fields are given: which rows a day collects, what its counts are, and which rate it shows.
*/
module DailyTotals {
  import opened Wrappers
  import opened NumericTree
  import opened DailySummary
  import Ordering

  // ---------------------------------------------------------------------------
  // Rows
  // ---------------------------------------------------------------------------

  function Flatten(lists: seq<seq<Object>>): seq<Object> {
    if lists == [] then [] else Flatten(lists[..|lists| - 1]) + lists[|lists| - 1]
  }

  lemma {:induction false} ItemsOf(rows: seq<Object>, items: seq<Json>)
    requires |items| == |rows| && forall i :: 0 <= i < |rows| ==> items[i] == Obj(rows[i])
    ensures Items(items) == Some(rows)
  {
    if rows == [] {
    } else {
      ItemsOf(rows[1..], items[1..]);
      assert rows == [rows[0]] + rows[1..];
    }
  }

  /** Every row of every payload is read, payload after payload. */
  lemma {:induction false} ReadsAll(payloads: seq<Object>, lists: seq<seq<Object>>)
    requires |payloads| == |lists| && Dated(Flatten(lists))
    requires forall i :: 0 <= i < |payloads| ==>
               "results" in payloads[i] && payloads[i]["results"] == Arr(Objects(lists[i]))
    ensures AllRows(payloads) == Some(Flatten(lists))
  {
    hide Objects, DateKey;
    if payloads == [] {
    } else {
      var n := |payloads| - 1;
      assert forall i :: 0 <= i < |Flatten(lists[..n])| ==> Flatten(lists[..n])[i] == Flatten(lists)[i];
      assert forall i :: 0 <= i < |lists[n]| ==> lists[n][i] == Flatten(lists)[|Flatten(lists[..n])| + i];
      ReadsAll(payloads[..n], lists[..n]);
      ItemsOf(lists[n], Objects(lists[n]));
    }
  }

  /** A payload without results, or with empty ones, has no rows. */
  lemma {:induction false} NoRows(payload: Object)
    requires "results" in payload ==> payload["results"] in {Arr([]), Obj(map[]), Str("")}
    ensures Rows(payload) == Some([])
  {
  }

  lemma {:induction false} ItemsFail(items: seq<Json>)
    ensures Items(items).None? <==> exists i :: 0 <= i < |items| && !items[i].Obj?
  {
    if items == [] {
    } else {
      ItemsFail(items[1..]);
      assert forall i :: 1 <= i < |items| ==> items[i] == items[1..][i - 1];
      assert forall i :: 0 <= i < |items| - 1 ==> items[1..][i] == items[i + 1];
    }
  }

  /** Reading fails on results that are no list, unless empty, and on a list with an item that is no object. */
  lemma {:induction false} RowsFailIff(payload: Object)
    ensures Rows(payload).None? <==>
            "results" in payload
            && match payload["results"]
               case Arr(items) => exists i :: 0 <= i < |items| && !items[i].Obj?
               case Obj(fields) => fields != map[]
               case Str(s) => s != ""
               case _ => true
  {
    if "results" in payload && payload["results"].Arr? {
      ItemsFail(payload["results"].items);
    }
  }

  // ---------------------------------------------------------------------------
  // Days
  // ---------------------------------------------------------------------------

  ghost predicate On(row: Object, day: string) {
    "date" in row && row["date"] == Str(day)
  }

  /** The rows filed under a day are, in order, the rows that carry its text as their date. */
  lemma {:induction false} DayRows(rows: seq<Object>, day: string, keep: Object -> bool)
    requires Dated(rows) && forall row :: keep(row) <==> On(row, day)
    ensures RowsOf(rows, Str(day)) == Ordering.Filter(rows, keep)
  {
    if rows == [] {
    } else {
      var n := |rows| - 1;
      DayRows(rows[..n], day, keep);
      Ordering.FilterLast(rows, keep);
      DayKeyIff(rows[n], day);
      hide On;
    }
  }

  lemma {:induction false} DayKeyIff(row: Object, day: string)
    ensures DateKey(row) == Some(Str(day)) <==> On(row, day)
  {
  }

  /** Dates that are no texts: a missing date is a null one, True is 1, and lists and objects are refused. */
  lemma {:induction false} OtherDates(row: Object)
    ensures "date" !in row || row["date"] == Null ==> DateKey(row) == Some(Null)
    ensures "date" in row && row["date"] == Bool(true) ==> DateKey(row) == Some(Num(1.0))
    ensures "date" in row && row["date"] == Bool(false) ==> DateKey(row) == Some(Num(0.0))
    ensures "date" in row && row["date"].Num? ==> DateKey(row) == Some(row["date"])
    ensures "date" in row && (row["date"].Arr? || row["date"].Obj?) ==> DateKey(row).None?
  {
  }

  // ---------------------------------------------------------------------------
  // Counts and rates
  // ---------------------------------------------------------------------------

  /** The three counts of a row. */
  ghost predicate Counts(row: Object, total: real, outgoing: real, incoming: real) {
    && "total_calls" in row && row["total_calls"] == Num(total)
    && "outgoing" in row && row["outgoing"].Obj?
    && "answered" in row["outgoing"].fields && row["outgoing"].fields["answered"] == Num(outgoing)
    && "incoming" in row && row["incoming"].Obj?
    && "answered" in row["incoming"].fields && row["incoming"].fields["answered"] == Num(incoming)
  }

  ghost predicate AllCounts(rows: seq<Object>, total: seq<real>, outgoing: seq<real>, incoming: seq<real>) {
    && |total| == |outgoing| == |incoming| == |rows|
    && forall i :: 0 <= i < |rows| ==> Counts(rows[i], total[i], outgoing[i], incoming[i])
  }

  lemma {:induction false} CountsAt(row: Object, total: real, outgoing: real, incoming: real)
    ensures Counts(row, total, outgoing, incoming) <==>
            && At(row, TOTAL) == Some(Num(total))
            && At(row, OUTGOING) == Some(Num(outgoing))
            && At(row, INCOMING) == Some(Num(incoming))
  {
    AtKeys(row, "total_calls", "");
    AtKeys(row, "outgoing", "answered");
    AtKeys(row, "incoming", "answered");
    hide At;
  }

  /**
   A day shows the sums of its rows' counts, as plain sums of the numbers in them, and the rate of
   those sums: 0 without calls, else the share rounded to a tenth of a percent.
  */
  lemma {:induction false} DayShows(rows: seq<Object>, total: seq<real>, outgoing: seq<real>, incoming: seq<real>)
    requires rows != [] && MergeGroup(rows).Some? && AllCounts(rows, total, outgoing, incoming)
    ensures Counts(MergeGroup(rows).value, SumOf(total), SumOf(outgoing), SumOf(incoming))
    ensures "answer_rate" in MergeGroup(rows).value && MergeGroup(rows).value["answer_rate"].Num?
    ensures ShownRate(MergeGroup(rows).value["answer_rate"].n, SumOf(outgoing) + SumOf(incoming), SumOf(total))
  {
    var day := MergeGroup(rows).value;
    CountsAt(rows[0], total[0], outgoing[0], incoming[0]);
    CountsSum(rows, total, outgoing, incoming);
    hide At, MergeGroup, Counts, ShownRate, Rate, Total;
    DayCounts(rows, TOTAL);
    DayCounts(rows, OUTGOING);
    DayCounts(rows, INCOMING);
    CountsAt(day, SumOf(total), SumOf(outgoing), SumOf(incoming));
    DayRate(rows);
    AtKeys(day, "answer_rate", "");
    RateShown(SumOf(outgoing) + SumOf(incoming), SumOf(total));
  }

  lemma {:induction false} GroupsCounted(rows: seq<Object>, total: seq<real>, outgoing: seq<real>, incoming: seq<real>)
    requires Dated(rows) && AllCounts(rows, total, outgoing, incoming)
    ensures AllCounted(rows)
  {
    forall date | RowsOf(rows, date) != []
      ensures LeadCounted(RowsOf(rows, date))
    {
      RowsOfMembers(rows, date);
      var lead := RowsOf(rows, date)[0];
      assert lead in RowsOf(rows, date) && lead in rows;
      var i :| 0 <= i < |rows| && rows[i] == lead;
      CountsAt(rows[i], total[i], outgoing[i], incoming[i]);
      hide At;
    }
    hide At, RowsOf;
  }

  /**
   The head of a merge of several payloads shows the sum of their totals, and the rate of all calls
   answered in their rows against that sum.
  */
  lemma {:induction false} HeadShows(payloads: seq<Object>, totals: seq<real>, total: seq<real>, outgoing: seq<real>,
                                     incoming: seq<real>)
    requires Merges(payloads) && AllCounts(ReadRows(payloads), total, outgoing, incoming)
    requires |totals| == |payloads|
    requires forall i :: 0 <= i < |payloads| ==>
               "total_calls" in payloads[i] && payloads[i]["total_calls"] == Num(totals[i])
    ensures var head := Summary(payloads).value;
            && "total_calls" in head && head["total_calls"] == Num(SumOf(totals))
            && "answer_rate" in head && head["answer_rate"].Num?
            && ShownRate(head["answer_rate"].n, SumOf(outgoing) + SumOf(incoming), SumOf(totals))
  {
    hide *;
    Parts(payloads);
    HeadTotalShown(payloads, totals);
    GroupsCounted(ReadRows(payloads), total, outgoing, incoming);
    CountsSum(ReadRows(payloads), total, outgoing, incoming);
    TotalsSum(payloads, totals);
    HeadRateShown(payloads);
  }

  lemma {:induction false} HeadTotalShown(payloads: seq<Object>, totals: seq<real>)
    requires Merges(payloads) && |totals| == |payloads|
    requires forall i :: 0 <= i < |payloads| ==>
               "total_calls" in payloads[i] && payloads[i]["total_calls"] == Num(totals[i])
    ensures "total_calls" in Summary(payloads).value
    ensures Summary(payloads).value["total_calls"] == Num(SumOf(totals))
  {
    TotalsSum(payloads, totals);
    hide Summary, Total, SumOf, At;
    HeadTotals(payloads, TOTAL);
    TopKey(Summary(payloads).value, "total_calls");
  }

  lemma {:induction false} HeadRateShown(payloads: seq<Object>)
    requires Merges(payloads) && AllCounted(ReadRows(payloads)) && NumberAt(payloads[0], TOTAL)
    ensures "answer_rate" in Summary(payloads).value && Summary(payloads).value["answer_rate"].Num?
    ensures ShownRate(Summary(payloads).value["answer_rate"].n,
                      Total(ReadRows(payloads), OUTGOING) + Total(ReadRows(payloads), INCOMING), Total(payloads, TOTAL))
  {
    hide *;
    Parts(payloads);
    var answered := Total(ReadRows(payloads), OUTGOING) + Total(ReadRows(payloads), INCOMING);
    OverallRate(payloads);
    TopKey(Summary(payloads).value, "answer_rate");
    RateShown(answered, Total(payloads, TOTAL));
  }

  lemma {:induction false} TopKey(o: Object, key: string)
    ensures At(o, [key]).Some? ==> key in o && At(o, [key]) == Some(o[key])
  {
    AtKeys(o, key, "");
  }

  lemma {:induction false} TotalsSum(payloads: seq<Object>, totals: seq<real>)
    requires payloads != [] && |totals| == |payloads|
    requires forall i :: 0 <= i < |payloads| ==>
               "total_calls" in payloads[i] && payloads[i]["total_calls"] == Num(totals[i])
    ensures TOTAL[0] == "total_calls" && NumberAt(payloads[0], TOTAL) && TOTAL == ["total_calls"]
    ensures Total(payloads, TOTAL) == SumOf(totals)
  {
    forall i | 0 <= i < |payloads|
      ensures At(payloads[i], TOTAL) == Some(Num(totals[i]))
    {
      AtKeys(payloads[i], "total_calls", "");
    }
    hide At, Total;
    WorthTotal(payloads, TOTAL, totals);
  }

  lemma {:induction false} CountsSum(rows: seq<Object>, total: seq<real>, outgoing: seq<real>, incoming: seq<real>)
    requires AllCounts(rows, total, outgoing, incoming)
    ensures Total(rows, TOTAL) == SumOf(total)
    ensures Total(rows, OUTGOING) == SumOf(outgoing) && Total(rows, INCOMING) == SumOf(incoming)
  {
    forall i | 0 <= i < |rows|
      ensures At(rows[i], TOTAL) == Some(Num(total[i])) && At(rows[i], OUTGOING) == Some(Num(outgoing[i]))
      ensures At(rows[i], INCOMING) == Some(Num(incoming[i]))
    {
      CountsAt(rows[i], total[i], outgoing[i], incoming[i]);
    }
    hide At, Total;
    WorthTotal(rows, TOTAL, total);
    WorthTotal(rows, OUTGOING, outgoing);
    WorthTotal(rows, INCOMING, incoming);
  }
}
