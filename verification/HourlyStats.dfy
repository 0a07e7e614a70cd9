/**
 apps/common/cdr_views.py: `_merge_hourly_stats`.

 Per-extension hourly statistics are merged into one bucket per hour, next to a breakdown that
 keeps every extension's own buckets under its name.
*/
module HourlyStats {
  import opened Wrappers
  import opened Ordering
  import Text

  /** `text` is the label of the hour; `calls` is None when missing or null. */
  datatype Bucket = Bucket(hour: int, text: string, calls: Option<int>)

  datatype Payload = Payload(
    extension: Option<string>,
    hours: seq<Bucket>,
    total: Option<int>,
    other: map<string, string>)

  datatype Stats =
    | Nothing
    | Stats(payload: Payload, byExtension: map<string, seq<Bucket>>)

  /** `h.get("calls", 0) or 0` */
  function Calls(b: Bucket): int {
    if b.calls.Some? then b.calls.value else 0
  }

  /** All calls of some buckets. */
  function CallsIn(buckets: seq<Bucket>): int {
    if buckets == [] then 0
    else CallsIn(buckets[..|buckets| - 1]) + Calls(buckets[|buckets| - 1])
  }

  /** The calls of one hour. */
  function CallsAt(buckets: seq<Bucket>, hour: int): int {
    if buckets == [] then 0
    else
      var last := buckets[|buckets| - 1];
      CallsAt(buckets[..|buckets| - 1], hour) + (if last.hour == hour then Calls(last) else 0)
  }

  function HoursSeen(buckets: seq<Bucket>): set<int> {
    set b | b in buckets :: b.hour
  }

  /** The label of the first bucket of an hour. */
  function LabelOf(buckets: seq<Bucket>, hour: int): string
    requires hour in HoursSeen(buckets)
  {
    var n := |buckets| - 1;
    if hour in HoursSeen(buckets[..n]) then LabelOf(buckets[..n], hour)
    else
      assert buckets == buckets[..n] + [buckets[n]];
      buckets[n].text
  }

  function AllBuckets(payloads: seq<Payload>): seq<Bucket> {
    if payloads == [] then []
    else AllBuckets(payloads[..|payloads| - 1]) + payloads[|payloads| - 1].hours
  }

  /** `[by_hour[h] for h in sorted(by_hour.keys())]` */
  function MergedHours(all: seq<Bucket>): (r: seq<Bucket>)
    ensures |r| == |HoursSeen(all)|
  {
    var hours := Ascending(HoursSeen(all), IntLe);
    AscendingMembers(HoursSeen(all), IntLe);
    seq(|hours|, i requires 0 <= i < |hours| =>
      assert hours[i] in hours;
      Bucket(hours[i], LabelOf(all, hours[i]), Some(CallsAt(all, hours[i]))))
  }

  /** `payload.get("extension", f"#{i}")` */
  function NameOf(payloads: seq<Payload>, i: nat): string
    requires i < |payloads|
  {
    if payloads[i].extension.Some? then payloads[i].extension.value else "#" + Text.Decimal(i)
  }

  /** The first n entries of the breakdown; a repeated name replaces the earlier entry. */
  function Breakdown(payloads: seq<Payload>, n: nat): map<string, seq<Bucket>>
    requires n <= |payloads|
  {
    if n == 0 then map[] else Breakdown(payloads, n - 1)[NameOf(payloads, n - 1) := payloads[n - 1].hours]
  }

  function Merged(payloads: seq<Payload>): Stats {
    if payloads == [] then Nothing
    else if |payloads| == 1 then
      var name := if payloads[0].extension.Some? then payloads[0].extension.value else "";
      Stats(payloads[0], map[name := payloads[0].hours])
    else
      var all := AllBuckets(payloads);
      Stats(Payload(Some(""), MergedHours(all), Some(CallsIn(MergedHours(all))), payloads[0].other),
            Breakdown(payloads, |payloads|))
  }

  // ---------------------------------------------------------------------------
  // The loops
  // ---------------------------------------------------------------------------

  ghost predicate Tallied(byHour: map<int, Bucket>, seen: seq<Bucket>) {
    && byHour.Keys == HoursSeen(seen)
    && forall h :: h in byHour ==> byHour[h] == Bucket(h, LabelOf(seen, h), Some(CallsAt(seen, h)))
  }

  lemma {:induction false} TallyNext(seen: seq<Bucket>, b: Bucket)
    ensures HoursSeen(seen + [b]) == HoursSeen(seen) + {b.hour}
    ensures forall h :: h in HoursSeen(seen) ==> LabelOf(seen + [b], h) == LabelOf(seen, h)
    ensures b.hour !in HoursSeen(seen) ==> LabelOf(seen + [b], b.hour) == b.text
    ensures forall h :: CallsAt(seen + [b], h) == CallsAt(seen, h) + (if b.hour == h then Calls(b) else 0)
  {
  }

  lemma {:induction false} UnseenHour(seen: seq<Bucket>, hour: int)
    requires hour !in HoursSeen(seen)
    ensures CallsAt(seen, hour) == 0
  {
    if seen == [] {
    } else {
      var n := |seen| - 1;
      assert seen[n] in seen;
      UnseenHour(seen[..n], hour);
    }
  }

  /** `by_hour` after one more bucket. */
  function Tally(byHour: map<int, Bucket>, h: Bucket): map<int, Bucket> {
    var bucket := if h.hour in byHour then byHour[h.hour] else Bucket(h.hour, h.text, Some(0));
    byHour[h.hour := bucket.(calls := Some(Calls(bucket) + Calls(h)))]
  }

  lemma {:induction false} TallyKeeps(byHour: map<int, Bucket>, seen: seq<Bucket>, h: Bucket)
    requires Tallied(byHour, seen)
    ensures Tallied(Tally(byHour, h), seen + [h])
  {
    TallyNext(seen, h);
    hide LabelOf, CallsAt, HoursSeen;
    if h.hour !in byHour {
      UnseenHour(seen, h.hour);
    }
    assert Tally(byHour, h).Keys == byHour.Keys + {h.hour};
  }

  method TallyPayload(byHour: map<int, Bucket>, ghost earlier: seq<Bucket>, hours: seq<Bucket>)
    returns (byHour': map<int, Bucket>)
    requires Tallied(byHour, earlier)
    ensures Tallied(byHour', earlier + hours)
  {
    hide Tallied;
    byHour' := byHour;
    ghost var seen := earlier;
    for i := 0 to |hours|
      invariant seen == earlier + hours[..i] && Tallied(byHour', seen)
    {
      var h := hours[i];
      TallyKeeps(byHour', seen, h);
      ghost var before := byHour';
      if h.hour !in byHour' {
        byHour' := byHour'[h.hour := Bucket(h.hour, h.text, Some(0))];
      }
      var bucket := byHour'[h.hour];
      byHour' := byHour'[h.hour := bucket.(calls := Some(Calls(bucket) + Calls(h)))];
      assert byHour' == Tally(before, h);
      seen := seen + [h];
      assert hours[..i + 1] == hours[..i] + [h];
    }
    assert hours[..|hours|] == hours;
  }

  lemma {:induction false} TalliedListed(byHour: map<int, Bucket>, all: seq<Bucket>)
    requires Tallied(byHour, all)
    ensures var order := Ascending(byHour.Keys, IntLe);
            && |MergedHours(all)| == |order|
            && forall i :: 0 <= i < |order| ==> order[i] in byHour && MergedHours(all)[i] == byHour[order[i]]
  {
    hide Ascending, LabelOf, CallsAt;
    AscendingMembers(byHour.Keys, IntLe);
    var order := Ascending(byHour.Keys, IntLe);
    assert forall i :: 0 <= i < |order| ==> order[i] in order;
  }

  method ListHours(byHour: map<int, Bucket>, ghost all: seq<Bucket>) returns (hours: seq<Bucket>)
    requires Tallied(byHour, all)
    ensures hours == MergedHours(all)
  {
    TalliedListed(byHour, all);
    hide *;
    var order := Ascending(byHour.Keys, IntLe);
    hours := [];
    for i := 0 to |order|
      invariant |hours| == i && forall k :: 0 <= k < i ==> hours[k] == MergedHours(all)[k]
    {
      hours := hours + [byHour[order[i]]];
    }
  }

  /** `_merge_hourly_stats` */
  method MergeHourlyStats(payloads: seq<Payload>) returns (stats: Stats)
    ensures stats == Merged(payloads)
  {
    if payloads == [] {
      return Nothing;
    }
    if |payloads| == 1 {
      var single := payloads[0];
      var name := if single.extension.Some? then single.extension.value else "";
      return Stats(single, map[name := single.hours]);
    }
    var byHour: map<int, Bucket> := map[];
    for i := 0 to |payloads|
      invariant Tallied(byHour, AllBuckets(payloads[..i]))
    {
      byHour := TallyPayload(byHour, AllBuckets(payloads[..i]), payloads[i].hours);
      assert payloads[..i + 1][..i] == payloads[..i];
    }
    assert payloads[..|payloads|] == payloads;
    var hours := ListHours(byHour, AllBuckets(payloads));
    var byExtension := map[];
    for i := 0 to |payloads|
      invariant byExtension == Breakdown(payloads, i)
    {
      byExtension := byExtension[NameOf(payloads, i) := payloads[i].hours];
    }
    stats := Stats(Payload(Some(""), hours, Some(CallsIn(hours)), payloads[0].other), byExtension);
  }

  // ---------------------------------------------------------------------------
  // Conservation over the hours
  // ---------------------------------------------------------------------------

  /** One bucket per hour that occurs, in ascending order, holding all calls of that hour. */
  lemma {:induction false} HoursExact(payloads: seq<Payload>)
    requires |payloads| > 1
    ensures var hours, all := Merged(payloads).payload.hours, AllBuckets(payloads);
            && (forall i, j :: 0 <= i < j < |hours| ==> hours[i].hour < hours[j].hour)
            && (forall h :: h in HoursSeen(hours) <==> h in HoursSeen(all))
            && (forall i :: 0 <= i < |hours| ==> hours[i].calls == Some(CallsAt(all, hours[i].hour)))
  {
    BucketsExact(AllBuckets(payloads));
    SameHours(AllBuckets(payloads));
  }

  lemma {:induction false} BucketsExact(all: seq<Bucket>)
    ensures var hours := MergedHours(all);
            && (forall i, j :: 0 <= i < j < |hours| ==> hours[i].hour < hours[j].hour)
            && (forall i :: 0 <= i < |hours| ==> hours[i].calls == Some(CallsAt(all, hours[i].hour)))
  {
    AscendingMembers(HoursSeen(all), IntLe);
    AscendingIsStrict(HoursSeen(all), IntLe);
  }

  lemma {:induction false} SameHours(all: seq<Bucket>)
    ensures forall h :: h in HoursSeen(MergedHours(all)) <==> h in HoursSeen(all)
  {
    var order := Ascending(HoursSeen(all), IntLe);
    AscendingMembers(HoursSeen(all), IntLe);
    var hours := MergedHours(all);
    hide Ascending, CallsAt, LabelOf;
    assert forall i :: 0 <= i < |hours| ==> hours[i].hour == order[i];
    forall h | h in HoursSeen(all)
      ensures h in HoursSeen(hours)
    {
      assert h in order;
      var i :| 0 <= i < |order| && order[i] == h;
      assert hours[i] in hours;
    }
    forall h | h in HoursSeen(hours)
      ensures h in HoursSeen(all)
    {
      var b :| b in hours && b.hour == h;
      var i :| 0 <= i < |hours| && hours[i] == b;
      assert order[i] in order;
    }
  }

  function OverHours(all: seq<Bucket>, hours: seq<int>): int {
    if hours == [] then 0 else CallsAt(all, hours[0]) + OverHours(all, hours[1..])
  }

  ghost predicate Distinct(hours: seq<int>) {
    forall i, j :: 0 <= i < j < |hours| ==> hours[i] != hours[j]
  }

  lemma {:induction false} OneMoreBucket(all: seq<Bucket>, hours: seq<int>)
    requires all != [] && Distinct(hours)
    ensures OverHours(all, hours) ==
            OverHours(all[..|all| - 1], hours)
            + (if all[|all| - 1].hour in hours then Calls(all[|all| - 1]) else 0)
  {
    if hours == [] {
    } else {
      OneMoreBucket(all, hours[1..]);
      assert hours == [hours[0]] + hours[1..];
      assert hours[0] !in hours[1..];
    }
  }

  lemma {:induction false} HoursPartition(all: seq<Bucket>, hours: seq<int>)
    requires Distinct(hours) && forall b :: b in all ==> b.hour in hours
    ensures OverHours(all, hours) == CallsIn(all)
  {
    if all == [] {
      NoBuckets(hours);
    } else {
      var n := |all| - 1;
      assert all[n] in all;
      assert forall b :: b in all[..n] ==> b in all;
      HoursPartition(all[..n], hours);
      OneMoreBucket(all, hours);
    }
  }

  lemma {:induction false} NoBuckets(hours: seq<int>)
    ensures OverHours([], hours) == 0
  {
    if hours == [] {
    } else {
      NoBuckets(hours[1..]);
    }
  }

  lemma {:induction false} OverHoursAppend(all: seq<Bucket>, hours: seq<int>, h: int)
    ensures OverHours(all, hours + [h]) == OverHours(all, hours) + CallsAt(all, h)
  {
    if hours == [] {
      assert [] + [h] == [h] && [h][1..] == [];
    } else {
      assert (hours + [h])[1..] == hours[1..] + [h];
      OverHoursAppend(all, hours[1..], h);
    }
  }

  lemma {:induction false} MergedCalls(all: seq<Bucket>, order: seq<int>, hours: seq<Bucket>)
    requires |hours| == |order|
    requires forall i :: 0 <= i < |order| ==> Calls(hours[i]) == CallsAt(all, order[i])
    ensures CallsIn(hours) == OverHours(all, order)
  {
    if hours == [] {
    } else {
      var n := |hours| - 1;
      MergedCalls(all, order[..n], hours[..n]);
      assert order == order[..n] + [order[n]];
      OverHoursAppend(all, order[..n], order[n]);
    }
  }

  lemma {:induction false} HoursHoldCalls(all: seq<Bucket>)
    ensures var order := Ascending(HoursSeen(all), IntLe);
            && |MergedHours(all)| == |order|
            && forall i :: 0 <= i < |order| ==> Calls(MergedHours(all)[i]) == CallsAt(all, order[i])
  {
    hide CallsAt, LabelOf, Ascending;
  }

  /** The total is all calls of all payloads. */
  lemma {:induction false} TotalConserved(payloads: seq<Payload>)
    requires |payloads| > 1
    ensures Merged(payloads).payload.total == Some(CallsIn(AllBuckets(payloads)))
  {
    var all := AllBuckets(payloads);
    var order := Ascending(HoursSeen(all), IntLe);
    AscendingMembers(HoursSeen(all), IntLe);
    AscendingIsStrict(HoursSeen(all), IntLe);
    HoursHoldCalls(all);
    hide MergedHours, CallsAt, LabelOf, Ascending;
    assert forall b :: b in all ==> b.hour in HoursSeen(all);
    HoursPartition(all, order);
    MergedCalls(all, order, MergedHours(all));
  }

  // ---------------------------------------------------------------------------
  // Order of the payloads
  // ---------------------------------------------------------------------------

  lemma {:induction false} CallsAtConcat(a: seq<Bucket>, b: seq<Bucket>, hour: int)
    ensures CallsAt(a + b, hour) == CallsAt(a, hour) + CallsAt(b, hour)
  {
    if b == [] {
      assert a + b == a;
    } else {
      assert (a + b)[..|a + b| - 1] == a + b[..|b| - 1];
      CallsAtConcat(a, b[..|b| - 1], hour);
    }
  }

  lemma {:induction false} AllBucketsConcat(a: seq<Payload>, b: seq<Payload>)
    ensures AllBuckets(a + b) == AllBuckets(a) + AllBuckets(b)
  {
    if b == [] {
      assert a + b == a;
    } else {
      assert (a + b)[..|a + b| - 1] == a + b[..|b| - 1];
      AllBucketsConcat(a, b[..|b| - 1]);
    }
  }

  lemma {:induction false} SwapCalls(a: seq<Payload>, x: Payload, b: seq<Payload>, hour: int)
    ensures CallsAt(AllBuckets(a + [x] + b), hour) == CallsAt(AllBuckets(a + b), hour) + CallsAt(x.hours, hour)
    ensures HoursSeen(AllBuckets(a + [x] + b)) == HoursSeen(AllBuckets(a + b)) + HoursSeen(x.hours)
  {
    AllBucketsConcat(a + [x], b);
    AllBucketsConcat(a, [x]);
    AllBucketsConcat(a, b);
    assert AllBuckets([x]) == AllBuckets([x][..0]) + x.hours;
    assert AllBuckets([x]) == x.hours;
    CallsAtConcat(AllBuckets(a) + x.hours, AllBuckets(b), hour);
    CallsAtConcat(AllBuckets(a), x.hours, hour);
    CallsAtConcat(AllBuckets(a), AllBuckets(b), hour);
  }

  lemma {:induction false} HeadCalls(p: seq<Payload>, hour: int)
    requires p != []
    ensures CallsAt(AllBuckets(p), hour) == CallsAt(AllBuckets(p[1..]), hour) + CallsAt(p[0].hours, hour)
    ensures HoursSeen(AllBuckets(p)) == HoursSeen(AllBuckets(p[1..])) + HoursSeen(p[0].hours)
  {
    hide CallsAt, HoursSeen, AllBuckets;
    SwapCalls([], p[0], p[1..], hour);
    assert [] + p[1..] == p[1..] && [] + [p[0]] + p[1..] == p;
  }

  lemma {:induction false} CallsIgnoreOrder(p: seq<Payload>, q: seq<Payload>, hour: int)
    requires multiset(p) == multiset(q)
    ensures CallsAt(AllBuckets(p), hour) == CallsAt(AllBuckets(q), hour)
    ensures HoursSeen(AllBuckets(p)) == HoursSeen(AllBuckets(q))
  {
    hide CallsAt, HoursSeen, AllBuckets;
    if p == [] {
      assert |multiset(q)| == 0;
    } else {
      var i := PermutationHead(p, q);
      CallsIgnoreOrder(p[1..], q[..i] + q[i + 1..], hour);
      HeadCalls(p, hour);
      SwapCalls(q[..i], p[0], q[i + 1..], hour);
    }
  }

  /** Hours and counts do not depend on the order in which the extensions answered. */
  lemma {:induction false} CountsIgnoreOrder(p: seq<Payload>, q: seq<Payload>)
    requires |p| > 1 && multiset(p) == multiset(q)
    ensures |q| > 1
    ensures var a, b := Merged(p).payload, Merged(q).payload;
            && a.total == b.total
            && |a.hours| == |b.hours|
            && forall i :: 0 <= i < |a.hours| ==>
                a.hours[i].hour == b.hours[i].hour && a.hours[i].calls == b.hours[i].calls
  {
    assert |multiset(p)| == |p| && |multiset(q)| == |q|;
    var pAll, qAll := AllBuckets(p), AllBuckets(q);
    forall h
      ensures CallsAt(pAll, h) == CallsAt(qAll, h)
    {
      CallsIgnoreOrder(p, q, h);
    }
    CallsIgnoreOrder(p, q, 0);
    var order := Ascending(HoursSeen(pAll), IntLe);
    MergedCalls(pAll, order, MergedHours(pAll));
    MergedCalls(pAll, order, MergedHours(qAll));
  }

  // ---------------------------------------------------------------------------
  // The breakdown by extension
  // ---------------------------------------------------------------------------

  /** Whether a later payload carries the same name. */
  predicate Shadowed(payloads: seq<Payload>, i: nat)
    requires i < |payloads|
  {
    exists j :: i < j < |payloads| && NameOf(payloads, j) == NameOf(payloads, i)
  }

  /** Calls of the first n payloads that no later payload replaces. */
  function KeptCalls(payloads: seq<Payload>, n: nat): int
    requires n <= |payloads|
  {
    if n == 0 then 0
    else KeptCalls(payloads, n - 1) + (if Shadowed(payloads, n - 1) then 0 else CallsIn(payloads[n - 1].hours))
  }

  /** Calls of the first n payloads that a later payload replaces. */
  function LostCalls(payloads: seq<Payload>, n: nat): int
    requires n <= |payloads|
  {
    if n == 0 then 0
    else LostCalls(payloads, n - 1) + (if Shadowed(payloads, n - 1) then CallsIn(payloads[n - 1].hours) else 0)
  }

  /** The sum over some entries of a breakdown. */
  ghost function EntriesTotal(m: map<string, seq<Bucket>>, names: set<string>): int
    requires names <= m.Keys
    decreases names
  {
    if names == {} then 0
    else
      var name :| name in names;
      CallsIn(m[name]) + EntriesTotal(m, names - {name})
  }

  lemma {:induction false} EntryRemoved(m: map<string, seq<Bucket>>, names: set<string>, name: string)
    requires names <= m.Keys && name in names
    ensures EntriesTotal(m, names) == CallsIn(m[name]) + EntriesTotal(m, names - {name})
    decreases names
  {
    var first :| first in names && EntriesTotal(m, names) == CallsIn(m[first]) + EntriesTotal(m, names - {first});
    if first != name {
      EntryRemoved(m, names - {first}, name);
      EntryRemoved(m, names - {name}, first);
      assert names - {first} - {name} == names - {name} - {first};
    }
  }

  lemma {:induction false} NoEntries(m: map<string, seq<Bucket>>)
    ensures EntriesTotal(m, {}) == 0
  {
  }

  lemma {:induction false} LastOfName(payloads: seq<Payload>, n: nat, i: nat)
    requires i < n <= |payloads|
    requires forall j :: i < j < n ==> NameOf(payloads, j) != NameOf(payloads, i)
    ensures NameOf(payloads, i) in Breakdown(payloads, n)
    ensures Breakdown(payloads, n)[NameOf(payloads, i)] == payloads[i].hours
  {
    hide NameOf;
    if i < n - 1 {
      LastOfName(payloads, n - 1, i);
    }
  }

  lemma {:induction false} NameHasLast(payloads: seq<Payload>, n: nat, name: string) returns (i: nat)
    requires n <= |payloads| && name in Breakdown(payloads, n)
    ensures i < n && NameOf(payloads, i) == name
    ensures forall j :: i < j < n ==> NameOf(payloads, j) != name
  {
    hide NameOf;
    if NameOf(payloads, n - 1) == name {
      i := n - 1;
    } else {
      i := NameHasLast(payloads, n - 1, name);
    }
  }

  function KeptNames(payloads: seq<Payload>, n: nat): set<string>
    requires n <= |payloads|
  {
    set i | 0 <= i < n && !Shadowed(payloads, i) :: NameOf(payloads, i)
  }

  lemma {:induction false} BreakdownTotalStep(payloads: seq<Payload>, n: nat)
    requires n <= |payloads|
    ensures KeptNames(payloads, n) <= Breakdown(payloads, |payloads|).Keys
    ensures EntriesTotal(Breakdown(payloads, |payloads|), KeptNames(payloads, n)) == KeptCalls(payloads, n)
  {
    hide NameOf, Breakdown, CallsIn, EntriesTotal;
    var m := Breakdown(payloads, |payloads|);
    if n == 0 {
      assert KeptNames(payloads, 0) == {};
      NoEntries(m);
    } else {
      BreakdownTotalStep(payloads, n - 1);
      var name := NameOf(payloads, n - 1);
      if Shadowed(payloads, n - 1) {
        assert KeptNames(payloads, n) == KeptNames(payloads, n - 1);
      } else {
        LastOfName(payloads, |payloads|, n - 1);
        assert name !in KeptNames(payloads, n - 1);
        assert KeptNames(payloads, n) == KeptNames(payloads, n - 1) + {name};
        assert KeptNames(payloads, n) - {name} == KeptNames(payloads, n - 1);
        EntryRemoved(m, KeptNames(payloads, n), name);
      }
    }
  }

  lemma {:induction false} CallsInConcat(a: seq<Bucket>, b: seq<Bucket>)
    ensures CallsIn(a + b) == CallsIn(a) + CallsIn(b)
  {
    if b == [] {
      assert a + b == a;
    } else {
      assert (a + b)[..|a + b| - 1] == a + b[..|b| - 1];
      CallsInConcat(a, b[..|b| - 1]);
    }
  }

  lemma {:induction false} KeptAndLost(payloads: seq<Payload>, n: nat)
    requires n <= |payloads|
    ensures KeptCalls(payloads, n) + LostCalls(payloads, n) == CallsIn(AllBuckets(payloads[..n]))
  {
    if n == 0 {
    } else {
      KeptAndLost(payloads, n - 1);
      assert payloads[..n][..n - 1] == payloads[..n - 1];
      CallsInConcat(AllBuckets(payloads[..n - 1]), payloads[n - 1].hours);
    }
  }

  /** The breakdown holds all calls except those of payloads whose name comes again. */
  lemma {:induction false} BreakdownTotal(payloads: seq<Payload>)
    ensures var m := Breakdown(payloads, |payloads|);
            EntriesTotal(m, m.Keys) == CallsIn(AllBuckets(payloads)) - LostCalls(payloads, |payloads|)
  {
    var m := Breakdown(payloads, |payloads|);
    BreakdownTotalStep(payloads, |payloads|);
    forall name | name in m
      ensures name in KeptNames(payloads, |payloads|)
    {
      var i := NameHasLast(payloads, |payloads|, name);
      assert !Shadowed(payloads, i);
    }
    assert m.Keys == KeptNames(payloads, |payloads|);
    KeptAndLost(payloads, |payloads|);
    assert payloads[..|payloads|] == payloads;
  }

  /** The breakdown adds up to the total exactly when the replaced payloads held no calls. */
  lemma {:induction false} BreakdownAgreesIff(payloads: seq<Payload>)
    requires |payloads| > 1
    ensures var stats := Merged(payloads);
            stats.payload.total == Some(EntriesTotal(stats.byExtension, stats.byExtension.Keys))
            <==> LostCalls(payloads, |payloads|) == 0
  {
    BreakdownTotal(payloads);
    TotalConserved(payloads);
  }

  /** In particular when all names are different. */
  lemma {:induction false} DistinctNamesLoseNothing(payloads: seq<Payload>, n: nat)
    requires n <= |payloads|
    requires forall i, j :: 0 <= i < j < |payloads| ==> NameOf(payloads, i) != NameOf(payloads, j)
    ensures LostCalls(payloads, n) == 0
  {
    if n == 0 {
    } else {
      DistinctNamesLoseNothing(payloads, n - 1);
    }
  }

  // ---------------------------------------------------------------------------
  // The numbers and names shown
  // ---------------------------------------------------------------------------

  function SumOf(ns: seq<int>): int {
    if ns == [] then 0 else SumOf(ns[..|ns| - 1]) + ns[|ns| - 1]
  }

  /** ns are the calls written in the buckets; a bucket without any counts for nothing. */
  ghost predicate Written(buckets: seq<Bucket>, ns: seq<int>) {
    && |ns| == |buckets|
    && forall i :: 0 <= i < |ns| ==> buckets[i].calls == Some(ns[i]) || (buckets[i].calls == None && ns[i] == 0)
  }

  /** Of the numbers in ns those written for the hour. */
  function ForHour(buckets: seq<Bucket>, ns: seq<int>, hour: int): seq<int>
    requires |ns| == |buckets|
  {
    seq(|ns|, i requires 0 <= i < |ns| => if buckets[i].hour == hour then ns[i] else 0)
  }

  lemma {:induction false} WrittenSum(buckets: seq<Bucket>, ns: seq<int>, hour: int)
    requires Written(buckets, ns)
    ensures CallsIn(buckets) == SumOf(ns)
    ensures CallsAt(buckets, hour) == SumOf(ForHour(buckets, ns, hour))
  {
    if buckets == [] {
    } else {
      var n := |buckets| - 1;
      WrittenSum(buckets[..n], ns[..n], hour);
      assert ForHour(buckets, ns, hour)[..n] == ForHour(buckets[..n], ns[..n], hour);
    }
  }

  /** The merge shows the plain sum of the numbers written, over all and hour by hour. */
  lemma {:induction false} MergedSums(payloads: seq<Payload>, ns: seq<int>, i: nat)
    requires |payloads| > 1 && Written(AllBuckets(payloads), ns)
    ensures Merged(payloads).payload.total == Some(SumOf(ns))
    ensures i < |Merged(payloads).payload.hours| ==>
              var bucket := Merged(payloads).payload.hours[i];
              bucket.calls == Some(SumOf(ForHour(AllBuckets(payloads), ns, bucket.hour)))
  {
    hide Written, SumOf, ForHour, MergedHours;
    TotalConserved(payloads);
    HoursExact(payloads);
    WrittenSum(AllBuckets(payloads), ns, 0);
    if i < |Merged(payloads).payload.hours| {
      WrittenSum(AllBuckets(payloads), ns, Merged(payloads).payload.hours[i].hour);
    }
  }

  /** An hour is labelled as its first bucket labels it. */
  lemma {:induction false} LabelIsFirst(buckets: seq<Bucket>, i: nat)
    requires i < |buckets| && forall j :: 0 <= j < i ==> buckets[j].hour != buckets[i].hour
    ensures buckets[i].hour in HoursSeen(buckets)
    ensures LabelOf(buckets, buckets[i].hour) == buckets[i].text
  {
    var n := |buckets| - 1;
    assert buckets[i] in buckets;
    if i < n {
      LabelIsFirst(buckets[..n], i);
    }
  }

  /** A payload is listed under its extension, or under its position when it names none. */
  lemma {:induction false} ListedAs(payloads: seq<Payload>, i: nat)
    requires i < |payloads|
    ensures payloads[i].extension.Some? ==> NameOf(payloads, i) == payloads[i].extension.value
    ensures payloads[i].extension.None? ==> NameOf(payloads, i) == "#" + Text.Decimal(i)
  {
  }
}
