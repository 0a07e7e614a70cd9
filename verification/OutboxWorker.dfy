/**
 apps/outbox/tasks.py: `dispatch_pending_outbox_events` as one uninterrupted pass, and what a
 backlog looks like after any number of passes.
*/
module OutboxWorker {
  import opened Wrappers
  import opened Ordering
  import opened Outbox
  import opened OutboxSerial

  /** What `group_send` did: returned, or raised with the message published or not. */
  datatype Outcome = Returned | Raised(delivered: bool)

  function Stamps(table: map<int, Record>): map<int, nat> {
    map id | id in table :: table[id].event.createdAt
  }

  function StampOf(stamps: map<int, nat>, id: int): nat {
    if id in stamps then stamps[id] else 0
  }

  /** Creation order, with equal timestamps in a fixed order. */
  function ByAge(stamps: map<int, nat>): (int, int) -> bool {
    (a: int, b: int) =>
      StampOf(stamps, a) < StampOf(stamps, b) || (StampOf(stamps, a) == StampOf(stamps, b) && a <= b)
  }

  lemma {:induction false} ByAgeIsTotalOrder(stamps: map<int, nat>)
    ensures TotalOrder(ByAge(stamps))
  {
  }

  /** `filter(status=PENDING).order_by("created_at")` */
  function Queue(table: map<int, Record>): (ids: seq<int>)
    ensures |ids| == |PendingIds(table)|
  {
    ByAgeIsTotalOrder(Stamps(table));
    Ascending(PendingIds(table), ByAge(Stamps(table)))
  }

  lemma {:induction false} QueueMembers(table: map<int, Record>)
    ensures forall id :: id in Queue(table) <==> id in PendingIds(table)
    ensures forall i :: 0 <= i < |Queue(table)| ==> Queue(table)[i] in PendingIds(table)
    ensures Distinct(Queue(table))
  {
    ByAgeIsTotalOrder(Stamps(table));
    AscendingIsStrict(PendingIds(table), ByAge(Stamps(table)));
    AscendingMembers(PendingIds(table), ByAge(Stamps(table)));
  }

  lemma {:induction false} QueueByAge(table: map<int, Record>, i: nat, j: nat)
    requires i < j < |Queue(table)|
    ensures Queue(table)[i] in table && Queue(table)[j] in table
    ensures table[Queue(table)[i]].event.createdAt <= table[Queue(table)[j]].event.createdAt
  {
    ByAgeIsTotalOrder(Stamps(table));
    AscendingIsStrict(PendingIds(table), ByAge(Stamps(table)));
    AscendingMembers(PendingIds(table), ByAge(Stamps(table)));
    var queue := Queue(table);
    assert queue[i] in queue && queue[j] in queue;
    assert ByAge(Stamps(table))(queue[i], queue[j]);
  }

  function EventsOf(table: map<int, Record>, ids: seq<int>): (batch: seq<(int, Event)>)
    requires forall i :: 0 <= i < |ids| ==> ids[i] in table
    ensures |batch| == |ids|
    ensures forall i :: 0 <= i < |ids| ==> batch[i] == (ids[i], table[ids[i]].event)
  {
    seq(|ids|, i requires 0 <= i < |ids| => (ids[i], table[ids[i]].event))
  }

  /** The slice `[:BATCH_SIZE]` of the queue. */
  function FirstBatch(table: map<int, Record>): (batch: seq<(int, Event)>)
    ensures |batch| == Min(BATCH_SIZE, |Queue(table)|)
  {
    QueueMembers(table);
    EventsOf(table, Queue(table)[..Min(BATCH_SIZE, |Queue(table)|)])
  }

  lemma {:induction false} FirstBatchIds(table: map<int, Record>)
    ensures Ids(FirstBatch(table)) == Queue(table)[..|FirstBatch(table)|]
    ensures forall i :: 0 <= i < |FirstBatch(table)| ==>
              Queue(table)[i] in table && FirstBatch(table)[i] == (Queue(table)[i], table[Queue(table)[i]].event)
  {
    QueueMembers(table);
  }

  function Min(a: nat, b: nat): nat {
    if a < b then a else b
  }

  /** The pass fetches an answer the protocol allows. */
  lemma {:induction false} FirstBatchIsBatch(table: map<int, Record>)
    ensures IsBatch(table, FirstBatch(table))
  {
    hide Queue;
    var queue, batch := Queue(table), FirstBatch(table);
    FirstBatchIds(table);
    QueueMembers(table);
    forall i, j | 0 <= i < j < |batch|
      ensures batch[i].1.createdAt <= batch[j].1.createdAt
    {
      QueueByAge(table, i, j);
    }
    forall id, i | id in PendingIds(table) && id !in Ids(batch) && 0 <= i < |batch|
      ensures batch[i].1.createdAt <= table[id].event.createdAt
    {
      var j :| 0 <= j < |queue| && queue[j] == id;
      assert forall x :: 0 <= x < |batch| ==> Ids(batch)[x] == queue[x];
      QueueByAge(table, i, j);
    }
  }

  // ---------------------------------------------------------------------------
  // One pass
  // ---------------------------------------------------------------------------

  /** The table after the first n events of the batch. */
  function PassTable(table: map<int, Record>, batch: seq<(int, Event)>, outcome: nat -> Outcome, now: nat -> nat,
                     n: nat)
    : map<int, Record>
    requires n <= |batch|
  {
    if n == 0 then table
    else Marked(PassTable(table, batch, outcome, now, n - 1), batch[n - 1].0, outcome(n - 1).Returned?, now(n - 1))
  }

  function AttemptAt(batch: seq<(int, Event)>, outcome: nat -> Outcome, i: nat): Attempt
    requires i < |batch|
  {
    var (id, event) := batch[i];
    Attempt(id, GroupOf(event), MessageOf(event), outcome(i).Returned? || outcome(i).delivered)
  }

  function PassAttempts(batch: seq<(int, Event)>, outcome: nat -> Outcome, n: nat): (r: seq<Attempt>)
    requires n <= |batch|
    ensures |r| == n
    ensures forall i :: 0 <= i < n ==> r[i].id == batch[i].0
  {
    if n == 0 then [] else PassAttempts(batch, outcome, n - 1) + [AttemptAt(batch, outcome, n - 1)]
  }

  function ReturnedCount(outcome: nat -> Outcome, n: nat): nat {
    if n == 0 then 0 else ReturnedCount(outcome, n - 1) + (if outcome(n - 1).Returned? then 1 else 0)
  }

  /** The outbox table and the channel layer as one worker sees them. */
  class Dispatcher {
    var table: map<int, Record>
    var attempts: seq<Attempt>

    /** The loop over the fetched events; `now(i)` is the clock when the i-th event is marked. */
    method Publish(events: seq<(int, Event)>, outcome: nat -> Outcome, now: nat -> nat) returns (dispatched: nat)
      modifies this
      ensures table == PassTable(old(table), events, outcome, now, |events|)
      ensures attempts == old(attempts) + PassAttempts(events, outcome, |events|)
      ensures dispatched == ReturnedCount(outcome, |events|)
    {
      hide GroupOf, MessageOf;
      dispatched := 0;
      for i := 0 to |events|
        invariant table == PassTable(old(table), events, outcome, now, i)
        invariant attempts == old(attempts) + PassAttempts(events, outcome, i)
        invariant dispatched == ReturnedCount(outcome, i)
      {
        var (id, event) := events[i];
        var result := outcome(i);
        attempts := attempts + [Attempt(id, GroupOf(event), MessageOf(event), result.Returned? || result.delivered)];
        assert attempts == old(attempts) + PassAttempts(events, outcome, i + 1);
        if result.Raised? {
          if id in table {
            table := table[id := table[id].(status := Failed)];
          }
          continue;
        }
        if id in table {
          table := table[id := table[id].(status := Dispatched, dispatchedAt := Some(now(i)))];
        }
        dispatched := dispatched + 1;
      }
    }

    /** `dispatch_pending_outbox_events` */
    method DispatchPending(hasChannelLayer: bool, outcome: nat -> Outcome, now: nat -> nat) returns (dispatched: nat)
      modifies this
      ensures !hasChannelLayer ==> dispatched == 0 && table == old(table) && attempts == old(attempts)
      ensures hasChannelLayer ==>
                var batch := FirstBatch(old(table));
                && table == PassTable(old(table), batch, outcome, now, |batch|)
                && attempts == old(attempts) + PassAttempts(batch, outcome, |batch|)
                && dispatched == ReturnedCount(outcome, |batch|)
    {
      if !hasChannelLayer {
        return 0;
      }
      var events := FirstBatch(table);
      dispatched := Publish(events, outcome, now);
    }
  }

  // ---------------------------------------------------------------------------
  // The pass is a serial run of the protocol
  // ---------------------------------------------------------------------------

  function ClockAt(start: nat, now: nat -> nat, n: nat): nat {
    if n == 0 then start else now(n - 1)
  }

  /** The clock readings of a pass started at `start` never go back. */
  ghost predicate ClockMoves(start: nat, now: nat -> nat, n: nat) {
    n == 0 || (ClockMoves(start, now, n - 1) && ClockAt(start, now, n - 1) <= now(n - 1))
  }

  ghost function MidPass(s: State, batch: seq<(int, Event)>, w: int, outcome: nat -> Outcome, now: nat -> nat,
                         n: nat): State
    requires n <= |batch|
  {
    State(PassTable(s.table, batch, outcome, now, n), s.open, map[w := Worker(batch, n, None)],
          s.attempts + PassAttempts(batch, outcome, n), ClockAt(s.clock, now, n))
  }

  lemma {:induction false} PassSend(s: State, batch: seq<(int, Event)>, w: int, outcome: nat -> Outcome, n: nat)
    requires n < |batch| && s.workers == map[w := Worker(batch, n, None)] && Reachable(s)
    ensures Reachable(s.(workers := map[w := Worker(batch, n, Some(outcome(n).Returned?))],
                         attempts := s.attempts + [AttemptAt(batch, outcome, n)]))
  {
    ReachStep(s, Send(w, outcome(n).Returned? || outcome(n).delivered, outcome(n).Returned?));
    assert s.workers[w := Worker(batch, n, Some(outcome(n).Returned?))] ==
           map[w := Worker(batch, n, Some(outcome(n).Returned?))];
  }

  lemma {:induction false} PassMark(s: State, batch: seq<(int, Event)>, w: int, returned: bool, n: nat)
    requires n < |batch| && s.workers == map[w := Worker(batch, n, Some(returned))] && Reachable(s)
    ensures Reachable(s.(workers := map[w := Worker(batch, n + 1, None)],
                         table := Marked(s.table, batch[n].0, returned, s.clock)))
  {
    ReachStep(s, Mark(w));
    assert s.workers[w := Worker(batch, n + 1, None)] == map[w := Worker(batch, n + 1, None)];
  }

  lemma {:induction false} PassTick(s: State, t: nat)
    requires Reachable(s) && s.clock <= t
    ensures Reachable(s.(clock := t))
  {
    ReachStep(s, Tick(t - s.clock));
  }

  lemma {:induction false} PassStep(s: State, batch: seq<(int, Event)>, w: int, outcome: nat -> Outcome,
                                    now: nat -> nat, n: nat)
    requires n < |batch| && ClockAt(s.clock, now, n) <= now(n)
    requires Reachable(MidPass(s, batch, w, outcome, now, n))
    ensures Reachable(MidPass(s, batch, w, outcome, now, n + 1))
  {
    var s0 := MidPass(s, batch, w, outcome, now, n);
    PassesExtend(s, batch, outcome, now, n);
    hide Reachable, Marked, AttemptAt, PassTable, PassAttempts;
    PassSend(s0, batch, w, outcome, n);
    var s1 := s0.(workers := map[w := Worker(batch, n, Some(outcome(n).Returned?))],
                  attempts := s0.attempts + [AttemptAt(batch, outcome, n)]);
    PassTick(s1, now(n));
    var s2 := s1.(clock := now(n));
    PassMark(s2, batch, w, outcome(n).Returned?, n);
  }

  lemma {:induction false} PassesExtend(s: State, batch: seq<(int, Event)>, outcome: nat -> Outcome, now: nat -> nat,
                                        n: nat)
    requires n < |batch|
    ensures PassTable(s.table, batch, outcome, now, n + 1) ==
            Marked(PassTable(s.table, batch, outcome, now, n), batch[n].0, outcome(n).Returned?, now(n))
    ensures s.attempts + PassAttempts(batch, outcome, n + 1) ==
            s.attempts + PassAttempts(batch, outcome, n) + [AttemptAt(batch, outcome, n)]
  {
    hide Marked, AttemptAt;
  }

  lemma {:induction false} PassSteps(s: State, batch: seq<(int, Event)>, w: int, outcome: nat -> Outcome,
                                     now: nat -> nat, n: nat)
    requires n <= |batch| && Reachable(MidPass(s, batch, w, outcome, now, 0))
    requires ClockMoves(s.clock, now, n)
    ensures Reachable(MidPass(s, batch, w, outcome, now, n))
  {
    hide Reachable, MidPass;
    if n == 0 {
    } else {
      PassSteps(s, batch, w, outcome, now, n - 1);
      PassStep(s, batch, w, outcome, now, n - 1);
    }
  }

  /** A pass started in any reachable idle state ends in a state the protocol reaches. */
  lemma {:induction false} PassIsSerialRun(s: State, outcome: nat -> Outcome, now: nat -> nat)
    requires Reachable(s) && Idle(s)
    requires ClockMoves(s.clock, now, |FirstBatch(s.table)|)
    ensures var batch := FirstBatch(s.table);
            Reachable(State(PassTable(s.table, batch, outcome, now, |batch|), s.open, map[],
                            s.attempts + PassAttempts(batch, outcome, |batch|), ClockAt(s.clock, now, |batch|)))
  {
    var batch := FirstBatch(s.table);
    FirstBatchIsBatch(s.table);
    RunBatch(s, batch, outcome, now);
  }

  lemma {:induction false} NoWorkers(workers: map<int, Worker>)
    requires forall w :: w !in workers
    ensures workers == map[]
  {
    assert forall w :: w !in workers.Keys;
  }

  lemma {:induction false} RunBatch(s: State, batch: seq<(int, Event)>, outcome: nat -> Outcome, now: nat -> nat)
    requires Reachable(s) && Idle(s) && IsBatch(s.table, batch) && ClockMoves(s.clock, now, |batch|)
    ensures Reachable(State(PassTable(s.table, batch, outcome, now, |batch|), s.open, map[],
                            s.attempts + PassAttempts(batch, outcome, |batch|), ClockAt(s.clock, now, |batch|)))
  {
    var n := |batch|;
    NoWorkers(s.workers);
    assert s.attempts + PassAttempts(batch, outcome, 0) == s.attempts;
    ReachStep(s, Fetch(0, batch));
    assert s.workers[0 := Worker(batch, 0, None)] == map[0 := Worker(batch, 0, None)];
    PassSteps(s, batch, 0, outcome, now, n);
    StopDone(MidPass(s, batch, 0, outcome, now, n), batch);
  }

  lemma {:induction false} StopDone(s: State, batch: seq<(int, Event)>)
    requires Reachable(s) && s.workers == map[0 := Worker(batch, |batch|, None)]
    ensures Reachable(s.(workers := map[]))
  {
    ReachStep(s, Stop(0));
    assert s.workers - {0} == map[];
  }

  // ---------------------------------------------------------------------------
  // Draining a backlog
  // ---------------------------------------------------------------------------

  lemma {:induction false} QueueRest(table: map<int, Record>, table': map<int, Record>, n: nat)
    requires n <= |Queue(table)| && Stamps(table') == Stamps(table)
    requires PendingIds(table') == PendingIds(table) - Members(Queue(table)[..n])
    ensures Queue(table') == Queue(table)[n..]
  {
    ByAgeIsTotalOrder(Stamps(table));
    AscendingRest(PendingIds(table), ByAge(Stamps(table)), n);
  }

  lemma {:induction false} PassMarks(table: map<int, Record>, batch: seq<(int, Event)>, outcome: nat -> Outcome,
                                     now: nat -> nat, n: nat)
    requires n <= |batch|
    ensures Stamps(PassTable(table, batch, outcome, now, n)) == Stamps(table)
    ensures PendingIds(PassTable(table, batch, outcome, now, n)) == PendingIds(table) - Members(Ids(batch)[..n])
  {
    if n == 0 {
    } else {
      PassMarks(table, batch, outcome, now, n - 1);
      var t := PassTable(table, batch, outcome, now, n - 1);
      var t' := Marked(t, batch[n - 1].0, outcome(n - 1).Returned?, now(n - 1));
      assert Stamps(t') == Stamps(t);
      assert PendingIds(t') == PendingIds(t) - {batch[n - 1].0};
      assert Ids(batch)[..n] == Ids(batch)[..n - 1] + [batch[n - 1].0];
    }
  }

  /** A pass takes the oldest min(500, pending) events off the queue and leaves the rest as it was. */
  lemma {:induction false} PassAdvancesQueue(table: map<int, Record>, outcome: nat -> Outcome, now: nat -> nat)
    ensures var batch := FirstBatch(table);
            Queue(PassTable(table, batch, outcome, now, |batch|)) == Queue(table)[|batch|..]
  {
    var batch := FirstBatch(table);
    var n := |batch|;
    PassMarks(table, batch, outcome, now, n);
    FirstBatchIds(table);
    assert Ids(batch)[..n] == Ids(batch);
    QueueRest(table, PassTable(table, batch, outcome, now, n), n);
  }

  /** The table after k passes with no commit in between; pass p has its own outcomes and clock. */
  function Passes(table: map<int, Record>, outcome: nat -> nat -> Outcome, now: nat -> nat -> nat, k: nat)
    : map<int, Record>
  {
    if k == 0 then table
    else
      var t := Passes(table, outcome, now, k - 1);
      var batch := FirstBatch(t);
      PassTable(t, batch, outcome(k - 1), now(k - 1), |batch|)
  }

  function PassesAttempts(table: map<int, Record>, outcome: nat -> nat -> Outcome, now: nat -> nat -> nat,
                          k: nat): seq<Attempt> {
    if k == 0 then []
    else
      var batch := FirstBatch(Passes(table, outcome, now, k - 1));
      PassesAttempts(table, outcome, now, k - 1) + PassAttempts(batch, outcome(k - 1), |batch|)
  }

  /** After k passes the n oldest events have been sent, once each and in order; the rest still queue. */
  ghost predicate Served(table: map<int, Record>, outcome: nat -> nat -> Outcome, now: nat -> nat -> nat, k: nat,
                         n: nat) {
    && n <= |Queue(table)|
    && AttemptIds(PassesAttempts(table, outcome, now, k)) == Queue(table)[..n]
    && Queue(Passes(table, outcome, now, k)) == Queue(table)[n..]
  }

  lemma {:induction false} ServedNext(table: map<int, Record>, outcome: nat -> nat -> Outcome, now: nat -> nat -> nat,
                                      k: nat, n: nat)
    requires Served(table, outcome, now, k, n)
    ensures Served(table, outcome, now, k + 1, n + Min(BATCH_SIZE, |Queue(table)| - n))
  {
    hide Queue, FirstBatch, PassTable, PassAttempts, AttemptIds;
    var t, earlier := Passes(table, outcome, now, k), PassesAttempts(table, outcome, now, k);
    ServeNext(t, Queue(table), n, outcome(k), now(k), earlier);
  }

  lemma {:induction false} NextServed(k: nat, n: nat)
    ensures var before := Min(k * BATCH_SIZE, n);
            before + Min(BATCH_SIZE, n - before) == Min((k + 1) * BATCH_SIZE, n)
  {
  }

  lemma {:induction false} ServedStep(table: map<int, Record>, outcome: nat -> nat -> Outcome, now: nat -> nat -> nat,
                                      k: nat)
    requires Served(table, outcome, now, k, Min(k * BATCH_SIZE, |Queue(table)|))
    ensures Served(table, outcome, now, k + 1, Min((k + 1) * BATCH_SIZE, |Queue(table)|))
  {
    hide Served, Queue, Min;
    ServedNext(table, outcome, now, k, Min(k * BATCH_SIZE, |Queue(table)|));
    NextServed(k, |Queue(table)|);
  }

  lemma {:induction false} ServedNone(table: map<int, Record>, outcome: nat -> nat -> Outcome, now: nat -> nat -> nat)
    ensures Served(table, outcome, now, 0, 0)
  {
  }

  /** After k passes exactly the 500 * k oldest events (or all of them) have been sent. */
  lemma {:induction false} PassesServeQueue(table: map<int, Record>, outcome: nat -> nat -> Outcome,
                                            now: nat -> nat -> nat, k: nat)
    ensures Served(table, outcome, now, k, Min(k * 500, |Queue(table)|))
  {
    ServedNone(table, outcome, now);
    for j := 0 to k
      invariant Served(table, outcome, now, j, Min(j * BATCH_SIZE, |Queue(table)|))
    {
      ServedStep(table, outcome, now, j);
    }
  }

  lemma {:induction false} ServeNext(t: map<int, Record>, queue: seq<int>, before: nat, outcome: nat -> Outcome,
                                     now: nat -> nat, earlier: seq<Attempt>)
    requires before <= |queue| && Queue(t) == queue[before..] && AttemptIds(earlier) == queue[..before]
    ensures var batch := FirstBatch(t);
            && |batch| == Min(BATCH_SIZE, |queue| - before)
            && Queue(PassTable(t, batch, outcome, now, |batch|)) == queue[before + |batch|..]
            && AttemptIds(earlier + PassAttempts(batch, outcome, |batch|)) == queue[..before + |batch|]
  {
    var n := |FirstBatch(t)|;
    PassAdvancesQueue(t, outcome, now);
    SplitQueue(queue, before, n);
    SendsHead(t, outcome);
    AttemptIdsConcat(earlier, PassAttempts(FirstBatch(t), outcome, n));
  }

  /** A pass sends the head of the queue, in order. */
  lemma {:induction false} SendsHead(t: map<int, Record>, outcome: nat -> Outcome)
    ensures AttemptIds(PassAttempts(FirstBatch(t), outcome, |FirstBatch(t)|)) == Queue(t)[..|FirstBatch(t)|]
  {
  }

  lemma {:induction false} SplitQueue(queue: seq<int>, i: nat, n: nat)
    requires i + n <= |queue|
    ensures queue[i..][n..] == queue[i + n..]
    ensures queue[i..][..n] == queue[i..i + n]
    ensures queue[..i] + queue[i..i + n] == queue[..i + n]
  {
  }

  lemma {:induction false} AttemptIdsConcat(a: seq<Attempt>, b: seq<Attempt>)
    ensures AttemptIds(a + b) == AttemptIds(a) + AttemptIds(b)
  {
  }

  lemma {:induction false} PassesPending(table: map<int, Record>, outcome: nat -> nat -> Outcome,
                                         now: nat -> nat -> nat, k: nat)
    ensures |PendingIds(Passes(table, outcome, now, k))|
            == |PendingIds(table)| - Min(k * BATCH_SIZE, |PendingIds(table)|)
  {
    PassesServeQueue(table, outcome, now, k);
    assert |Queue(table)| == |PendingIds(table)|;
  }

  lemma {:induction false} RoundedUp(n: nat, k: nat)
    ensures k * BATCH_SIZE >= n <==> k >= (n + BATCH_SIZE - 1) / BATCH_SIZE
  {
  }

  /** Each pass lowers the pending count by exactly min(500, pending). */
  lemma {:induction false} PassLowersPending(table: map<int, Record>, outcome: nat -> Outcome, now: nat -> nat)
    ensures var batch := FirstBatch(table);
            |PendingIds(PassTable(table, batch, outcome, now, |batch|))|
            == |PendingIds(table)| - Min(500, |PendingIds(table)|)
  {
    PassAdvancesQueue(table, outcome, now);
    assert |Queue(table)| == |PendingIds(table)|;
  }

  lemma {:induction false} NonePending(table: map<int, Record>)
    ensures |PendingIds(table)| == 0 <==> forall id :: id in table ==> table[id].status != Pending
  {
    if |PendingIds(table)| == 0 {
      forall id | id in table
        ensures table[id].status != Pending
      {
        assert id !in PendingIds(table);
      }
    } else {
      var id := Member(PendingIds(table));
      assert table[id].status == Pending;
    }
  }

  /** A backlog of n pending events is empty after k passes exactly when k >= n / 500 rounded up. */
  lemma {:induction false} BacklogDrains(table: map<int, Record>, outcome: nat -> nat -> Outcome,
                                         now: nat -> nat -> nat, k: nat)
    ensures var waiting := set id | id in table && table[id].status == Pending;
            var after := Passes(table, outcome, now, k);
            (forall id :: id in after ==> after[id].status != Pending) <==> k >= (|waiting| + 499) / 500
  {
    var after := Passes(table, outcome, now, k);
    NonePending(after);
    assert (set id | id in table && table[id].status == Pending) == PendingIds(table);
    hide Passes, PendingIds;
    PassesPending(table, outcome, now, k);
    RoundedUp(|PendingIds(table)|, k);
  }
}
