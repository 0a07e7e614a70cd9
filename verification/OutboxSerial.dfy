/**
 apps/outbox/tasks.py when dispatcher runs neither overlap nor die: every event is attempted at
 most once, an idle worker leaves exactly the unattempted events pending, and sends within a
 group follow creation order exactly when no transaction commits an event stamped earlier than
 one already fetched for that group.
*/
module OutboxSerial {
  import opened Wrappers
  import opened Outbox

  ghost predicate Idle(s: State) {
    forall w :: w !in s.workers
  }

  ghost predicate SerialStep(s: State, a: Action) {
    && (a.Fetch? ==> Idle(s))
    && (a.Stop? && a.worker in s.workers ==> s.workers[a.worker].pos == |s.workers[a.worker].batch|)
  }

  ghost predicate IsSerialRun(states: seq<State>, acts: seq<Action>) {
    && IsRun(states, acts)
    && forall k {:trigger acts[k]} :: 0 <= k < |acts| ==> SerialStep(states[k], acts[k])
  }

  function AttemptIds(attempts: seq<Attempt>): (r: seq<int>)
    ensures |r| == |attempts|
    ensures forall i :: 0 <= i < |r| ==> r[i] == attempts[i].id
  {
    seq(|attempts|, i requires 0 <= i < |attempts| => attempts[i].id)
  }

  /** The fetched events a run has not sent yet. */
  function Rest(w: Worker): seq<int>
    requires w.pos <= |w.batch| && (w.answer.Some? ==> w.pos < |w.batch|)
  {
    Ids(w.batch)[w.pos + (if w.answer.Some? then 1 else 0)..]
  }

  ghost predicate Sole(s: State) {
    forall w, w' :: w in s.workers && w' in s.workers ==> w == w'
  }

  ghost predicate InFlight(s: State, id: int) {
    exists w :: w in s.workers && s.workers[w].answer.Some? &&
      s.workers[w].pos < |s.workers[w].batch| && s.workers[w].batch[s.workers[w].pos].0 == id
  }

  /** Everything fetched so far, in the order it was or will be sent. */
  ghost function Planned(s: State): seq<int>
    requires AnswersHonest(s)
  {
    if Idle(s) then AttemptIds(s.attempts)
    else
      var w :| w in s.workers;
      AttemptIds(s.attempts) + Rest(s.workers[w])
  }

  lemma {:induction false} PlannedOf(s: State, w: int)
    requires AnswersHonest(s) && Sole(s) && w in s.workers
    ensures Planned(s) == AttemptIds(s.attempts) + Rest(s.workers[w])
  {
  }

  lemma {:induction false} SoleStep(s: State, a: Action)
    requires Sole(s) && Enabled(s, a) && SerialStep(s, a)
    ensures Sole(Apply(s, a))
  {
  }

  lemma {:induction false} PlannedFetch(s: State, a: Action)
    requires Enabled(s, a) && a.Fetch? && Idle(s)
    requires AnswersHonest(s) && AnswersHonest(Apply(s, a)) && Sole(Apply(s, a))
    ensures Planned(Apply(s, a)) == Planned(s) + Ids(a.batch)
  {
    PlannedOf(Apply(s, a), a.worker);
    assert Rest(Worker(a.batch, 0, None)) == Ids(a.batch);
  }

  lemma {:induction false} DropHead(ids: seq<int>, k: nat)
    requires k < |ids|
    ensures ids[k..] == [ids[k]] + ids[k + 1..]
  {
  }

  lemma {:induction false} PlannedSend(s: State, a: Action)
    requires Enabled(s, a) && a.Send?
    requires AnswersHonest(s) && AnswersHonest(Apply(s, a)) && Sole(s) && Sole(Apply(s, a))
    ensures Planned(Apply(s, a)) == Planned(s)
  {
    hide Planned, AnswersHonest, Sole, GroupOf, MessageOf, Rest;
    var s' := Apply(s, a);
    var w := s.workers[a.worker];
    assert AttemptIds(s'.attempts) == AttemptIds(s.attempts) + [w.batch[w.pos].0];
    RestAfterSend(w, a.returned);
    PlannedOf(s, a.worker);
    PlannedOf(s', a.worker);
    assert s'.workers[a.worker] == w.(answer := Some(a.returned));
  }

  lemma {:induction false} RestAfterSend(w: Worker, returned: bool)
    requires w.pos < |w.batch| && w.answer.None?
    ensures Rest(w) == [w.batch[w.pos].0] + Rest(w.(answer := Some(returned)))
  {
    DropHead(Ids(w.batch), w.pos);
  }

  lemma {:induction false} PlannedMark(s: State, a: Action)
    requires Enabled(s, a) && a.Mark?
    requires AnswersHonest(s) && AnswersHonest(Apply(s, a)) && Sole(s) && Sole(Apply(s, a))
    ensures Planned(Apply(s, a)) == Planned(s)
  {
    PlannedOf(s, a.worker);
    PlannedOf(Apply(s, a), a.worker);
    hide Planned, Sole, Marked;
    assert Rest(Apply(s, a).workers[a.worker]) == Rest(s.workers[a.worker]);
  }

  lemma {:induction false} PlannedStop(s: State, a: Action)
    requires Enabled(s, a) && a.Stop? && SerialStep(s, a)
    requires AnswersHonest(s) && AnswersHonest(Apply(s, a)) && Sole(s)
    ensures Planned(Apply(s, a)) == Planned(s)
  {
    PlannedOf(s, a.worker);
    assert Idle(Apply(s, a));
  }

  /** A step never changes what is already planned; only a fetch adds to it. */
  lemma {:induction false} PlannedStep(s: State, a: Action)
    requires Safe(s) && Sole(s) && Enabled(s, a) && SerialStep(s, a)
    ensures Safe(Apply(s, a)) && Sole(Apply(s, a))
    ensures Planned(Apply(s, a)) == Planned(s) + (if a.Fetch? then Ids(a.batch) else [])
  {
    StepSafe(s, a);
    SoleStep(s, a);
    match a
    case Fetch(_, _) => PlannedFetch(s, a);
    case Send(_, _, _) => PlannedSend(s, a);
    case Mark(_) => PlannedMark(s, a);
    case Stop(_) => PlannedStop(s, a);
    case _ =>
      assert Apply(s, a).workers == s.workers && Apply(s, a).attempts == s.attempts;
  }

  // ---------------------------------------------------------------------------
  // Attempted at most once
  // ---------------------------------------------------------------------------

  /** Pending means not sent, or sent and awaiting its mark. */
  ghost predicate PendingMeansUnsent(s: State) {
    forall id :: id in s.table ==>
      (s.table[id].status == Pending <==> id !in AttemptIds(s.attempts) || InFlight(s, id))
  }

  ghost predicate InFlightSent(s: State) {
    forall w :: w in s.workers && s.workers[w].answer.Some? && s.workers[w].pos < |s.workers[w].batch| ==>
      s.workers[w].batch[s.workers[w].pos].0 in AttemptIds(s.attempts)
  }

  ghost predicate SerialInv(s: State) {
    && Safe(s) && Sole(s)
    && InFlightSent(s)
    && Distinct(Planned(s))
    && (forall id :: id in Planned(s) ==> id in s.table)
    && PendingMeansUnsent(s)
  }

  lemma {:induction false} FetchKeeps(s: State, a: Action)
    requires SerialInv(s) && Enabled(s, a) && SerialStep(s, a) && a.Fetch?
    ensures SerialInv(Apply(s, a))
  {
    PlannedStep(s, a);
    var s' := Apply(s, a);
    assert s'.attempts == s.attempts && s'.table == s.table;
    assert forall id :: !InFlight(s, id) && !InFlight(s', id);
    forall i, j | 0 <= i < |Planned(s)| && 0 <= j < |a.batch|
      ensures Planned(s)[i] != Ids(a.batch)[j]
    {
      assert a.batch[j].0 in PendingIds(s.table);
      assert Planned(s)[i] in AttemptIds(s.attempts);
    }
    assert forall id :: id in Ids(a.batch) ==> id in s.table;
  }

  lemma {:induction false} SendEffect(s: State, a: Action)
    requires SerialInv(s) && Enabled(s, a) && a.Send?
    ensures var s', sent := Apply(s, a), s.workers[a.worker].batch[s.workers[a.worker].pos].0;
            && s'.table == s.table && sent in s.table && s.table[sent].status == Pending
            && AttemptIds(s'.attempts) == AttemptIds(s.attempts) + [sent]
            && (forall id :: !InFlight(s, id))
            && (forall id :: InFlight(s', id) <==> id == sent)
  {
    var s' := Apply(s, a);
    var w := s.workers[a.worker];
    var sent := w.batch[w.pos].0;
    assert AttemptIds(s'.attempts) == AttemptIds(s.attempts) + [sent];
    PlannedOf(s, a.worker);
    assert forall id :: !InFlight(s, id);
    hide Safe, GroupOf, MessageOf;
    assert Rest(w)[0] == sent;
    assert Planned(s)[|s.attempts|] == sent;
    assert sent in s.table;
    assert sent !in AttemptIds(s.attempts) by {
      forall i | 0 <= i < |s.attempts|
        ensures AttemptIds(s.attempts)[i] != sent
      {
        assert Planned(s)[i] == AttemptIds(s.attempts)[i];
      }
    }
    assert InFlight(s', sent) by {
      assert a.worker in s'.workers;
    }
    assert forall id :: InFlight(s', id) ==> id == sent;
  }

  lemma {:induction false} SentAwaitsMark(s: State, s': State, sent: int)
    requires PendingMeansUnsent(s) && s'.table == s.table && sent in s.table && s.table[sent].status == Pending
    requires AttemptIds(s'.attempts) == AttemptIds(s.attempts) + [sent]
    requires forall id :: !InFlight(s, id)
    requires forall id :: InFlight(s', id) <==> id == sent
    ensures PendingMeansUnsent(s') && InFlightSent(s')
  {
    hide AttemptIds;
    forall w | w in s'.workers && s'.workers[w].answer.Some? && s'.workers[w].pos < |s'.workers[w].batch|
      ensures s'.workers[w].batch[s'.workers[w].pos].0 in AttemptIds(s'.attempts)
    {
      assert InFlight(s', s'.workers[w].batch[s'.workers[w].pos].0);
    }
  }

  lemma {:induction false} SendKeeps(s: State, a: Action)
    requires SerialInv(s) && Enabled(s, a) && SerialStep(s, a) && a.Send?
    ensures SerialInv(Apply(s, a))
  {
    PlannedStep(s, a);
    SendEffect(s, a);
    var w := s.workers[a.worker];
    var sent := w.batch[w.pos].0;
    hide Apply, Enabled, SerialStep, Safe, Sole, Planned, AttemptIds, InFlight, InFlightSent, PendingMeansUnsent;
    SentAwaitsMark(s, Apply(s, a), sent);
  }

  lemma {:induction false} MarkEffect(s: State, a: Action)
    requires SerialInv(s) && Enabled(s, a) && a.Mark?
    ensures var s', marked := Apply(s, a), s.workers[a.worker].batch[s.workers[a.worker].pos].0;
            && s'.attempts == s.attempts && s'.table.Keys == s.table.Keys
            && marked in AttemptIds(s.attempts) && marked in s.table
            && s'.table[marked].status != Pending
            && (forall id :: id in s.table && id != marked ==> s'.table[id] == s.table[id])
            && (forall id :: InFlight(s, id) ==> id == marked)
            && (forall id :: !InFlight(s', id))
            && InFlightSent(s')
  {
    var w := s.workers[a.worker];
    var marked := w.batch[w.pos].0;
    PlannedOf(s, a.worker);
    hide Safe, Planned;
    assert InFlight(s, marked);
    var i :| 0 <= i < |s.attempts| && AttemptIds(s.attempts)[i] == marked;
    assert Planned(s)[i] == marked;
    assert marked in s.table;
  }

  lemma {:induction false} MarkSettles(s: State, s': State, marked: int)
    requires PendingMeansUnsent(s) && s'.attempts == s.attempts && s'.table.Keys == s.table.Keys
    requires marked in s.table && s'.table[marked].status != Pending && marked in AttemptIds(s.attempts)
    requires forall id :: id in s.table && id != marked ==> s'.table[id] == s.table[id]
    requires forall id :: InFlight(s, id) ==> id == marked
    requires forall id :: !InFlight(s', id)
    ensures PendingMeansUnsent(s')
  {
    hide AttemptIds, InFlight;
  }

  lemma {:induction false} MarkKeeps(s: State, a: Action)
    requires SerialInv(s) && Enabled(s, a) && SerialStep(s, a) && a.Mark?
    ensures SerialInv(Apply(s, a))
  {
    PlannedStep(s, a);
    MarkEffect(s, a);
    var w := s.workers[a.worker];
    var marked := w.batch[w.pos].0;
    hide Apply, Enabled, SerialStep, Safe, Sole, Planned, AttemptIds, InFlight, InFlightSent, PendingMeansUnsent;
    MarkSettles(s, Apply(s, a), marked);
  }

  lemma {:induction false} StopKeeps(s: State, a: Action)
    requires SerialInv(s) && Enabled(s, a) && SerialStep(s, a) && a.Stop?
    ensures SerialInv(Apply(s, a))
  {
    PlannedStep(s, a);
    assert forall id :: !InFlight(s, id) && !InFlight(Apply(s, a), id);
  }

  /** Transactions and the clock. */
  lemma {:induction false} QuietKeeps(s: State, a: Action)
    requires SerialInv(s) && Enabled(s, a) && SerialStep(s, a)
    requires !a.Fetch? && !a.Send? && !a.Mark? && !a.Stop?
    ensures SerialInv(Apply(s, a))
  {
    PlannedStep(s, a);
    var s' := Apply(s, a);
    assert s'.workers == s.workers && s'.attempts == s.attempts;
    assert forall id :: InFlight(s, id) <==> InFlight(s', id);
    assert forall k :: 0 <= k < |s.attempts| ==> s.attempts[k].id in s.table;
  }

  lemma {:induction false} StepKeeps(s: State, a: Action)
    requires SerialInv(s) && Enabled(s, a) && SerialStep(s, a)
    ensures SerialInv(Apply(s, a))
  {
    hide SerialInv, Apply, Enabled, SerialStep;
    match a
    case Fetch(_, _) => FetchKeeps(s, a);
    case Send(_, _, _) => SendKeeps(s, a);
    case Mark(_) => MarkKeeps(s, a);
    case Stop(w) => StopKeeps(s, a);
    case _ => QuietKeeps(s, a);
  }

  lemma {:induction false} StartsSerial()
    ensures SerialInv(INITIAL)
  {
  }

  lemma {:induction false} SerialRunInv(states: seq<State>, acts: seq<Action>, k: nat)
    requires IsSerialRun(states, acts) && k < |states|
    ensures SerialInv(states[k])
  {
    hide SerialInv, Apply, Enabled, SerialStep;
    if k == 0 {
      StartsSerial();
    } else {
      SerialRunInv(states, acts, k - 1);
      StepKeeps(states[k - 1], acts[k - 1]);
    }
  }

  /** No event is sent twice, and while no run is active the unsent events are the pending ones. */
  lemma {:induction false} SerialAtMostOnce(states: seq<State>, acts: seq<Action>, k: nat)
    requires IsSerialRun(states, acts) && k < |states|
    ensures Distinct(AttemptIds(states[k].attempts))
    ensures Idle(states[k]) ==>
              forall id :: id in states[k].table ==>
                (id in AttemptIds(states[k].attempts) <==> states[k].table[id].status != Pending)
  {
    SerialRunInv(states, acts, k);
    var s := states[k];
    assert AttemptIds(s.attempts) <= Planned(s);
    forall i, j | 0 <= i < j < |s.attempts|
      ensures AttemptIds(s.attempts)[i] != AttemptIds(s.attempts)[j]
    {
      assert Planned(s)[i] != Planned(s)[j];
    }
    assert Idle(s) ==> forall id :: !InFlight(s, id);
  }

  // ---------------------------------------------------------------------------
  // Creation order within a group
  // ---------------------------------------------------------------------------

  /** Event x must not be sent after event y: same group, and x is stamped earlier. */
  predicate Precedes(x: Event, y: Event) {
    GroupOf(x) == GroupOf(y) && x.createdAt < y.createdAt
  }

  ghost predicate InOrder(table: map<int, Record>, ids: seq<int>) {
    forall i, j :: 0 <= i < j < |ids| && ids[i] in table && ids[j] in table ==>
      !Precedes(table[ids[j]].event, table[ids[i]].event)
  }

  /** The sends so far follow creation order within every group. */
  ghost predicate CreationOrder(s: State) {
    InOrder(s.table, AttemptIds(s.attempts))
  }

  /** A commit that adds an event stamped earlier than one already fetched for its group. */
  ghost predicate Late(s: State, a: Action)
    requires AnswersHonest(s)
  {
    && a.Commit? && a.tx in s.open
    && exists id, p :: id in s.open[a.tx] && p in Planned(s) && p in s.table &&
         Precedes(s.open[a.tx][id], s.table[p].event)
  }

  ghost predicate Timely(states: seq<State>, acts: seq<Action>)
    requires IsRun(states, acts)
  {
    forall k :: 0 <= k < |acts| ==> AnswersHonest(states[k]) && !Late(states[k], acts[k])
  }

  ghost predicate OrderInv(s: State)
    requires AnswersHonest(s)
  {
    && InOrder(s.table, Planned(s))
    && forall id, p :: id in PendingIds(s.table) && id !in Planned(s) && p in Planned(s) && p in s.table ==>
         !Precedes(s.table[id].event, s.table[p].event)
  }

  lemma {:induction false} BatchInOrder(table: map<int, Record>, batch: seq<(int, Event)>)
    requires IsBatch(table, batch)
    ensures InOrder(table, Ids(batch))
    ensures forall id, p :: id in PendingIds(table) && id !in Ids(batch) && p in Ids(batch) && p in table ==>
              !Precedes(table[id].event, table[p].event)
  {
  }

  lemma {:induction false} AppendInOrder(table: map<int, Record>, before: seq<int>, ids: seq<int>)
    requires InOrder(table, before) && InOrder(table, ids)
    requires forall x, p :: x in ids && p in before && x in table && p in table ==>
               !Precedes(table[x].event, table[p].event)
    ensures InOrder(table, before + ids)
  {
    var all := before + ids;
    forall i, j | 0 <= i < j < |all| && all[i] in table && all[j] in table
      ensures !Precedes(table[all[j]].event, table[all[i]].event)
    {
      if j < |before| {
        assert all[i] == before[i] && all[j] == before[j];
      } else {
        var y := j - |before|;
        assert all[j] == ids[y];
        if i < |before| {
          assert all[i] == before[i];
        } else {
          var x := i - |before|;
          assert all[i] == ids[x];
        }
      }
    }
  }

  /** A fetch takes only events that were not planned, each of which respects what was planned. */
  lemma {:induction false} FetchedAreNew(s: State, a: Action, x: int)
    requires SerialInv(s) && Enabled(s, a) && SerialStep(s, a) && a.Fetch? && x in Ids(a.batch)
    ensures x in PendingIds(s.table) && x !in Planned(s)
  {
  }

  lemma {:induction false} FetchKeepsOrder(s: State, a: Action)
    requires SerialInv(s) && Enabled(s, a) && SerialStep(s, a) && a.Fetch?
    requires OrderInv(s) && SerialInv(Apply(s, a)) && Planned(Apply(s, a)) == Planned(s) + Ids(a.batch)
    ensures OrderInv(Apply(s, a))
  {
    var before, ids := Planned(s), Ids(a.batch);
    assert Apply(s, a).table == s.table;
    BatchInOrder(s.table, a.batch);
    forall x | x in ids
      ensures x in PendingIds(s.table) && x !in before
    {
      FetchedAreNew(s, a, x);
    }
    AppendInOrder(s.table, before, ids);
  }

  lemma {:induction false} CommitKeepsOrder(s: State, a: Action)
    requires SerialInv(s) && Enabled(s, a) && a.Commit? && !Late(s, a)
    requires OrderInv(s) && SerialInv(Apply(s, a)) && Planned(Apply(s, a)) == Planned(s)
    ensures OrderInv(Apply(s, a))
  {
    var s' := Apply(s, a);
    assert forall id :: id in s.table ==> s'.table[id] == s.table[id];
    assert forall p :: p in Planned(s) ==> p in s.table;
    forall id, p | id in PendingIds(s'.table) && id !in Planned(s') && p in Planned(s') && p in s'.table
      ensures !Precedes(s'.table[id].event, s'.table[p].event)
    {
      if id in s.table {
        assert id in PendingIds(s.table);
      } else {
        assert id in s.open[a.tx] && s'.table[id].event == s.open[a.tx][id];
      }
    }
  }

  lemma {:induction false} StepKeepsOrder(s: State, a: Action)
    requires SerialInv(s) && Enabled(s, a) && SerialStep(s, a) && !Late(s, a) && OrderInv(s)
    ensures SerialInv(Apply(s, a)) && OrderInv(Apply(s, a))
  {
    StepKeeps(s, a);
    InvParts(s);
    PlannedStep(s, a);
    hide SerialInv, Apply, Enabled, SerialStep, OrderInv, Late, Planned;
    if a.Fetch? {
      FetchKeepsOrder(s, a);
    } else {
      assert Planned(s) + [] == Planned(s);
      if a.Commit? {
        CommitKeepsOrder(s, a);
      } else {
        OtherKeepsOrder(s, a);
      }
    }
  }

  lemma {:induction false} InvParts(s: State)
    requires SerialInv(s)
    ensures Safe(s) && Sole(s) && AnswersHonest(s)
  {
  }

  lemma {:induction false} OtherKeepsOrder(s: State, a: Action)
    requires SerialInv(s) && Enabled(s, a) && !a.Fetch? && !a.Commit?
    requires OrderInv(s) && SerialInv(Apply(s, a)) && Planned(Apply(s, a)) == Planned(s)
    ensures OrderInv(Apply(s, a))
  {
    StepGrows(s, a);
    var s' := Apply(s, a);
    assert s'.table.Keys == s.table.Keys;
    assert forall id :: id in s.table ==> s'.table[id].event == s.table[id].event;
    assert forall id :: id in PendingIds(s'.table) ==> id in PendingIds(s.table);
  }

  lemma {:induction false} InOrderPrefix(table: map<int, Record>, ids: seq<int>, all: seq<int>)
    requires ids <= all && InOrder(table, all)
    ensures InOrder(table, ids)
  {
  }

  lemma {:induction false} StartsInOrder()
    ensures AnswersHonest(INITIAL) && OrderInv(INITIAL)
  {
  }

  lemma {:induction false} TimelyRunInv(states: seq<State>, acts: seq<Action>, k: nat)
    requires IsSerialRun(states, acts) && Timely(states, acts) && k < |states|
    ensures SerialInv(states[k]) && OrderInv(states[k])
  {
    hide SerialInv, OrderInv, Timely, AnswersHonest;
    if k == 0 {
      SerialRunInv(states, acts, 0);
      StartsInOrder();
    } else {
      TimelyRunInv(states, acts, k - 1);
      TimelyStep(states, acts, k - 1);
    }
  }

  lemma {:induction false} TimelyStep(states: seq<State>, acts: seq<Action>, k: nat)
    requires IsSerialRun(states, acts) && Timely(states, acts) && k < |acts|
    requires SerialInv(states[k]) && OrderInv(states[k])
    ensures SerialInv(states[k + 1]) && OrderInv(states[k + 1])
  {
    var s, a := states[k], acts[k];
    assert Enabled(s, a) && SerialStep(s, a) && !Late(s, a);
    StepKeepsOrder(s, a);
  }

  lemma {:induction false} TimelyRunOrder(states: seq<State>, acts: seq<Action>, k: nat)
    requires IsSerialRun(states, acts) && Timely(states, acts) && k < |states|
    ensures CreationOrder(states[k])
  {
    TimelyRunInv(states, acts, k);
    var s := states[k];
    InOrderPrefix(s.table, AttemptIds(s.attempts), Planned(s));
  }

  lemma {:induction false} PlannedGrowsStep(states: seq<State>, acts: seq<Action>, k: nat)
    requires IsSerialRun(states, acts) && k < |acts|
    ensures AnswersHonest(states[k]) && AnswersHonest(states[k + 1]) && Planned(states[k]) <= Planned(states[k + 1])
  {
    SerialRunInv(states, acts, k);
    SerialRunInv(states, acts, k + 1);
    var s, a := states[k], acts[k];
    assert Enabled(s, a) && SerialStep(s, a) && states[k + 1] == Apply(s, a);
    PlannedStep(s, a);
  }

  lemma {:induction false} PrefixChain(plans: seq<seq<int>>, i: nat, j: nat)
    requires i <= j < |plans|
    requires forall k :: 0 <= k < |plans| - 1 ==> plans[k] <= plans[k + 1]
    ensures plans[i] <= plans[j]
    decreases j
  {
    if i < j {
      PrefixChain(plans, i, j - 1);
      assert plans[j - 1] <= plans[j - 1 + 1];
    }
  }

  lemma {:induction false} Honest(states: seq<State>, acts: seq<Action>)
    requires IsSerialRun(states, acts)
    ensures forall k :: 0 <= k < |states| ==> AnswersHonest(states[k])
  {
    forall k | 0 <= k < |states|
      ensures AnswersHonest(states[k])
    {
      SerialRunInv(states, acts, k);
    }
  }

  lemma {:induction false} PlannedGrows(states: seq<State>, acts: seq<Action>, i: nat, j: nat)
    requires IsSerialRun(states, acts) && i <= j < |states|
    requires AnswersHonest(states[i]) && AnswersHonest(states[j])
    ensures Planned(states[i]) <= Planned(states[j])
  {
    Honest(states, acts);
    var plans := seq(|states|, k requires 0 <= k < |states| => Planned(states[k]));
    forall k | 0 <= k < |plans| - 1
      ensures plans[k] <= plans[k + 1]
    {
      PlannedGrowsStep(states, acts, k);
    }
    PrefixChain(plans, i, j);
  }

  /** A late commit shows once the backlog is drained: the late event was sent after a later-stamped one. */
  lemma {:induction false} LateCommitShows(states: seq<State>, acts: seq<Action>, k: nat, n: nat)
    requires IsSerialRun(states, acts) && k < |acts| && k < n < |states|
    requires AnswersHonest(states[k]) && Late(states[k], acts[k])
    requires Idle(states[n]) && PendingIds(states[n].table) == {}
    ensures !CreationOrder(states[n])
  {
    var s, t := states[k], states[n];
    SerialRunInv(states, acts, k);
    SerialRunInv(states, acts, n);
    PlannedGrows(states, acts, k, n);
    var id, p :| id in s.open[acts[k].tx] && p in Planned(s) && p in s.table &&
      Precedes(s.open[acts[k].tx][id], s.table[p].event);
    assert id !in s.table && id !in Planned(s);
    assert id in states[k + 1].table && states[k + 1].table[id].event == s.open[acts[k].tx][id];
    RunGrows(states, acts, k + 1, n);
    RunGrows(states, acts, k, n);
    SerialAtMostOnce(states, acts, n);
    assert id !in PendingIds(t.table);
    OvertakenOutOfOrder(t.table, Planned(s), AttemptIds(t.attempts), p, id);
  }

  lemma {:induction false} OvertakenOutOfOrder(table: map<int, Record>, before: seq<int>, ids: seq<int>, p: int,
                                               id: int)
    requires before <= ids && p in before && id in ids && id !in before
    requires id in table && p in table && Precedes(table[id].event, table[p].event)
    ensures !InOrder(table, ids)
  {
  }

  /**
   Over a serial run that ends with nothing pending, sends follow creation order within every
   group exactly when no commit was late.
  */
  lemma {:induction false} CreationOrderIff(states: seq<State>, acts: seq<Action>)
    requires IsSerialRun(states, acts)
    requires Idle(states[|acts|]) && PendingIds(states[|acts|].table) == {}
    ensures CreationOrder(states[|acts|]) <==> Timely(states, acts)
  {
    forall k | 0 <= k < |acts|
      ensures AnswersHonest(states[k])
    {
      SerialRunInv(states, acts, k);
    }
    if Timely(states, acts) {
      TimelyRunOrder(states, acts, |acts|);
    } else {
      var k :| 0 <= k < |acts| && Late(states[k], acts[k]);
      LateCommitShows(states, acts, k, |acts|);
    }
  }

  // ---------------------------------------------------------------------------
  // A late commit can happen
  // ---------------------------------------------------------------------------

  /** Some serial run ends in s. */
  ghost predicate Reachable(s: State) {
    exists states: seq<State>, acts: seq<Action> :: IsSerialRun(states, acts) && states[|acts|] == s
  }

  lemma {:induction false} ReachInitial()
    ensures Reachable(INITIAL)
  {
    var states, acts: seq<Action> := [INITIAL], [];
    assert IsSerialRun(states, acts);
  }

  lemma {:induction false} ReachStep(s: State, a: Action)
    requires Reachable(s) && Enabled(s, a) && SerialStep(s, a)
    ensures Reachable(Apply(s, a))
  {
    hide Apply, Enabled, SerialStep;
    var states: seq<State>, acts: seq<Action> :| IsSerialRun(states, acts) && states[|acts|] == s;
    var states', acts' := states + [Apply(s, a)], acts + [a];
    forall k | 0 <= k < |acts'|
      ensures Enabled(states'[k], acts'[k]) && states'[k + 1] == Apply(states'[k], acts'[k])
              && SerialStep(states'[k], acts'[k])
    {
      if k < |acts| {
        assert states'[k] == states[k] && states'[k + 1] == states[k + 1] && acts'[k] == acts[k];
      }
    }
    assert IsSerialRun(states', acts');
  }

  lemma {:induction false} SoleBatch(table: map<int, Record>, id: int)
    requires PendingIds(table) == {id} && id in table
    ensures IsBatch(table, [(id, table[id].event)])
  {
  }

  /** Sending and marking the only event of a batch. */
  lemma {:induction false} ReachSent(s: State, id: int, e: Event, w: int)
    requires Reachable(s) && w in s.workers && s.workers[w] == Worker([(id, e)], 0, None)
    ensures Reachable(State(Marked(s.table, id, true, s.clock), s.open, s.workers[w := Worker([(id, e)], 1, None)],
                            s.attempts + [Attempt(id, GroupOf(e), MessageOf(e), true)], s.clock))
  {
    hide Reachable, GroupOf, MessageOf, Marked;
    ReachStep(s, Send(w, true, true));
    var s2 := Apply(s, Send(w, true, true));
    ReachStep(s2, Mark(w));
    assert Apply(s2, Mark(w)).workers == s.workers[w := Worker([(id, e)], 1, None)];
  }

  /** One dispatcher run over a single pending event. */
  lemma {:induction false} ReachDispatchOne(s: State, id: int, w: int)
    requires Reachable(s) && Idle(s) && PendingIds(s.table) == {id}
    ensures var e := s.table[id].event;
            Reachable(s.(table := Marked(s.table, id, true, s.clock),
                         attempts := s.attempts + [Attempt(id, GroupOf(e), MessageOf(e), true)]))
  {
    hide Reachable, GroupOf, MessageOf;
    var e := s.table[id].event;
    assert id in PendingIds(s.table);
    var batch := [(id, e)];
    SoleBatch(s.table, id);
    ReachStep(s, Fetch(w, batch));
    ReachSent(s.(workers := s.workers[w := Worker(batch, 0, None)]), id, e, w);
    var attempts := s.attempts + [Attempt(id, GroupOf(e), MessageOf(e), true)];
    var s3 := State(Marked(s.table, id, true, s.clock), s.open, s.workers[w := Worker(batch, 1, None)], attempts,
                    s.clock);
    assert s.workers[w := Worker(batch, 0, None)][w := Worker(batch, 1, None)] == s3.workers;
    ReachStep(s3, Stop(w));
    assert Apply(s3, Stop(w)).workers == s.workers;
  }

  /** A transaction that has inserted one event and not yet committed. */
  lemma {:induction false} ReachOpen(s: State, tx: int, id: int, event: Event)
    requires Reachable(s) && tx !in s.open && Unused(s, id) && event.createdAt == s.clock
    ensures Reachable(s.(open := s.open[tx := map[id := event]]))
  {
    ReachStep(s, Begin(tx));
    var s1 := Apply(s, Begin(tx));
    ReachStep(s1, Create(tx, id, event));
    assert Apply(s1, Create(tx, id, event)).open == s.open[tx := map[id := event]];
  }

  lemma {:induction false} ReachTwoTransactions(early: Event, late: Event)
    requires early.createdAt == 0 && late.createdAt == 1
    ensures Reachable(State(map[20 := Record(late, Pending, None)], map[1 := map[10 := early]], map[], [], 1))
  {
    ReachInitial();
    ReachOpen(INITIAL, 1, 10, early);
    var s1 := INITIAL.(open := map[1 := map[10 := early]]);
    ReachStep(s1, Tick(1));
    var s2 := s1.(clock := 1);
    ReachOpen(s2, 2, 20, late);
    var s3 := s2.(open := s2.open[2 := map[20 := late]]);
    ReachStep(s3, Commit(2));
    assert Apply(s3, Commit(2)).open == s1.open;
    assert Apply(s3, Commit(2)).table == map[20 := Record(late, Pending, None)];
  }

  lemma {:induction false} ReachFirstSent(early: Event, late: Event)
    requires early.createdAt == 0 && late.createdAt == 1
    ensures Reachable(State(map[20 := Record(late, Dispatched, Some(1))], map[1 := map[10 := early]], map[],
                            [Attempt(20, GroupOf(late), MessageOf(late), true)], 1))
  {
    ReachTwoTransactions(early, late);
    var s := State(map[20 := Record(late, Pending, None)], map[1 := map[10 := early]], map[], [], 1);
    assert PendingIds(s.table) == {20};
    ReachDispatchOne(s, 20, 0);
    assert Marked(s.table, 20, true, 1) == map[20 := Record(late, Dispatched, Some(1))];
    assert [] + [Attempt(20, GroupOf(late), MessageOf(late), true)] ==
           [Attempt(20, GroupOf(late), MessageOf(late), true)];
  }

  lemma {:induction false} ReachBothSent(s: State, early: Event, late: Event)
    requires Reachable(s) && s.table == map[20 := Record(late, Dispatched, Some(1))] && s.workers == map[]
    requires s.open == map[1 := map[10 := early]] && s.clock == 1
    ensures Reachable(s.(open := map[],
                         table := map[20 := Record(late, Dispatched, Some(1)),
                                      10 := Record(early, Dispatched, Some(1))],
                         attempts := s.attempts + [Attempt(10, GroupOf(early), MessageOf(early), true)]))
  {
    ReachStep(s, Commit(1));
    var t := s.(open := map[],
                table := map[20 := Record(late, Dispatched, Some(1)), 10 := Record(early, Pending, None)]);
    assert Apply(s, Commit(1)).open == t.open;
    assert Apply(s, Commit(1)).table == t.table;
    assert PendingIds(t.table) == {10};
    ReachDispatchOne(t, 10, 0);
    assert Marked(t.table, 10, true, 1) ==
           map[20 := Record(late, Dispatched, Some(1)), 10 := Record(early, Dispatched, Some(1))];
  }

  /**
   A serial run in which the order fails: the event stamped 0 is committed only after the event
   stamped 1 for the same user has been sent.
  */
  lemma {:induction false} LateCommitExample() returns (s: State)
    ensures Reachable(s) && Idle(s) && PendingIds(s.table) == {} && !CreationOrder(s)
  {
    var early, late := Event(User, "u", "t", "early", 0), Event(User, "u", "t", "late", 1);
    ReachFirstSent(early, late);
    var sent := [Attempt(20, GroupOf(late), MessageOf(late), true)];
    var t := State(map[20 := Record(late, Dispatched, Some(1))], map[1 := map[10 := early]], map[], sent, 1);
    ReachBothSent(t, early, late);
    s := t.(open := map[],
            table := map[20 := Record(late, Dispatched, Some(1)), 10 := Record(early, Dispatched, Some(1))],
            attempts := sent + [Attempt(10, GroupOf(early), MessageOf(early), true)]);
    var ids := AttemptIds(s.attempts);
    assert ids == [20, 10];
    OvertakenOutOfOrder(s.table, [20], ids, 20, 10);
  }
}
