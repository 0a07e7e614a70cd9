/**
 apps/outbox: the delivery protocol as a state machine.

 Producers insert events inside transactions; any number of dispatcher runs fetch pending rows,
 send each to its channel group and mark the row, one database statement at a time, so their
 steps interleave freely and a run may die between any two of them.
*/
module Outbox {
  import opened Wrappers

  const BATCH_SIZE: nat := 500

  datatype Status = Pending | Dispatched | Failed

  datatype TargetType = User | Tenant | Conversation

  datatype Event = Event(
    targetType: TargetType,
    targetId: string,
    eventType: string,
    payload: string,
    createdAt: nat)

  /** A committed row of the outbox table. */
  datatype Record = Record(event: Event, status: Status, dispatchedAt: Option<nat>)

  datatype Message = Message(eventType: string, payload: string)

  /** One call of `group_send`; `delivered` is whether the channel layer published it. */
  datatype Attempt = Attempt(id: int, group: string, message: Message, delivered: bool)

  function TypeName(t: TargetType): string {
    match t
    case User => "user"
    case Tenant => "tenant"
    case Conversation => "conversation"
  }

  /** `f"{event.target_type}.{event.target_id}"` */
  function GroupOf(e: Event): string {
    TypeName(e.targetType) + "." + e.targetId
  }

  function MessageOf(e: Event): Message {
    Message(e.eventType, e.payload)
  }

  /**
   A dispatcher run: the rows it fetched, how many it is done with, and, between a send and the
   update that follows it, whether the send returned normally.
  */
  datatype Worker = Worker(batch: seq<(int, Event)>, pos: nat, answer: Option<bool>)

  datatype State = State(
    table: map<int, Record>,
    open: map<int, map<int, Event>>,
    workers: map<int, Worker>,
    attempts: seq<Attempt>,
    clock: nat)

  const INITIAL := State(map[], map[], map[], [], 0)

  datatype Action =
    | Begin(tx: int)
    | Create(tx: int, id: int, event: Event)
    | Commit(tx: int)
    | Rollback(tx: int)
    | Fetch(worker: int, batch: seq<(int, Event)>)
    | Send(worker: int, delivered: bool, returned: bool)
    | Mark(worker: int)
    | Stop(worker: int)
    | Tick(elapsed: nat)

  function PendingIds(table: map<int, Record>): set<int> {
    set id | id in table && table[id].status == Pending
  }

  function Ids(batch: seq<(int, Event)>): (r: seq<int>)
    ensures |r| == |batch|
    ensures forall i :: 0 <= i < |r| ==> r[i] == batch[i].0
  {
    seq(|batch|, i requires 0 <= i < |batch| => batch[i].0)
  }

  ghost predicate Distinct(ids: seq<int>) {
    forall i, j :: 0 <= i < j < |ids| ==> ids[i] != ids[j]
  }

  /** An answer to `filter(status=PENDING).order_by("created_at")[:BATCH_SIZE]`; ties in any order. */
  ghost predicate IsBatch(table: map<int, Record>, batch: seq<(int, Event)>) {
    && Distinct(Ids(batch))
    && (forall i :: 0 <= i < |batch| ==>
          batch[i].0 in PendingIds(table) && batch[i].1 == table[batch[i].0].event)
    && (forall i, j :: 0 <= i < j < |batch| ==> batch[i].1.createdAt <= batch[j].1.createdAt)
    && |batch| == (if |PendingIds(table)| < BATCH_SIZE then |PendingIds(table)| else BATCH_SIZE)
    && (forall id, i :: id in PendingIds(table) && id !in Ids(batch) && 0 <= i < |batch| ==>
          batch[i].1.createdAt <= table[id].event.createdAt)
  }

  ghost predicate Unused(s: State, id: int) {
    id !in s.table && forall tx :: tx in s.open ==> id !in s.open[tx]
  }

  ghost predicate Enabled(s: State, a: Action) {
    match a
    case Begin(tx) => tx !in s.open
    case Create(tx, id, event) => tx in s.open && Unused(s, id) && event.createdAt == s.clock
    case Commit(tx) => tx in s.open
    case Rollback(tx) => tx in s.open
    case Fetch(w, batch) => w !in s.workers && IsBatch(s.table, batch)
    case Send(w, delivered, returned) =>
      && w in s.workers && s.workers[w].pos < |s.workers[w].batch| && s.workers[w].answer.None?
      && (returned ==> delivered)
    case Mark(w) => w in s.workers && s.workers[w].pos < |s.workers[w].batch| && s.workers[w].answer.Some?
    case Stop(w) => w in s.workers
    case Tick(_) => true
  }

  function Committed(events: map<int, Event>): map<int, Record> {
    map id | id in events :: Record(events[id], Pending, None)
  }

  /** `filter(id=event.id).update(...)` after a send that did or did not raise. */
  function Marked(table: map<int, Record>, id: int, returned: bool, now: nat): map<int, Record> {
    if id !in table then table
    else if returned then table[id := table[id].(status := Dispatched, dispatchedAt := Some(now))]
    else table[id := table[id].(status := Failed)]
  }

  ghost function Apply(s: State, a: Action): State
    requires Enabled(s, a)
  {
    match a
    case Begin(tx) => s.(open := s.open[tx := map[]])
    case Create(tx, id, event) => s.(open := s.open[tx := s.open[tx][id := event]])
    case Commit(tx) => s.(open := s.open - {tx}, table := s.table + Committed(s.open[tx]))
    case Rollback(tx) => s.(open := s.open - {tx})
    case Fetch(w, batch) => s.(workers := s.workers[w := Worker(batch, 0, None)])
    case Send(w, delivered, returned) =>
      var worker := s.workers[w];
      var (id, event) := worker.batch[worker.pos];
      s.(workers := s.workers[w := worker.(answer := Some(returned))],
         attempts := s.attempts + [Attempt(id, GroupOf(event), MessageOf(event), delivered)])
    case Mark(w) =>
      var worker := s.workers[w];
      s.(workers := s.workers[w := worker.(pos := worker.pos + 1, answer := None)],
         table := Marked(s.table, worker.batch[worker.pos].0, worker.answer.value, s.clock))
    case Stop(w) => s.(workers := s.workers - {w})
    case Tick(elapsed) => s.(clock := s.clock + elapsed)
  }

  /** A run of the whole system: states[k] --acts[k]--> states[k + 1]. */
  ghost predicate IsRun(states: seq<State>, acts: seq<Action>) {
    && |states| == |acts| + 1
    && states[0] == INITIAL
    && forall k {:trigger acts[k]} :: 0 <= k < |acts| ==>
        Enabled(states[k], acts[k]) && states[k + 1] == Apply(states[k], acts[k])
  }

  // ---------------------------------------------------------------------------
  // Safety of every interleaving
  // ---------------------------------------------------------------------------

  ghost predicate Published(s: State, id: int) {
    exists k :: 0 <= k < |s.attempts| && s.attempts[k].id == id && s.attempts[k].delivered
  }

  ghost predicate WorkersFaithful(s: State) {
    forall w, i :: w in s.workers && 0 <= i < |s.workers[w].batch| ==>
      s.workers[w].batch[i].0 in s.table && s.table[s.workers[w].batch[i].0].event == s.workers[w].batch[i].1
  }

  ghost predicate AnswersHonest(s: State) {
    forall w :: w in s.workers ==>
      s.workers[w].pos <= |s.workers[w].batch| &&
      (s.workers[w].answer.Some? ==> s.workers[w].pos < |s.workers[w].batch|) &&
      (s.workers[w].answer == Some(true) ==> Published(s, s.workers[w].batch[s.workers[w].pos].0))
  }

  /** Every send went to its own event's group with its own event's content, after the commit. */
  ghost predicate AttemptsFaithful(s: State) {
    forall k :: 0 <= k < |s.attempts| ==>
      && s.attempts[k].id in s.table
      && s.attempts[k].group == GroupOf(s.table[s.attempts[k].id].event)
      && s.attempts[k].message == MessageOf(s.table[s.attempts[k].id].event)
  }

  /** A row marked dispatched, or carrying a dispatch time, was published. */
  ghost predicate DispatchedMeansPublished(s: State) {
    forall id :: id in s.table && (s.table[id].status == Dispatched || s.table[id].dispatchedAt.Some?) ==>
      Published(s, id)
  }

  ghost predicate TransactionsApart(s: State) {
    && (forall tx, id :: tx in s.open && id in s.open[tx] ==> id !in s.table)
    && (forall tx, tx', id :: tx in s.open && tx' in s.open && tx != tx' && id in s.open[tx] ==> id !in s.open[tx'])
  }

  ghost predicate Safe(s: State) {
    && WorkersFaithful(s)
    && AnswersHonest(s)
    && AttemptsFaithful(s)
    && DispatchedMeansPublished(s)
    && TransactionsApart(s)
  }

  /** Rows are never lost or rewritten, never return to pending, and keep having a dispatch time. */
  ghost predicate Grows(before: map<int, Record>, after: map<int, Record>) {
    forall id :: id in before ==>
      && id in after
      && after[id].event == before[id].event
      && (before[id].status != Pending ==> after[id].status != Pending)
      && (before[id].dispatchedAt.Some? ==> after[id].dispatchedAt.Some?)
  }

  lemma {:induction false} StepGrows(s: State, a: Action)
    requires Safe(s) && Enabled(s, a)
    ensures Grows(s.table, Apply(s, a).table)
  {
  }

  lemma {:induction false} StaysPublished(s: State, s': State, id: int)
    requires s.attempts <= s'.attempts && Published(s, id)
    ensures Published(s', id)
  {
  }

  lemma {:induction false} SendStepSafe(s: State, a: Action)
    requires Safe(s) && Enabled(s, a) && a.Send?
    ensures Safe(Apply(s, a))
  {
    var s' := Apply(s, a);
    var worker := s.workers[a.worker];
    var id := worker.batch[worker.pos].0;
    assert id in s.table && s.table[id].event == worker.batch[worker.pos].1;
    var last := |s.attempts|;
    assert s'.attempts[last].id == id && s'.attempts[last].delivered == a.delivered;
    assert a.returned ==> Published(s', id);
    forall x | Published(s, x)
      ensures Published(s', x)
    {
      StaysPublished(s, s', x);
    }
  }

  lemma {:induction false} MarkStepSafe(s: State, a: Action)
    requires Safe(s) && Enabled(s, a) && a.Mark?
    ensures Safe(Apply(s, a))
  {
  }

  lemma {:induction false} CommitStepSafe(s: State, a: Action)
    requires Safe(s) && Enabled(s, a) && a.Commit?
    ensures Safe(Apply(s, a))
  {
    var s' := Apply(s, a);
    StepGrows(s, a);
    assert forall x :: Published(s, x) <==> Published(s', x) by {
      assert s'.attempts == s.attempts;
    }
    assert forall x :: x in s.table ==> s'.table[x] == s.table[x];
  }

  lemma {:induction false} OtherStepSafe(s: State, a: Action)
    requires Safe(s) && Enabled(s, a) && !a.Send? && !a.Mark? && !a.Commit?
    ensures Safe(Apply(s, a))
  {
  }

  lemma {:induction false} StepSafe(s: State, a: Action)
    requires Safe(s) && Enabled(s, a)
    ensures Safe(Apply(s, a))
  {
    hide Safe, Apply;
    match a
    case Send(_, _, _) => SendStepSafe(s, a);
    case Mark(_) => MarkStepSafe(s, a);
    case Commit(_) => CommitStepSafe(s, a);
    case _ => OtherStepSafe(s, a);
  }

  /** Every state of every run is safe. */
  lemma {:induction false} RunSafe(states: seq<State>, acts: seq<Action>, k: nat)
    requires IsRun(states, acts) && k < |states|
    ensures Safe(states[k])
  {
    if k == 0 {
    } else {
      RunSafe(states, acts, k - 1);
      StepSafe(states[k - 1], acts[k - 1]);
    }
  }

  /** Along every run the table only grows. */
  lemma {:induction false} RunGrows(states: seq<State>, acts: seq<Action>, i: nat, j: nat)
    requires IsRun(states, acts) && i <= j < |states|
    ensures Grows(states[i].table, states[j].table)
    decreases j
  {
    if i < j {
      RunGrows(states, acts, i, j - 1);
      RunSafe(states, acts, j - 1);
      StepGrows(states[j - 1], acts[j - 1]);
    }
  }
}
