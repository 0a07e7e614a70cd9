/**
 apps/outbox seen from its two ends: the WebSocket consumers (apps/outbox/consumers.py and
 apps/messaging/consumers.py), which join one group each, and the statuses of the rows.
*/
module OutboxDelivery {
  import opened Wrappers
  import opened Outbox
  import opened OutboxResends

  // ---------------------------------------------------------------------------
  // Listeners
  // ---------------------------------------------------------------------------

  /** A connected consumer, or a member of a tenant group. */
  datatype Listener = UserFeed(id: string) | ConversationFeed(id: string) | TenantFeed(id: string)

  /** The group a consumer joins when it connects. */
  function Joined(l: Listener): string {
    match l
    case UserFeed(id) => "user." + id
    case ConversationFeed(id) => "conversation." + id
    case TenantFeed(id) => "tenant." + id
  }

  /** The event is meant for the listener. */
  predicate Addressed(e: Event, l: Listener) {
    match l
    case UserFeed(id) => e.targetType == User && e.targetId == id
    case ConversationFeed(id) => e.targetType == Conversation && e.targetId == id
    case TenantFeed(id) => e.targetType == Tenant && e.targetId == id
  }

  lemma {:induction false} SameHead(head: string, a: string, b: string)
    ensures head + a == head + b <==> a == b
  {
    if head + a == head + b {
      assert a == (head + a)[|head|..] == (head + b)[|head|..] == b;
    }
  }

  /** An event's group is the one a listener joined exactly when the event is meant for that listener. */
  lemma {:induction false} GroupReachesIff(e: Event, l: Listener)
    ensures GroupOf(e) == Joined(l) <==> Addressed(e, l)
  {
    SameHead("user.", e.targetId, l.id);
    SameHead("conversation.", e.targetId, l.id);
    SameHead("tenant.", e.targetId, l.id);
    assert GroupOf(e)[0] == (match e.targetType case User => 'u' case Conversation => 'c' case Tenant => 't');
    assert Joined(l)[0] == (match l case UserFeed(_) => 'u' case ConversationFeed(_) => 'c' case TenantFeed(_) => 't');
  }

  /**
   Over every interleaving with crashes: a send reaches a listener if and only if its event names that
   listener, and it carries the event's own type and payload.
  */
  lemma {:induction false} SendReachesIff(states: seq<State>, acts: seq<Action>, k: nat, x: nat, l: Listener)
    requires IsRun(states, acts) && k < |states| && x < |states[k].attempts|
    ensures states[k].attempts[x].id in states[k].table
    ensures var sent := states[k].attempts[x];
            var event := states[k].table[sent.id].event;
            && (sent.group == Joined(l) <==> Addressed(event, l))
            && sent.message.eventType == event.eventType && sent.message.payload == event.payload
  {
    RunSafe(states, acts, k);
    hide IsRun, WorkersFaithful, AnswersHonest, DispatchedMeansPublished, TransactionsApart;
    GroupReachesIff(states[k].table[states[k].attempts[x].id].event, l);
    hide GroupOf, Joined, Addressed;
  }

  /** What a listener has been sent. */
  ghost predicate Heard(s: State, l: Listener, eventType: string, payload: string) {
    exists x :: 0 <= x < |s.attempts| && s.attempts[x].delivered && s.attempts[x].group == Joined(l)
                && s.attempts[x].message == Message(eventType, payload)
  }

  /** A listener hears exactly the published events meant for it. */
  lemma {:induction false} HeardIff(states: seq<State>, acts: seq<Action>, k: nat, l: Listener, eventType: string,
                                    payload: string)
    requires IsRun(states, acts) && k < |states|
    ensures Heard(states[k], l, eventType, payload) <==>
            exists id :: && id in states[k].table && Published(states[k], id)
                         && Addressed(states[k].table[id].event, l)
                         && states[k].table[id].event.eventType == eventType
                         && states[k].table[id].event.payload == payload
  {
    var s := states[k];
    forall x: nat | x < |s.attempts|
      ensures s.attempts[x].id in s.table
      ensures var event := s.table[s.attempts[x].id].event;
              && (s.attempts[x].group == Joined(l) <==> Addressed(event, l))
              && s.attempts[x].message == Message(event.eventType, event.payload)
    {
      SendReachesIff(states, acts, k, x, l);
    }
    hide IsRun, Joined, Addressed;
  }

  // ---------------------------------------------------------------------------
  // What a status tells
  // ---------------------------------------------------------------------------

  /** Step m marks the event after a send that returned normally. */
  ghost predicate MarksSent(states: seq<State>, acts: seq<Action>, m: nat, id: int) {
    MarksAt(states, acts, m, id) && states[m].workers[acts[m].worker].answer == Some(true)
  }

  /** Step m is the last before k to mark the event. */
  ghost predicate LastMark(states: seq<State>, acts: seq<Action>, k: nat, m: nat, id: int) {
    m < k && MarksAt(states, acts, m, id) && forall j :: m < j < k ==> !MarksAt(states, acts, j, id)
  }

  /** What the marks before k say of a row. */
  ghost predicate Told(states: seq<State>, acts: seq<Action>, k: nat, id: int, row: Record) {
    && (row.status == Pending <==> UnmarkedBefore(states, acts, k, id))
    && (forall m {:trigger LastMark(states, acts, k, m, id)} :: 0 <= m && LastMark(states, acts, k, m, id) ==>
          && (row.status == Dispatched <==> MarksSent(states, acts, m, id))
          && (row.status == Failed <==> !MarksSent(states, acts, m, id))
          && (MarksSent(states, acts, m, id) ==> row.dispatchedAt == Some(states[m].clock)))
  }

  lemma {:induction false} StepRow(s: State, a: Action, id: int)
    requires Safe(s) && Enabled(s, a) && id in Apply(s, a).table
    ensures id !in s.table ==> Apply(s, a).table[id].status == Pending
    ensures id in s.table ==>
              if a.Mark? && s.workers[a.worker].batch[s.workers[a.worker].pos].0 == id then
                if s.workers[a.worker].answer == Some(true) then
                  Apply(s, a).table[id] == Record(s.table[id].event, Dispatched, Some(s.clock))
                else Apply(s, a).table[id] == Record(s.table[id].event, Failed, s.table[id].dispatchedAt)
              else Apply(s, a).table[id] == s.table[id]
  {
    hide IsBatch, GroupOf, MessageOf;
  }

  lemma {:induction false} MarkedIsStored(states: seq<State>, acts: seq<Action>, m: nat, k: nat, id: int)
    requires IsRun(states, acts) && m < k < |states| && MarksAt(states, acts, m, id)
    ensures id in states[k].table
  {
    RunSafe(states, acts, m);
    RunGrows(states, acts, m, k);
    var w := states[m].workers[acts[m].worker];
    assert w.batch[w.pos].0 in states[m].table;
  }

  lemma {:induction false} MarkedHere(states: seq<State>, acts: seq<Action>, m: nat, id: int)
    requires IsRun(states, acts) && MarksAt(states, acts, m, id)
    ensures id in states[m].table
  {
    RunSafe(states, acts, m);
    var w := states[m].workers[acts[m].worker];
    assert w.batch[w.pos].0 in states[m].table;
  }

  lemma {:induction false} NewUnmarked(states: seq<State>, acts: seq<Action>, k: nat, id: int)
    requires IsRun(states, acts) && k < |acts| && id !in states[k].table
    ensures UnmarkedBefore(states, acts, k + 1, id)
  {
    hide MarksAt, Apply, Enabled;
    forall m | 0 <= m < k + 1
      ensures !MarksAt(states, acts, m, id)
    {
      if MarksAt(states, acts, m, id) {
        if m < k {
          MarkedIsStored(states, acts, m, k, id);
        } else {
          MarkedHere(states, acts, m, id);
        }
      }
    }
  }

  /** The row after step k, in terms of marks. */
  lemma {:induction false} RowAfter(states: seq<State>, acts: seq<Action>, k: nat, id: int)
    requires IsRun(states, acts) && k < |acts| && id in states[k].table
    ensures id in states[k + 1].table
    ensures var before, after := states[k].table[id], states[k + 1].table[id];
            after == if MarksSent(states, acts, k, id) then Record(before.event, Dispatched, Some(states[k].clock))
                     else if MarksAt(states, acts, k, id) then Record(before.event, Failed, before.dispatchedAt)
                     else before
  {
    RunSafe(states, acts, k);
    StepGrows(states[k], acts[k]);
    StepRow(states[k], acts[k], id);
    hide Safe, Apply;
  }

  lemma {:induction false} RowStarts(states: seq<State>, acts: seq<Action>, k: nat, id: int)
    requires IsRun(states, acts) && k < |acts| && id !in states[k].table && id in states[k + 1].table
    ensures states[k + 1].table[id].status == Pending
  {
    RunSafe(states, acts, k);
    StepRow(states[k], acts[k], id);
    hide Safe, Apply;
  }

  /**
   Over every interleaving with crashes: a row is pending until its first mark, then dispatched at the
   time of its last mark or failed, as the send before that mark returned or raised.
  */
  lemma {:induction false} StatusTells(states: seq<State>, acts: seq<Action>, k: nat, id: int)
    requires IsRun(states, acts) && k < |states| && id in states[k].table
    ensures Told(states, acts, k, id, states[k].table[id])
  {
    if k == 0 {
    } else {
      if id in states[k - 1].table {
        StatusTells(states, acts, k - 1, id);
        RowAfter(states, acts, k - 1, id);
        hide *;
        ToldNext(states, acts, k, id, states[k - 1].table[id], states[k].table[id]);
      } else {
        NewUnmarked(states, acts, k - 1, id);
        RowStarts(states, acts, k - 1, id);
        hide Apply, Enabled, MarksAt, UnmarkedBefore, LastMark;
        NoLastMark(states, acts, k, id);
      }
    }
  }

  lemma {:induction false} ToldNext(states: seq<State>, acts: seq<Action>, k: nat, id: int, before: Record,
                                    after: Record)
    requires 0 < k < |states| && k <= |acts| && Told(states, acts, k - 1, id, before)
    requires after == if MarksSent(states, acts, k - 1, id)
                      then Record(before.event, Dispatched, Some(states[k - 1].clock))
                      else if MarksAt(states, acts, k - 1, id) then Record(before.event, Failed, before.dispatchedAt)
                      else before
    ensures Told(states, acts, k, id, after)
  {
    MarksExtend(states, acts, k, id);
    SentIsMark(states, acts, k - 1, id);
    hide MarksAt, MarksSent, UnmarkedBefore, LastMark;
  }

  lemma {:induction false} SentIsMark(states: seq<State>, acts: seq<Action>, m: nat, id: int)
    ensures MarksSent(states, acts, m, id) ==> MarksAt(states, acts, m, id)
  {
    hide MarksAt;
  }

  lemma {:induction false} NoLastMark(states: seq<State>, acts: seq<Action>, k: nat, id: int)
    requires UnmarkedBefore(states, acts, k, id)
    ensures forall m :: 0 <= m ==> !LastMark(states, acts, k, m, id)
  {
    hide MarksAt;
  }

  lemma {:induction false} MarksExtend(states: seq<State>, acts: seq<Action>, k: nat, id: int)
    requires 0 < k < |states| && k <= |acts|
    ensures UnmarkedBefore(states, acts, k, id) <==>
            UnmarkedBefore(states, acts, k - 1, id) && !MarksAt(states, acts, k - 1, id)
    ensures forall m :: 0 <= m && LastMark(states, acts, k, m, id) ==>
              if m == k - 1 then MarksAt(states, acts, m, id)
              else LastMark(states, acts, k - 1, m, id) && !MarksAt(states, acts, k - 1, id)
  {
    hide MarksAt;
  }
}
