/**
 apps/outbox/tasks.py when dispatcher runs overlap or die: an event is sent again exactly when two runs
 had fetched it before any run marked it, and both reached its send.
*/
module OutboxResends {
  import opened Wrappers
  import opened Outbox

  /** Step p sends the event. */
  ghost predicate SendsAt(states: seq<State>, acts: seq<Action>, p: nat, id: int) {
    && p < |acts| && p < |states| && acts[p].Send?
    && acts[p].worker in states[p].workers
    && var w := states[p].workers[acts[p].worker];
       w.pos < |w.batch| && w.batch[w.pos].0 == id
  }

  /** Step m marks the event. */
  ghost predicate MarksAt(states: seq<State>, acts: seq<Action>, m: nat, id: int) {
    && m < |acts| && m < |states| && acts[m].Mark?
    && acts[m].worker in states[m].workers
    && var w := states[m].workers[acts[m].worker];
       w.pos < |w.batch| && w.batch[w.pos].0 == id
  }

  /** The worker of step f is not stopped after it and before step k. */
  ghost predicate Works(acts: seq<Action>, f: nat, k: nat)
    requires k <= |acts|
  {
    f < k && acts[f].Fetch? && forall j :: f < j < k ==> acts[j] != Stop(acts[f].worker)
  }

  /** The run that step f starts has the event in its batch and sends it at step p. */
  ghost predicate Reaches(states: seq<State>, acts: seq<Action>, f: nat, p: nat, id: int) {
    && SendsAt(states, acts, p, id)
    && Works(acts, f, p) && acts[f].worker == acts[p].worker
    && id in Ids(acts[f].batch)
  }

  ghost predicate UnmarkedBefore(states: seq<State>, acts: seq<Action>, g: nat, id: int) {
    forall m :: 0 <= m < g ==> !MarksAt(states, acts, m, id)
  }

  /** A working dispatcher was started by a fetch of its batch and has not been stopped since. */
  lemma {:induction false} StartedBy(states: seq<State>, acts: seq<Action>, k: nat, w: int) returns (f: nat)
    requires IsRun(states, acts) && k < |states| && w in states[k].workers
    ensures Works(acts, f, k) && acts[f] == Fetch(w, states[k].workers[w].batch)
  {
    hide IsBatch, Marked;
    f := 0;
    if k == 0 {
    } else {
      var a := acts[k - 1];
      assert states[k] == Apply(states[k - 1], a);
      if a.Fetch? && a.worker == w {
        f := k - 1;
      } else {
        f := StartedBy(states, acts, k - 1, w);
      }
    }
  }

  /** Twice the position, plus one between a send and its mark. */
  function Progress(w: Worker): int {
    2 * w.pos + if w.answer.Some? then 1 else 0
  }

  lemma {:induction false} StepProgress(s: State, a: Action, w: int)
    requires Enabled(s, a) && w in s.workers && a != Stop(w)
    ensures w in Apply(s, a).workers && Apply(s, a).workers[w].batch == s.workers[w].batch
    ensures Progress(Apply(s, a).workers[w]) >= Progress(s.workers[w])
    ensures a.Send? && a.worker == w ==> Progress(Apply(s, a).workers[w]) > Progress(s.workers[w])
  {
    hide IsBatch, Marked, GroupOf, MessageOf;
  }

  /** While it is not stopped a dispatcher keeps its batch and never goes back in it. */
  lemma {:induction false} GoesOn(states: seq<State>, acts: seq<Action>, p: nat, q: nat, w: int)
    requires IsRun(states, acts) && p <= q < |states| && w in states[p].workers
    requires forall j :: p <= j < q ==> acts[j] != Stop(w)
    ensures w in states[q].workers && states[q].workers[w].batch == states[p].workers[w].batch
    ensures Progress(states[q].workers[w]) >= Progress(states[p].workers[w])
    decreases q
  {
    hide Apply, Enabled, Progress;
    if p < q {
      GoesOn(states, acts, p, q - 1, w);
      StepProgress(states[q - 1], acts[q - 1], w);
    }
  }

  lemma {:induction false} FetchStarts(states: seq<State>, acts: seq<Action>, f: nat)
    requires IsRun(states, acts) && f < |acts| && acts[f].Fetch?
    ensures acts[f].worker !in states[f].workers && IsBatch(states[f].table, acts[f].batch)
    ensures acts[f].worker in states[f + 1].workers && states[f + 1].workers[acts[f].worker].batch == acts[f].batch
  {
    hide IsBatch;
  }

  /** The sends of one fetch are of different events. */
  lemma {:induction false} NextSendDiffers(states: seq<State>, acts: seq<Action>, f: nat, p: nat, q: nat, id: int,
                                           id': int)
    requires IsRun(states, acts) && p < q
    requires Reaches(states, acts, f, p, id) && Reaches(states, acts, f, q, id')
    ensures id != id'
  {
    var w := acts[f].worker;
    FetchStarts(states, acts, f);
    assert Distinct(Ids(acts[f].batch));
    GoesOn(states, acts, f + 1, p, w);
    assert states[p + 1] == Apply(states[p], acts[p]);
    StepProgress(states[p], acts[p], w);
    GoesOn(states, acts, p + 1, q, w);
    SendUnanswered(states[p], acts[p]) by {
      assert Enabled(states[p], acts[p]);
    }
    SendUnanswered(states[q], acts[q]) by {
      assert Enabled(states[q], acts[q]);
    }
    var i, j := states[p].workers[w].pos, states[q].workers[w].pos;
    assert i < j;
    assert Ids(acts[f].batch)[i] == id && Ids(acts[f].batch)[j] == id';
  }

  lemma {:induction false} SendUnanswered(s: State, a: Action)
    requires Enabled(s, a) && a.Send?
    ensures Progress(s.workers[a.worker]) == 2 * s.workers[a.worker].pos
  {
  }

  /** One fetch sends an event at most once. */
  lemma {:induction false} OncePerFetch(states: seq<State>, acts: seq<Action>, f: nat, p: nat, q: nat, id: int)
    requires IsRun(states, acts)
    requires Reaches(states, acts, f, p, id) && Reaches(states, acts, f, q, id)
    ensures p == q
  {
    hide *;
    if p < q {
      NextSendDiffers(states, acts, f, p, q, id, id);
    } else if q < p {
      NextSendDiffers(states, acts, f, q, p, id, id);
    }
  }

  /** One send belongs to one fetch. */
  lemma {:induction false} OneFetchPerSend(states: seq<State>, acts: seq<Action>, f: nat, g: nat, p: nat, id: int)
    requires IsRun(states, acts)
    requires Reaches(states, acts, f, p, id) && Reaches(states, acts, g, p, id)
    ensures f == g
  {
    var w := acts[p].worker;
    FetchStarts(states, acts, f);
    FetchStarts(states, acts, g);
    hide Apply, Enabled, IsBatch;
    if f < g {
      GoesOn(states, acts, f + 1, g, w);
    } else if g < f {
      GoesOn(states, acts, g + 1, f, w);
    }
  }

  lemma {:induction false} MarkSettles(s: State, a: Action, id: int)
    requires Safe(s) && Enabled(s, a) && a.Mark?
    requires s.workers[a.worker].batch[s.workers[a.worker].pos].0 == id
    ensures id in Apply(s, a).table && Apply(s, a).table[id].status != Pending
  {
    var w := s.workers[a.worker];
    assert w.batch[w.pos].0 in s.table;
  }

  /** Whoever fetches an event does so before any run has marked it. */
  lemma {:induction false} FetchUnmarked(states: seq<State>, acts: seq<Action>, g: nat, id: int)
    requires IsRun(states, acts) && g < |acts| && acts[g].Fetch? && id in Ids(acts[g].batch)
    ensures UnmarkedBefore(states, acts, g, id)
  {
    FetchStarts(states, acts, g);
    var i :| 0 <= i < |acts[g].batch| && Ids(acts[g].batch)[i] == id;
    assert acts[g].batch[i].0 in PendingIds(states[g].table);
    hide IsBatch, Safe;
    forall m | 0 <= m < g
      ensures !MarksAt(states, acts, m, id)
    {
      if MarksAt(states, acts, m, id) {
        RunSafe(states, acts, m);
        assert Enabled(states[m], acts[m]) && states[m + 1] == Apply(states[m], acts[m]);
        MarkSettles(states[m], acts[m], id);
        RunGrows(states, acts, m + 1, g);
      }
    }
  }

  lemma {:induction false} SendReached(states: seq<State>, acts: seq<Action>, p: nat, id: int) returns (f: nat)
    requires IsRun(states, acts) && SendsAt(states, acts, p, id)
    ensures Reaches(states, acts, f, p, id)
  {
    f := StartedBy(states, acts, p, acts[p].worker);
    var w := states[p].workers[acts[p].worker];
    assert Ids(w.batch)[w.pos] == id;
  }

  /** The event is sent at two steps. */
  ghost predicate SentAgain(states: seq<State>, acts: seq<Action>, id: int) {
    exists p, q :: 0 <= p < q && SendsAt(states, acts, p, id) && SendsAt(states, acts, q, id)
  }

  /** Two runs fetched the event, the later one before any run had marked it, and both reached its send. */
  ghost predicate FetchedTwice(states: seq<State>, acts: seq<Action>, id: int) {
    exists f, g, p, q :: 0 <= f < g && 0 <= p && 0 <= q && UnmarkedBefore(states, acts, g, id)
                         && Reaches(states, acts, f, p, id) && Reaches(states, acts, g, q, id)
  }

  /** Over every interleaving with crashes: when an event is sent again. */
  lemma {:induction false} SentAgainIff(states: seq<State>, acts: seq<Action>, id: int)
    requires IsRun(states, acts)
    ensures SentAgain(states, acts, id) <==> FetchedTwice(states, acts, id)
  {
    hide IsRun, UnmarkedBefore;
    if SentAgain(states, acts, id) {
      var p: nat, q: nat :| p < q && SendsAt(states, acts, p, id) && SendsAt(states, acts, q, id);
      var f := SendReached(states, acts, p, id);
      var g := SendReached(states, acts, q, id);
      if f == g {
        OncePerFetch(states, acts, f, p, q, id);
      }
      FetchUnmarked(states, acts, f, id);
      FetchUnmarked(states, acts, g, id);
    }
    if FetchedTwice(states, acts, id) {
      var f: nat, g: nat, p: nat, q: nat :| f < g && UnmarkedBefore(states, acts, g, id)
        && Reaches(states, acts, f, p, id) && Reaches(states, acts, g, q, id);
      if p == q {
        OneFetchPerSend(states, acts, f, g, p, id);
      }
    }
  }

  // ---------------------------------------------------------------------------
  // Sends and attempts
  // ---------------------------------------------------------------------------

  lemma {:induction false} StepAttempts(s: State, a: Action)
    requires Enabled(s, a)
    ensures s.attempts <= Apply(s, a).attempts
    ensures if a.Send? then
              var w := s.workers[a.worker];
              |Apply(s, a).attempts| == |s.attempts| + 1 && Apply(s, a).attempts[|s.attempts|].id == w.batch[w.pos].0
            else Apply(s, a).attempts == s.attempts
  {
    hide IsBatch, Marked, GroupOf, MessageOf;
  }

  /** Every attempt on record was made by a send, in that order. */
  lemma {:induction false} AttemptSent(states: seq<State>, acts: seq<Action>, k: nat, x: nat) returns (p: nat)
    requires IsRun(states, acts) && k < |states| && x < |states[k].attempts|
    ensures p < k && |states[p].attempts| == x
    ensures SendsAt(states, acts, p, states[k].attempts[x].id)
  {
    p := 0;
    if k == 0 {
    } else {
      StepAttempts(states[k - 1], acts[k - 1]);
      hide Apply, IsBatch;
      if x < |states[k - 1].attempts| {
        p := AttemptSent(states, acts, k - 1, x);
      } else {
        p := k - 1;
      }
    }
  }

  lemma {:induction false} AttemptsGrow(states: seq<State>, acts: seq<Action>, i: nat, k: nat)
    requires IsRun(states, acts) && i <= k < |states|
    ensures states[i].attempts <= states[k].attempts
    decreases k
  {
    hide Apply, Enabled;
    if i < k {
      AttemptsGrow(states, acts, i, k - 1);
      StepAttempts(states[k - 1], acts[k - 1]);
    }
  }

  lemma {:induction false} SendRecorded(states: seq<State>, acts: seq<Action>, p: nat, k: nat, id: int)
    requires IsRun(states, acts) && p < k < |states| && SendsAt(states, acts, p, id)
    ensures |states[p].attempts| < |states[k].attempts| && states[k].attempts[|states[p].attempts|].id == id
  {
    StepAttempts(states[p], acts[p]);
    hide Apply, Enabled;
    AttemptsGrow(states, acts, p + 1, k);
  }

  /** On record: two attempts of one event, exactly when two runs fetched it unmarked and reached its send. */
  lemma {:induction false} AttemptedAgainIff(states: seq<State>, acts: seq<Action>, id: int)
    requires IsRun(states, acts)
    ensures (exists x, y :: 0 <= x < y < |states[|acts|].attempts|
                            && states[|acts|].attempts[x].id == id && states[|acts|].attempts[y].id == id)
            <==> FetchedTwice(states, acts, id)
  {
    var n := |acts|;
    SentAgainIff(states, acts, id);
    var attempts := states[n].attempts;
    if exists x, y :: 0 <= x < y < |attempts| && attempts[x].id == id && attempts[y].id == id {
      var x: nat, y: nat :| x < y < |attempts| && attempts[x].id == id && attempts[y].id == id;
      var p := AttemptSent(states, acts, n, x);
      var q := AttemptSent(states, acts, n, y);
      hide IsRun, SendsAt, FetchedTwice;
      if q <= p {
        AttemptsGrow(states, acts, q, p);
      }
      assert SentAgain(states, acts, id);
    }
    if SentAgain(states, acts, id) {
      var p: nat, q: nat :| p < q && SendsAt(states, acts, p, id) && SendsAt(states, acts, q, id);
      SendRecorded(states, acts, p, n, id);
      SendRecorded(states, acts, q, n, id);
      SendRecorded(states, acts, p, q, id);
    }
  }
}
