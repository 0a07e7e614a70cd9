/**
 Runs of the messaging requests: what stays true of the threads and messages through any sequence of
 sends, Telnyx webhooks and DID events, and how long a thread and a message live.
*/
module ConversationRuns {
  import opened Wrappers
  import opened Tables
  import opened Conversations
  import Ordering

  /** Every id is drawn once: they are uuid4 values. */
  ghost predicate DrawnOnce(requests: seq<Request>) {
    forall i, j :: 0 <= i < j < |requests| && Drawn(requests[i]).Some? ==> Drawn(requests[i]) != Drawn(requests[j])
  }

  /** grants[k] is what UserDID holds at request k. */
  ghost predicate IsRun(states: seq<Inbox>, grants: seq<set<Grant>>, requests: seq<Request>) {
    && |states| == |requests| + 1 == |grants| + 1
    && states[0] == Inbox(map[], map[], [], multiset{})
    && DrawnOnce(requests)
    && forall k {:trigger requests[k]} :: 0 <= k < |requests| ==>
         Answered(states[k], requests[k]) && states[k + 1] == Apply(states[k], grants[k], requests[k])
  }

  /** The ids drawn by the first k requests. */
  function DrawnBy(requests: seq<Request>, k: nat): set<int>
    requires k <= |requests|
  {
    if k == 0 then {}
    else DrawnBy(requests, k - 1) + (if Drawn(requests[k - 1]).Some? then {Drawn(requests[k - 1]).value} else {})
  }

  lemma {:induction false} DrawnByGrows(requests: seq<Request>, i: nat, k: nat)
    requires i <= k <= |requests|
    ensures DrawnBy(requests, i) <= DrawnBy(requests, k)
    decreases k
  {
    if i < k {
      DrawnByGrows(requests, i, k - 1);
    }
  }

  lemma {:induction false} NotDrawnBefore(requests: seq<Request>, k: nat, n: nat)
    requires DrawnOnce(requests) && k <= n < |requests| && Drawn(requests[n]).Some?
    ensures Drawn(requests[n]).value !in DrawnBy(requests, k)
  {
    if k == 0 {
    } else {
      NotDrawnBefore(requests, k - 1, n);
    }
  }

  ghost predicate IdsDrawn(s: Inbox, drawn: set<int>) {
    s.dids.Keys <= drawn && s.threads.Keys <= drawn
  }

  lemma {:induction false} DrawnFresh(s: Inbox, requests: seq<Request>, k: nat)
    requires DrawnOnce(requests) && k < |requests| && IdsDrawn(s, DrawnBy(requests, k))
    ensures Fresh(s, requests[k])
  {
    if Drawn(requests[k]).Some? {
      NotDrawnBefore(requests, k, k);
    }
  }

  /**
   Every state of every run has one row per DID, one thread per tenant, DID and participant set, one
   message per Telnyx id, and every thread and message with its DID and tenant.
  */
  lemma {:induction false} RunSound(states: seq<Inbox>, grants: seq<set<Grant>>, requests: seq<Request>, k: nat)
    requires IsRun(states, grants, requests) && k < |states|
    ensures Sound(states[k]) && IdsDrawn(states[k], DrawnBy(requests, k))
    ensures k < |requests| ==> Fresh(states[k], requests[k])
  {
    hide Apply, Fresh, Drawn, DrawnOnce;
    if k == 0 {
    } else {
      RunSound(states, grants, requests, k - 1);
      var s, r := states[k - 1], requests[k - 1];
      StepSound(s, grants[k - 1], r);
      StepDids(s, grants[k - 1], r);
      StepThreads(s, grants[k - 1], r);
      forall d | d in states[k].dids || d in states[k].threads
        ensures d in DrawnBy(requests, k)
      {
        if Drawn(r) == Some(d) {
          assert d in {Drawn(r).value};
        }
      }
    }
    if k < |requests| {
      DrawnFresh(states[k], requests, k);
    }
  }

  // ---------------------------------------------------------------------------
  // How long a DID and a thread live
  // ---------------------------------------------------------------------------

  /** No request from i up to k deletes the DID. */
  ghost predicate Undeleted(states: seq<Inbox>, requests: seq<Request>, i: nat, k: nat, did: int)
    requires |states| == |requests| + 1 && i <= k <= |requests|
  {
    forall j {:trigger requests[j]} :: i <= j < k ==> !Deletes(states[j], requests[j], did)
  }

  /** A DID is there later exactly when it was not deleted in between, and never comes back. */
  lemma {:induction false} DidLivesIff(states: seq<Inbox>, grants: seq<set<Grant>>, requests: seq<Request>,
                                       i: nat, k: nat, did: int)
    requires IsRun(states, grants, requests) && i <= k < |states| && did in states[i].dids
    ensures did in states[k].dids <==> Undeleted(states, requests, i, k, did)
    ensures did in states[k].dids ==> states[k].dids[did].tenant == states[i].dids[did].tenant
    decreases k
  {
    hide Apply, Deletes, Sound, Fresh, Drawn, DrawnOnce;
    if i == k {
    } else {
      var r := requests[k - 1];
      DidLivesIff(states, grants, requests, i, k - 1, did);
      RunSound(states, grants, requests, i);
      RunSound(states, grants, requests, k - 1);
      StepDids(states[k - 1], grants[k - 1], r);
      if Drawn(r).Some? {
        NotDrawnBefore(requests, i, k - 1);
      }
    }
  }

  /** A thread is there later exactly when its DID was not deleted in between, and never changes. */
  lemma {:induction false} ThreadLivesIff(states: seq<Inbox>, grants: seq<set<Grant>>, requests: seq<Request>,
                                          i: nat, k: nat, thread: int)
    requires IsRun(states, grants, requests) && i <= k < |states| && thread in states[i].threads
    ensures thread in states[k].threads <==> Undeleted(states, requests, i, k, states[i].threads[thread].did)
    ensures thread in states[k].threads ==> states[k].threads[thread] == states[i].threads[thread]
    decreases k
  {
    hide Apply, Deletes, Fresh, Drawn, DrawnOnce, Unique, Once, OneLine, MessagesLinked, Undeleted;
    var did := states[i].threads[thread].did;
    RunSound(states, grants, requests, i);
    assert did in states[i].dids;
    hide Sound;
    DidLivesIff(states, grants, requests, i, k, did);
    ThreadFollowsDid(states, grants, requests, i, k, thread);
  }

  lemma {:induction false} ThreadFollowsDid(states: seq<Inbox>, grants: seq<set<Grant>>, requests: seq<Request>,
                                            i: nat, k: nat, thread: int)
    requires IsRun(states, grants, requests) && i <= k < |states| && thread in states[i].threads
    ensures thread in states[k].threads <==> states[i].threads[thread].did in states[k].dids
    ensures thread in states[k].threads ==> states[k].threads[thread] == states[i].threads[thread]
    decreases k
  {
    hide Apply, Deletes, Fresh, Drawn, DrawnOnce, Unique, Once, OneLine, MessagesLinked;
    var did := states[i].threads[thread].did;
    RunSound(states, grants, requests, i);
    assert did in states[i].dids;
    if i < k {
      hide Sound;
      var r := requests[k - 1];
      ThreadFollowsDid(states, grants, requests, i, k - 1, thread);
      RunSound(states, grants, requests, k - 1);
      StepThreads(states[k - 1], grants[k - 1], r);
      StepDids(states[k - 1], grants[k - 1], r);
      if Drawn(r).Some? {
        NotDrawnBefore(requests, i, k - 1);
      }
    }
  }

  // ---------------------------------------------------------------------------
  // How long a message lives
  // ---------------------------------------------------------------------------

  /** The messages of a, in order, stand first in b; only their delivery status may differ. */
  ghost predicate Leads(a: seq<Message>, b: seq<Message>) {
    && |a| <= |b|
    && forall x :: 0 <= x < |a| ==> b[x] == a[x].(status := b[x].status)
  }

  function On(dids: set<int>): Message -> bool {
    (m: Message) => m.did in dids
  }

  /** The messages of some DIDs. */
  function OfDids(messages: seq<Message>, dids: set<int>): seq<Message> {
    Ordering.Filter(messages, On(dids))
  }

  lemma {:induction false} LeadsTransitive(a: seq<Message>, b: seq<Message>, c: seq<Message>)
    requires Leads(a, b) && Leads(b, c)
    ensures Leads(a, c)
  {
  }

  lemma {:induction false} LeadsCons(h: Message, h': Message, a: seq<Message>, b: seq<Message>)
    requires Leads(a, b) && h' == h.(status := h'.status)
    ensures Leads([h] + a, [h'] + b)
  {
  }

  lemma {:induction false} LeadsTail(a: seq<Message>, b: seq<Message>)
    requires Leads(a, b) && a != []
    ensures b != [] && Leads(a[1..], b[1..]) && b[0] == a[0].(status := b[0].status)
  {
  }

  lemma {:induction false} LeadsFilter(a: seq<Message>, b: seq<Message>, dids: set<int>)
    requires Leads(a, b)
    ensures Leads(OfDids(a, dids), OfDids(b, dids))
  {
    if a == [] {
      assert OfDids(a, dids) == [];
    } else {
      LeadsTail(a, b);
      LeadsFilter(a[1..], b[1..], dids);
      CutOf(a, dids);
      CutOf(b, dids);
      hide Leads, OfDids;
      if a[0].did in dids {
        LeadsCons(a[0], b[0], OfDids(a[1..], dids), OfDids(b[1..], dids));
      }
    }
  }

  lemma {:induction false} CutOf(messages: seq<Message>, dids: set<int>)
    requires messages != []
    ensures var rest := OfDids(messages[1..], dids);
            OfDids(messages, dids) == if messages[0].did in dids then [messages[0]] + rest else rest
  {
    Ordering.FilterCut(messages, On(dids));
  }

  lemma {:induction false} FilterTwice(messages: seq<Message>, some: set<int>, all: set<int>)
    requires forall m :: m in messages && m.did in some ==> m.did in all
    ensures OfDids(OfDids(messages, all), some) == OfDids(messages, some)
  {
    if messages == [] {
    } else {
      var rest := OfDids(messages[1..], all);
      FilterTwice(messages[1..], some, all);
      Ordering.FilterCut(messages, On(all));
      Ordering.FilterCut(messages, On(some));
      if messages[0].did in all {
        Ordering.FilterCons(messages[0], rest, On(some));
      } else {
        assert messages[0] in messages;
      }
    }
  }

  lemma {:induction false} SameFilter(messages: seq<Message>, p: Message -> bool, q: Message -> bool)
    requires forall m :: m in messages ==> p(m) == q(m)
    ensures Ordering.Filter(messages, p) == Ordering.Filter(messages, q)
  {
    if messages == [] {
    } else {
      assert messages[0] in messages;
      SameFilter(messages[1..], p, q);
    }
  }

  /** A request loses the messages of the DIDs it deletes and no others. */
  lemma {:induction false} StepMessages(s: Inbox, grants: set<Grant>, r: Request)
    requires Sound(s) && Fresh(s, r)
    ensures Leads(OfDids(s.messages, Apply(s, grants, r).dids.Keys), Apply(s, grants, r).messages)
  {
    var after := Apply(s, grants, r);
    if r.DeleteDid? && r.objectId != "" {
      var lines := LinesOf(s.dids, r.tenant, r.objectId);
      hide LinesOf, Unique, Once, OneLine;
      SameFilter(s.messages, On(after.dids.Keys), Spared(s.threads, lines));
    } else {
      StepDids(s, grants, r);
      OthersKeepMessages(s, grants, r);
      forall m | m in s.messages
        ensures m.did in after.dids
      {
        assert s.threads[m.thread].did == m.did;
        assert !Deletes(s, r, m.did);
      }
      Ordering.FilterAll(s.messages, On(after.dids.Keys));
    }
  }

  lemma {:induction false} OthersKeepMessages(s: Inbox, grants: set<Grant>, r: Request)
    requires !(r.DeleteDid? && r.objectId != "")
    ensures Leads(s.messages, Apply(s, grants, r).messages)
  {
    hide Resolved, Broadcast, Taken, Receives, Sends, Outgoing, Present, Counterparties, KeyOf;
  }

  /**
   The messages of the DIDs still there stand first and in order in every later state, changed at most
   in their delivery status; every other earlier message is gone.
  */
  lemma {:induction false} MessagesLive(states: seq<Inbox>, grants: seq<set<Grant>>, requests: seq<Request>, i: nat,
                                        k: nat)
    requires IsRun(states, grants, requests) && i <= k < |states|
    ensures Leads(OfDids(states[i].messages, states[k].dids.Keys), states[k].messages)
    ensures forall m :: m in states[k].messages ==> m.did in states[k].dids
    decreases k
  {
    hide Apply, Sound, Leads, OfDids, Fresh, IdsDrawn, DrawnOnce, Drawn, DrawnBy, Answered;
    RunSound(states, grants, requests, i);
    RunSound(states, grants, requests, k);
    MessagesOnDids(states[i]);
    MessagesOnDids(states[k]);
    if i == k {
      LeadsSelf(states[k].messages, states[k].dids.Keys);
    } else {
      var before, now := states[k - 1].dids.Keys, states[k].dids.Keys;
      MessagesLive(states, grants, requests, i, k - 1);
      RunSound(states, grants, requests, k - 1);
      StepMessages(states[k - 1], grants[k - 1], requests[k - 1]);
      hide IsRun;
      LeadsFilter(OfDids(states[i].messages, before), states[k - 1].messages, now);
      forall m | m in states[i].messages && m.did in now
        ensures m.did in before
      {
        DidStayed(states, grants, requests, i, k, m.did);
      }
      FilterTwice(states[i].messages, now, before);
      LeadsTransitive(OfDids(states[i].messages, now), OfDids(states[k - 1].messages, now), states[k].messages);
    }
  }

  lemma {:induction false} LeadsSelf(messages: seq<Message>, dids: set<int>)
    requires forall m :: m in messages ==> m.did in dids
    ensures Leads(OfDids(messages, dids), messages)
  {
    Ordering.FilterAll(messages, On(dids));
  }

  lemma {:induction false} MessagesOnDids(s: Inbox)
    requires Sound(s)
    ensures forall m :: m in s.messages ==> m.did in s.dids
  {
    hide Unique, Once, OneLine;
  }

  lemma {:induction false} DidStayed(states: seq<Inbox>, grants: seq<set<Grant>>, requests: seq<Request>,
                                     i: nat, k: nat, did: int)
    requires IsRun(states, grants, requests) && i < k < |states|
    requires did in states[i].dids && did in states[k].dids
    ensures did in states[k - 1].dids
  {
    hide IsRun, Deletes;
    DidLivesIff(states, grants, requests, i, k, did);
    DidLivesIff(states, grants, requests, i, k - 1, did);
  }

  // ---------------------------------------------------------------------------
  // Redelivery
  // ---------------------------------------------------------------------------

  /** In every run at most one message carries a Telnyx id. */
  lemma {:induction false} StoredOnce(states: seq<Inbox>, grants: seq<set<Grant>>, requests: seq<Request>, k: nat,
                                      x: nat, y: nat)
    requires IsRun(states, grants, requests) && k < |states| && x < |states[k].messages| && y < |states[k].messages|
    requires states[k].messages[x].telnyxId.Some? && states[k].messages[x].telnyxId == states[k].messages[y].telnyxId
    ensures x == y
  {
    RunSound(states, grants, requests, k);
    hide Apply, Unique, OneLine, Fresh;
  }

  /**
   A webhook delivered again after its message was stored changes nothing if and only if a message has
   its id; the stored one does as long as its DID has not been deleted.
  */
  lemma {:induction false} RedeliveryInRun(states: seq<Inbox>, grants: seq<set<Grant>>, requests: seq<Request>,
                                           i: nat, k: nat)
    requires IsRun(states, grants, requests) && i < k < |requests|
    requires requests[i].Receive? && requests[k].Receive? && states[i + 1] != states[i]
    requires requests[i].telnyxId.Some? && requests[k].telnyxId == requests[i].telnyxId
    ensures Receives(states[k], requests[k]) ==>
              (states[k + 1] == states[k] <==> Taken(states[k].messages, requests[k].telnyxId))
    ensures states[i + 1].messages != []
    ensures Undeleted(states, requests, i + 1, k, LastMessage(states[i + 1]).did) ==>
              Taken(states[k].messages, requests[k].telnyxId) && states[k + 1] == states[k]
  {
    hide Apply, Sound, Fresh, Receives, Undeleted, Deletes, Taken, IdsDrawn, DrawnOnce, Drawn, DrawnBy, Answered;
    assert states[k + 1] == Apply(states[k], grants[k], requests[k]);
    assert states[i + 1] == Apply(states[i], grants[i], requests[i]);
    ReceiptLast(states[i], grants[i], requests[i]);
    if Receives(states[k], requests[k]) {
      RedeliveryIff(states[k], grants[k], requests[k]);
    } else {
      NotReceived(states[k], grants[k], requests[k]);
    }
    RunSound(states, grants, requests, i + 1);
    MessagesOnDids(states[i + 1]);
    hide IsRun;
    var m := LastMessage(states[i + 1]);
    DidLivesIff(states, grants, requests, i + 1, k, m.did);
    if Undeleted(states, requests, i + 1, k, m.did) {
      MessagesLive(states, grants, requests, i + 1, k);
      LedTaken(states[i + 1].messages, states[k].messages, states[k].dids.Keys, m);
    }
  }

  lemma {:induction false} ReceiptLast(s: Inbox, grants: set<Grant>, r: Request)
    requires r.Receive? && Apply(s, grants, r) != s
    ensures Apply(s, grants, r).messages != []
    ensures LastMessage(Apply(s, grants, r)).telnyxId == r.telnyxId
  {
    hide Resolved, Broadcast, Taken, Receives, Present, Counterparties;
  }

  lemma {:induction false} LedTaken(a: seq<Message>, b: seq<Message>, dids: set<int>, m: Message)
    requires Leads(OfDids(a, dids), b) && m in a && m.did in dids && m.telnyxId.Some?
    ensures Taken(b, m.telnyxId)
  {
    var kept := OfDids(a, dids);
    assert m in kept;
    var x :| 0 <= x < |kept| && kept[x] == m;
    assert b[x].telnyxId == m.telnyxId && b[x] in b;
  }

  // ---------------------------------------------------------------------------
  // Replies
  // ---------------------------------------------------------------------------

  /**
   In every run, however much happened since the send: a reply to its DID whose Telnyx id is new lands
   in the send's thread if and only if its counterparties are the send's recipients; one whose id is
   taken changes nothing. The DID being there now means it was not deleted since.
  */
  lemma {:induction false} ReplyInRun(states: seq<Inbox>, grants: seq<set<Grant>>, requests: seq<Request>, i: nat,
                                      k: nat)
    requires IsRun(states, grants, requests) && i < k < |requests|
    requires requests[i].Send? && requests[k].Receive?
    requires var s, r := requests[i], requests[k];
             && Sends(states[i], s) && (s.accepted ==> !Taken(states[i].messages, s.telnyxId))
             && OwnedOnly(states[k].dids, s.did)
             && r.sender != "" && Present(r.to) != [] && Present(r.to)[0] == states[k].dids[s.did].number
    ensures states[i + 1].messages != []
    ensures Taken(states[k].messages, requests[k].telnyxId) ==> states[k + 1] == states[k]
    ensures !Taken(states[k].messages, requests[k].telnyxId) ==>
              && |states[k + 1].messages| == |states[k].messages| + 1
              && (LastMessage(states[k + 1]).thread == LastMessage(states[i + 1]).thread <==>
                  && Rewrites(Counterparties(requests[k].sender, Present(requests[k].to)), requests[i].to)
                  && Rewrites(requests[i].to, Counterparties(requests[k].sender, Present(requests[k].to))))
  {
    var s, r := requests[i], requests[k];
    assert states[k + 1] == Apply(states[k], grants[k], r) && Answered(states[k], r);
    assert states[i + 1] == Apply(states[i], grants[i], s);
    assert s.did in states[i].dids;
    hide Apply, Rewrites, KeyOf, Counterparties, Present, Sound, Fresh, Sends, Taken, Drawn, DrawnOnce, Deletes,
        Answered;
    RunSound(states, grants, requests, i);
    SendOpensThread(states[i], grants[i], s);
    var thread := LastMessage(states[i + 1]).thread;
    ThreadFollowsDid(states, grants, requests, i + 1, k, thread);
    RunSound(states, grants, requests, k);
    ReplyLandsIff(states[k], grants[k], thread, s.to, r);
  }

  /** Once its DID is deleted, no message ever names a thread again. */
  lemma {:induction false} DeletedThreadSilent(states: seq<Inbox>, grants: seq<set<Grant>>, requests: seq<Request>,
                                               i: nat, k: nat, thread: int)
    requires IsRun(states, grants, requests) && i <= k < |states| && thread in states[i].threads
    requires !Undeleted(states, requests, i, k, states[i].threads[thread].did)
    ensures forall m :: m in states[k].messages ==> m.thread != thread
  {
    ThreadLivesIff(states, grants, requests, i, k, thread);
    RunSound(states, grants, requests, k);
    hide IsRun, Fresh, Unique, Once, OneLine;
  }
}
