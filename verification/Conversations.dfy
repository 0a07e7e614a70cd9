/**
 apps/messaging/services.py (`normalize_number`, `resolve_conversation`, `broadcast_message_event`),
 apps/messaging/views.py (`SendMessageView.post`) and apps/webhooks/views.py (the Telnyx handlers and
 the did.* events of the FreeSWITCH one): which thread a message belongs to, and what becomes of it.

 Requests run one after another. The rows of `UserDID` are an environment that may change between
 requests.
*/
module Conversations {
  import opened Wrappers
  import opened Tables
  import Ordering
  import Text

  /** What threads depend on in a row of `DID`. */
  datatype Line = Line(tenant: int, objectId: string, number: string)

  datatype Thread = Thread(tenant: int, did: int, isGroup: bool, participants: seq<string>)

  datatype Direction = Inbound | Outbound

  datatype MessageStatus = Queued | Sent | Delivered | Failed | Received

  /** `telnyxId` is a unique column that may be null. */
  datatype Message = Message(thread: int, tenant: int, did: int, direction: Direction, fromNumber: string, body: string,
                             telnyxId: Option<string>, status: MessageStatus)

  /** The group an outbox event is addressed to. */
  datatype Target = ToThread(thread: int) | ToUser(user: int)

  datatype Inbox = Inbox(dids: map<int, Line>, threads: map<int, Thread>, messages: seq<Message>,
                         events: multiset<Target>)

  // ---------------------------------------------------------------------------
  // Participant sets
  // ---------------------------------------------------------------------------

  /** `normalize_number`: both branches of the original return the digits. */
  function Normalize(number: string): string {
    Text.DigitsOf(number)
  }

  /** `{normalize_number(n) for n in numbers if n}` */
  function KeyOf(numbers: seq<string>): set<string> {
    set n | n in numbers && n != "" :: Normalize(n)
  }

  predicate Matches(t: Thread, tenant: int, did: int, key: set<string>) {
    t.tenant == tenant && t.did == did && KeyOf(t.participants) == key
  }

  function NewThread(tenant: int, did: int, numbers: seq<string>): Thread {
    Thread(tenant, did, |KeyOf(numbers)| > 1, Ordering.Deduped(Ordering.Filter(numbers, n => n != "")))
  }

  lemma {:induction false} NewThreadMatches(tenant: int, did: int, numbers: seq<string>)
    ensures Matches(NewThread(tenant, did, numbers), tenant, did, KeyOf(numbers))
  {
    var kept := Ordering.Filter(numbers, n => n != "");
    Ordering.DedupedMembers(kept);
    assert forall n :: n in Ordering.Deduped(kept) <==> n in numbers && n != "";
  }

  /** At most one thread per tenant, DID and participant set; a group has several members. */
  ghost predicate Unique(threads: map<int, Thread>) {
    && (forall a, b :: a in threads && b in threads && a != b ==>
          !Matches(threads[a], threads[b].tenant, threads[b].did, KeyOf(threads[b].participants)))
    && (forall a :: a in threads ==> (threads[a].isGroup <==> |KeyOf(threads[a].participants)| > 1))
  }

  ghost function Find(threads: map<int, Thread>, tenant: int, did: int, key: set<string>): Option<int> {
    if exists id :: id in threads && Matches(threads[id], tenant, did, key) then
      var id :| id in threads && Matches(threads[id], tenant, did, key);
      Some(id)
    else None
  }

  lemma {:induction false} FindIs(threads: map<int, Thread>, tenant: int, did: int, key: set<string>, id: int)
    requires Unique(threads) && id in threads && Matches(threads[id], tenant, did, key)
    ensures Find(threads, tenant, did, key) == Some(id)
  {
  }

  /** The thread found or created, and the threads afterwards. */
  ghost function Resolved(threads: map<int, Thread>, tenant: int, did: int, numbers: seq<string>,
                          newId: int): (map<int, Thread>, int) {
    var found := Find(threads, tenant, did, KeyOf(numbers));
    if found.Some? then (threads, found.value) else (threads[newId := NewThread(tenant, did, numbers)], newId)
  }

  // ---------------------------------------------------------------------------
  // Requests
  // ---------------------------------------------------------------------------

  /**
   `first` is the first row with the number addressed, over all tenants, in the order of the query;
   `outcome` the status a delivery report gives its message, if any. `newId` is the id drawn for a row
   the request may create.
  */
  datatype Request =
    | Send(tenant: int, did: int, to: seq<string>, text: string, accepted: bool, telnyxId: Option<string>, newId: int)
    | Receive(sender: string, to: seq<string>, text: string, telnyxId: Option<string>, first: Option<int>, newId: int)
    | Report(telnyxId: Option<string>, outcome: Option<MessageStatus>)
    | SyncDid(tenant: int, objectId: string, number: Option<string>, newId: int)
    | DeleteDid(tenant: int, objectId: string)

  function UsersOf(grants: set<Grant>, did: int): set<Target> {
    set g | g in grants && g.did == did :: ToUser(g.user)
  }

  /** One event for the open thread, one for each user of the DID. */
  ghost function Broadcast(grants: set<Grant>, thread: int, did: int): multiset<Target> {
    multiset{ToThread(thread)} + multiset(UsersOf(grants, did))
  }

  function Present(to: seq<string>): seq<string> {
    Ordering.Filter(to, n => n != "")
  }

  /** The sender and everyone addressed besides our own number. */
  function Counterparties(sender: string, to: seq<string>): seq<string>
    requires to != []
  {
    [sender] + Ordering.Filter(to, n => n != to[0])
  }

  /** Some message has this Telnyx id; a null id is never taken. */
  predicate Taken(messages: seq<Message>, id: Option<string>) {
    id.Some? && exists m :: m in messages && m.telnyxId == id
  }

  /** A message stored and announced; a taken Telnyx id rolls the request back. */
  ghost function Stored(s: Inbox, grants: set<Grant>, threads: map<int, Thread>, m: Message): Inbox {
    if Taken(s.messages, m.telnyxId) then s
    else
      Inbox(s.dids, threads, s.messages + [m],
            if m.status == Failed then s.events else s.events + Broadcast(grants, m.thread, m.did))
  }

  ghost predicate Sends(s: Inbox, r: Request)
    requires r.Send?
  {
    r.did in s.dids && s.dids[r.did].tenant == r.tenant && KeyOf(r.to) != {}
  }

  /** A send Telnyx rejects is kept as failed, without an id. */
  ghost function Sending(s: Inbox, grants: set<Grant>, r: Request): Inbox
    requires r.Send?
  {
    if !Sends(s, r) then s
    else
      var (threads, id) := Resolved(s.threads, r.tenant, r.did, r.to, r.newId);
      Stored(s, grants, threads, Outgoing(s, r, id, if r.accepted then r.telnyxId else None,
                                          if r.accepted then Sent else Failed))
  }

  function Outgoing(s: Inbox, r: Request, thread: int, id: Option<string>, status: MessageStatus): Message
    requires r.Send? && r.did in s.dids
  {
    Message(thread, r.tenant, r.did, Outbound, s.dids[r.did].number, r.text, id, status)
  }

  predicate Receives(s: Inbox, r: Request)
    requires r.Receive?
  {
    r.sender != "" && Present(r.to) != [] && r.first.Some? && r.first.value in s.dids
  }

  ghost function Receiving(s: Inbox, grants: set<Grant>, r: Request): Inbox
    requires r.Receive?
  {
    if !Receives(s, r) then s
    else
      var did := r.first.value;
      var tenant := s.dids[did].tenant;
      var (threads, id) := Resolved(s.threads, tenant, did, Counterparties(r.sender, Present(r.to)), r.newId);
      Stored(s, grants, threads, Message(id, tenant, did, Inbound, r.sender, r.text, r.telnyxId, Received))
  }

  function Reported(messages: seq<Message>, id: Option<string>, status: MessageStatus): (r: seq<Message>)
    ensures |r| == |messages|
    ensures forall i :: 0 <= i < |r| ==>
              r[i] == if messages[i].telnyxId == id then messages[i].(status := status) else messages[i]
  {
    seq(|messages|, i requires 0 <= i < |messages| =>
      if messages[i].telnyxId == id then messages[i].(status := status) else messages[i])
  }

  function Reporting(s: Inbox, r: Request): Inbox
    requires r.Report?
  {
    if r.telnyxId.None? || r.telnyxId.value == "" || r.outcome.None? then s
    else s.(messages := Reported(s.messages, r.telnyxId, r.outcome.value))
  }

  function LinesOf(dids: map<int, Line>, tenant: int, objectId: string): set<int> {
    set d | d in dids && dids[d].tenant == tenant && dids[d].objectId == objectId
  }

  /** did.created and did.updated, which do the same. */
  function Syncing(s: Inbox, grants: set<Grant>, r: Request): Inbox
    requires r.SyncDid?
  {
    var lines := LinesOf(s.dids, r.tenant, r.objectId);
    if r.objectId == "" then s
    else if lines == {} then
      var number := if r.number.Some? then Ordering.Take(r.number.value, 20) else "did-" + Ordering.Take(r.objectId, 8);
      s.(dids := s.dids[r.newId := Line(r.tenant, r.objectId, number)])
    else
      var did := Ordering.Least(lines, Ordering.IntLe);
      var number := if r.number.Some? then Ordering.Take(r.number.value, 20) else s.dids[did].number;
      s.(dids := s.dids[did := s.dids[did].(number := number)], events := s.events + multiset(UsersOf(grants, did)))
  }

  /** Neither the message's DID nor its thread's DID is among the lines. */
  function Spared(threads: map<int, Thread>, lines: set<int>): Message -> bool {
    (m: Message) => m.did !in lines && (m.thread in threads ==> threads[m.thread].did !in lines)
  }

  /** did.deleted: threads and messages follow their DID. */
  function Deleting(s: Inbox, r: Request): Inbox
    requires r.DeleteDid?
  {
    if r.objectId == "" then s
    else
      var lines := LinesOf(s.dids, r.tenant, r.objectId);
      Inbox(s.dids - lines, map a | a in s.threads && s.threads[a].did !in lines :: s.threads[a],
            Ordering.Filter(s.messages, Spared(s.threads, lines)), s.events)
  }

  /** A refused, failed or rolled back request leaves everything as it was. */
  ghost function Apply(s: Inbox, grants: set<Grant>, r: Request): Inbox {
    match r
    case Send(_, _, _, _, _, _, _) => Sending(s, grants, r)
    case Receive(_, _, _, _, _, _) => Receiving(s, grants, r)
    case Report(_, _) => Reporting(s, r)
    case SyncDid(_, _, _, _) => Syncing(s, grants, r)
    case DeleteDid(_, _) => Deleting(s, r)
  }

  /** `DID.objects.filter(number=number).first()` answers with some row of that number, if there is one. */
  ghost predicate Answered(s: Inbox, r: Request) {
    r.Receive? && Present(r.to) != [] ==>
      match r.first
      case Some(did) => did in s.dids && s.dids[did].number == Present(r.to)[0]
      case None => forall d :: d in s.dids ==> s.dids[d].number != Present(r.to)[0]
  }

  /** At most one message per Telnyx id. */
  ghost predicate Once(messages: seq<Message>) {
    forall i, j :: 0 <= i < j < |messages| && messages[i].telnyxId.Some? ==>
      messages[i].telnyxId != messages[j].telnyxId
  }

  /** `Conversation.objects.filter(tenant=tenant, did=did)` in some order */
  ghost predicate Lists(candidates: seq<int>, threads: map<int, Thread>, tenant: int, did: int) {
    && (forall i :: 0 <= i < |candidates| ==>
          candidates[i] in threads && threads[candidates[i]].tenant == tenant && threads[candidates[i]].did == did)
    && (forall id :: id in threads && threads[id].tenant == tenant && threads[id].did == did ==> id in candidates)
  }

  class Messaging {
    var dids: map<int, Line>
    var threads: map<int, Thread>
    var messages: seq<Message>
    var events: multiset<Target>

    ghost function Model(): Inbox
      reads this
    {
      Inbox(dids, threads, messages, events)
    }

    /**
     `resolve_conversation`. `candidates` lists the threads of this tenant and DID, in whatever
     order the query returns them; None stands for the ValueError.
    */
    method Resolve(tenant: int, did: int, numbers: seq<string>, candidates: seq<int>, newId: int)
      returns (thread: Option<int>)
      requires Unique(threads) && newId !in threads
      requires Lists(candidates, threads, tenant, did)
      modifies this`threads
      ensures thread.None? <==> KeyOf(numbers) == {}
      ensures thread.None? ==> threads == old(threads)
      ensures thread.Some? ==> (threads, thread.value) == Resolved(old(threads), tenant, did, numbers, newId)
    {
      var normalized := KeyOf(numbers);
      if normalized == {} {
        return None;
      }
      for i := 0 to |candidates|
        invariant threads == old(threads)
        invariant forall j :: 0 <= j < i ==>
                  candidates[j] in threads && KeyOf(threads[candidates[j]].participants) != normalized
      {
        var existing := KeyOf(threads[candidates[i]].participants);
        if existing == normalized {
          FindIs(threads, tenant, did, normalized, candidates[i]);
          return Some(candidates[i]);
        }
      }
      threads := threads[newId := NewThread(tenant, did, numbers)];
      thread := Some(newId);
    }

    /** `broadcast_message_event` */
    method BroadcastEvent(grants: set<Grant>, message: Message)
      modifies this`events
      ensures events == old(events) + Broadcast(grants, message.thread, message.did)
    {
      events := events + multiset{ToThread(message.thread)};
      var users := set g | g in grants && g.did == message.did :: g.user;
      ghost var targets := UsersOf(grants, message.did);
      var left := users;
      ghost var sent: set<Target> := {};
      while left != {}
        invariant left <= users && sent <= targets
        invariant forall u :: u in left <==> u in users && ToUser(u) !in sent
        invariant forall t :: t in sent ==> t.ToUser?
        invariant events == old(events) + multiset{ToThread(message.thread)} + multiset(sent)
        decreases left
      {
        var user :| user in left;
        var g :| g in grants && g.did == message.did && g.user == user;
        assert ToUser(g.user) in targets;
        events := events + multiset{ToUser(user)};
        assert multiset(sent + {ToUser(user)}) == multiset(sent) + multiset{ToUser(user)};
        sent := sent + {ToUser(user)};
        left := left - {user};
      }
      assert sent == targets;
    }

    /** `SendMessageView.post` once the payload is validated; a taken Telnyx id raises and rolls back. */
    method SendMessage(grants: set<Grant>, r: Request, candidates: seq<int>)
      requires r.Send? && Unique(threads) && r.newId !in threads
      requires Lists(candidates, threads, r.tenant, r.did)
      modifies this
      ensures Model() == Apply(old(Model()), grants, r)
    {
      if r.did !in dids || dids[r.did].tenant != r.tenant {
        return;
      }
      var threads0, messages0 := threads, messages;
      ghost var before := Model();
      var thread := Resolve(r.tenant, r.did, r.to, candidates, r.newId);
      if thread.None? {
        return;
      }
      var message := Message(thread.value, r.tenant, r.did, Outbound, dids[r.did].number, r.text, None, Queued);
      ghost var final :=
        if r.accepted then message.(telnyxId := r.telnyxId, status := Sent) else message.(status := Failed);
      SentApplies(before, grants, r, threads, final);
      StoredEffect(before, grants, threads, final);
      TakenBefore(messages0, message, r.telnyxId);
      assert !Taken(messages0, None);
      hide Apply, Resolved, Stored, Taken, Broadcast, KeyOf;
      messages := messages + [message];
      if !r.accepted {
        messages := messages0 + [message.(status := Failed)];
        return;
      }
      if Taken(messages, r.telnyxId) {
        threads, messages := threads0, messages0;
        return;
      }
      message := message.(telnyxId := r.telnyxId, status := Sent);
      messages := messages0 + [message];
      BroadcastEvent(grants, message);
    }

    /** `_handle_inbound_message`; a taken Telnyx id raises and rolls back. */
    method ReceiveMessage(grants: set<Grant>, r: Request, candidates: seq<int>)
      requires r.Receive? && Unique(threads) && r.newId !in threads
      requires Receives(Model(), r) ==> Lists(candidates, threads, dids[r.first.value].tenant, r.first.value)
      modifies this
      ensures Model() == Apply(old(Model()), grants, r)
    {
      hide Apply, Resolved, Stored, Broadcast, Present, Counterparties, KeyOf, Normalize, Taken, Unique, Matches;
      ghost var before := Model();
      NotReceived(before, grants, r);
      var to := Present(r.to);
      if r.sender == "" || to == [] {
        return;
      }
      if r.first.None? || r.first.value !in dids {
        return;
      }
      var did := r.first.value;
      var tenant := dids[did].tenant;
      SenderCounts(r.sender, to);
      var threads0 := threads;
      var thread := Resolve(tenant, did, Counterparties(r.sender, to), candidates, r.newId);
      var message := Message(thread.value, tenant, did, Inbound, r.sender, r.text, r.telnyxId, Received);
      ReceivedApplies(before, grants, r, threads, message);
      StoredEffect(before, grants, threads, message);
      if Taken(messages, r.telnyxId) {
        threads := threads0;
        return;
      }
      messages := messages + [message];
      BroadcastEvent(grants, message);
    }

    /** `_handle_status_update` */
    method UpdateStatus(r: Request)
      requires r.Report? && Once(messages)
      modifies this`messages
      ensures Model() == Apply(old(Model()), {}, r)
    {
      if r.telnyxId.None? || r.telnyxId.value == "" {
        return;
      }
      for i := 0 to |messages|
        invariant messages == old(messages)
        invariant forall j :: 0 <= j < i ==> messages[j].telnyxId != r.telnyxId
      {
        if messages[i].telnyxId == r.telnyxId {
          if r.outcome.Some? {
            messages := messages[i := messages[i].(status := r.outcome.value)];
            assert messages == Reported(old(messages), r.telnyxId, r.outcome.value);
          }
          return;
        }
      }
      assert r.outcome.Some? ==> messages == Reported(messages, r.telnyxId, r.outcome.value);
    }

    /** did.created and did.updated of `FreeSwitchWebhookView.post` */
    method SyncLine(grants: set<Grant>, r: Request)
      requires r.SyncDid?
      modifies this
      ensures Model() == Apply(old(Model()), grants, r)
    {
      if r.objectId == "" {
        return;
      }
      var lines := LinesOf(dids, r.tenant, r.objectId);
      if lines != {} {
        var did := Ordering.Least(lines, Ordering.IntLe);
        if r.number.Some? {
          dids := dids[did := dids[did].(number := Ordering.Take(r.number.value, 20))];
        }
        events := events + multiset(UsersOf(grants, did));
      } else {
        var number := if r.number.Some? then Ordering.Take(r.number.value, 20)
            else "did-" + Ordering.Take(r.objectId, 8);
        dids := dids[r.newId := Line(r.tenant, r.objectId, number)];
      }
    }

    /** did.deleted of `FreeSwitchWebhookView.post`, with the cascades of `Conversation.did` and `Message` */
    method DeleteLine(r: Request)
      requires r.DeleteDid?
      modifies this
      ensures Model() == Apply(old(Model()), {}, r)
    {
      if r.objectId == "" {
        return;
      }
      var lines := LinesOf(dids, r.tenant, r.objectId);
      messages := Ordering.Filter(messages, Spared(threads, lines));
      threads := map a | a in threads && threads[a].did !in lines :: threads[a];
      dids := dids - lines;
    }
  }

  lemma {:induction false} NotReceived(s: Inbox, grants: set<Grant>, r: Request)
    requires r.Receive?
    ensures !Receives(s, r) ==> Apply(s, grants, r) == s
  {
    hide Receives;
  }

  lemma {:induction false} ReceivedApplies(s: Inbox, grants: set<Grant>, r: Request, after: map<int, Thread>,
                                           m: Message)
    requires r.Receive? && Receives(s, r)
    requires var did := r.first.value;
             var tenant := s.dids[did].tenant;
             && (after, m.thread) == Resolved(s.threads, tenant, did, Counterparties(r.sender, Present(r.to)), r.newId)
             && m == Message(m.thread, tenant, did, Inbound, r.sender, r.text, r.telnyxId, Received)
    ensures Apply(s, grants, r) == Stored(s, grants, after, m)
  {
    hide Resolved, Stored, Receives, Present, Counterparties;
  }

  lemma {:induction false} StoredEffect(s: Inbox, grants: set<Grant>, threads: map<int, Thread>, m: Message)
    ensures Taken(s.messages, m.telnyxId) ==> Stored(s, grants, threads, m) == s
    ensures !Taken(s.messages, m.telnyxId) && m.status != Failed ==>
              Stored(s, grants, threads, m) ==
              Inbox(s.dids, threads, s.messages + [m], s.events + Broadcast(grants, m.thread, m.did))
    ensures !Taken(s.messages, m.telnyxId) && m.status == Failed ==>
              Stored(s, grants, threads, m) == Inbox(s.dids, threads, s.messages + [m], s.events)
  {
    hide Taken, Broadcast;
  }

  lemma {:induction false} SentApplies(s: Inbox, grants: set<Grant>, r: Request, after: map<int, Thread>, m: Message)
    requires r.Send? && Sends(s, r)
    requires (after, m.thread) == Resolved(s.threads, r.tenant, r.did, r.to, r.newId)
    requires m == Outgoing(s, r, m.thread, if r.accepted then r.telnyxId else None, if r.accepted then Sent else Failed)
    ensures Apply(s, grants, r) == Stored(s, grants, after, m)
  {
    hide Resolved, Stored, Sends, Outgoing;
  }

  lemma {:induction false} TakenBefore(messages: seq<Message>, m: Message, id: Option<string>)
    requires m.telnyxId.None?
    ensures Taken(messages + [m], id) <==> Taken(messages, id)
  {
    if Taken(messages, id) {
      var n :| n in messages && n.telnyxId == id;
      assert n in messages + [m];
    }
  }

  lemma {:induction false} SenderCounts(sender: string, to: seq<string>)
    requires sender != "" && to != []
    ensures KeyOf(Counterparties(sender, to)) != {}
  {
    assert Normalize(sender) in KeyOf(Counterparties(sender, to));
  }

  // ---------------------------------------------------------------------------
  // What every request keeps
  // ---------------------------------------------------------------------------

  /** Ids of new rows are new. */
  ghost predicate Fresh(s: Inbox, r: Request) {
    match r
    case Send(_, _, _, _, _, _, newId) => newId !in s.threads
    case Receive(_, _, _, _, _, newId) => newId !in s.threads
    case SyncDid(_, _, _, newId) => newId !in s.dids
    case _ => true
  }

  lemma {:induction false} ResolvedUnique(threads: map<int, Thread>, tenant: int, did: int, numbers: seq<string>,
                                          newId: int)
    requires Unique(threads) && newId !in threads
    ensures var (after, id) := Resolved(threads, tenant, did, numbers, newId);
            && Unique(after) && id in after && Matches(after[id], tenant, did, KeyOf(numbers))
            && (forall a :: a in threads ==> a in after && after[a] == threads[a])
  {
    NewThreadMatches(tenant, did, numbers);
  }

  /** At most one row per tenant and object id (a unique constraint). */
  ghost predicate OneLine(dids: map<int, Line>) {
    forall d, e :: d in dids && e in dids && d != e ==>
      dids[d].tenant != dids[e].tenant || dids[d].objectId != dids[e].objectId
  }

  /** A thread names a DID of its tenant. */
  ghost predicate ThreadsLinked(dids: map<int, Line>, threads: map<int, Thread>) {
    forall a :: a in threads ==> threads[a].did in dids && dids[threads[a].did].tenant == threads[a].tenant
  }

  /** A message names a thread, and that thread's DID and tenant. */
  ghost predicate MessagesLinked(threads: map<int, Thread>, messages: seq<Message>) {
    forall m :: m in messages ==>
      && m.thread in threads
      && threads[m.thread].did == m.did && threads[m.thread].tenant == m.tenant
  }

  ghost predicate Sound(s: Inbox) {
    && OneLine(s.dids)
    && Unique(s.threads) && ThreadsLinked(s.dids, s.threads)
    && MessagesLinked(s.threads, s.messages) && Once(s.messages)
  }

  lemma {:induction false} StoredSound(s: Inbox, grants: set<Grant>, tenant: int, did: int, numbers: seq<string>,
                                       newId: int, m: Message)
    requires Sound(s) && newId !in s.threads && did in s.dids && s.dids[did].tenant == tenant
    requires m.did == did && m.tenant == tenant && m.thread == Resolved(s.threads, tenant, did, numbers, newId).1
    ensures Sound(Stored(s, grants, Resolved(s.threads, tenant, did, numbers, newId).0, m))
  {
    ResolvedUnique(s.threads, tenant, did, numbers, newId);
    ResolvedOnlyAdds(s.threads, tenant, did, numbers, newId);
    hide Unique, Resolved, Broadcast, KeyOf, Once, Taken;
    if !Taken(s.messages, m.telnyxId) {
      OnceAppend(s.messages, m);
    }
  }

  lemma {:induction false} OnceAppend(messages: seq<Message>, m: Message)
    requires Once(messages) && !Taken(messages, m.telnyxId)
    ensures Once(messages + [m])
  {
    assert forall i :: 0 <= i < |messages| ==> messages[i] in messages;
  }

  lemma {:induction false} ResolvedOnlyAdds(threads: map<int, Thread>, tenant: int, did: int, numbers: seq<string>,
                                            newId: int)
    ensures forall a :: a in Resolved(threads, tenant, did, numbers, newId).0 && a !in threads ==>
              a == newId && var t := Resolved(threads, tenant, did, numbers, newId).0[a];
                            t.did == did && t.tenant == tenant
  {
  }

  lemma {:induction false} ReportSound(s: Inbox, r: Request)
    requires Sound(s) && r.Report?
    ensures Sound(Reporting(s, r))
  {
    hide Unique, OneLine, ThreadsLinked;
    var after := Reporting(s, r).messages;
    forall m | m in after
      ensures m.thread in s.threads && s.threads[m.thread].did == m.did && s.threads[m.thread].tenant == m.tenant
    {
      var i :| 0 <= i < |after| && after[i] == m;
      assert s.messages[i] in s.messages;
    }
  }

  lemma {:induction false} SyncSound(s: Inbox, grants: set<Grant>, r: Request)
    requires Sound(s) && r.SyncDid? && r.newId !in s.dids
    ensures Sound(Syncing(s, grants, r))
  {
    hide Unique, MessagesLinked, Once;
    var lines := LinesOf(s.dids, r.tenant, r.objectId);
    assert forall d :: d in s.dids && s.dids[d].tenant == r.tenant && s.dids[d].objectId == r.objectId ==> d in lines;
  }

  lemma {:induction false} DeleteSound(s: Inbox, r: Request)
    requires Sound(s) && r.DeleteDid?
    ensures Sound(Deleting(s, r))
  {
    if r.objectId != "" {
      FilterOnce(s.messages, Spared(s.threads, LinesOf(s.dids, r.tenant, r.objectId)));
      hide KeyOf, LinesOf, Once;
    }
  }

  lemma {:induction false} FilterOnce(messages: seq<Message>, keep: Message -> bool)
    requires Once(messages)
    ensures Once(Ordering.Filter(messages, keep))
  {
    if messages == [] {
    } else {
      FilterOnce(messages[1..], keep);
      var rest := Ordering.Filter(messages[1..], keep);
      forall j | 0 <= j < |rest| && messages[0].telnyxId.Some?
        ensures rest[j].telnyxId != messages[0].telnyxId
      {
        assert rest[j] in messages[1..];
      }
    }
  }

  /**
   Every request keeps one row per DID, one thread per tenant, DID and participant set, one message
   per Telnyx id, and every thread and message with its DID and tenant.
  */
  lemma {:induction false} StepSound(s: Inbox, grants: set<Grant>, r: Request)
    requires Sound(s) && Fresh(s, r)
    ensures Sound(Apply(s, grants, r))
  {
    hide Sound, Resolved, Stored;
    match r
    case Send(_, _, _, _, _, _, _) =>
      if Sends(s, r) {
        var id := Resolved(s.threads, r.tenant, r.did, r.to, r.newId).1;
        StoredSound(s, grants, r.tenant, r.did, r.to, r.newId,
                    Outgoing(s, r, id, if r.accepted then r.telnyxId else None, if r.accepted then Sent else Failed));
      }
    case Receive(_, _, _, _, _, _) =>
      if Receives(s, r) {
        var did, numbers := r.first.value, Counterparties(r.sender, Present(r.to));
        var tenant := s.dids[did].tenant;
        var id := Resolved(s.threads, tenant, did, numbers, r.newId).1;
        StoredSound(s, grants, tenant, did, numbers, r.newId,
                    Message(id, tenant, did, Inbound, r.sender, r.text, r.telnyxId, Received));
      }
    case Report(_, _) => ReportSound(s, r);
    case SyncDid(_, _, _, _) => SyncSound(s, grants, r);
    case DeleteDid(_, _) => DeleteSound(s, r);
  }

  /** The request deletes this DID. */
  predicate Deletes(s: Inbox, r: Request, did: int) {
    r.DeleteDid? && r.objectId != "" && did in LinesOf(s.dids, r.tenant, r.objectId)
  }

  function Drawn(r: Request): Option<int> {
    match r
    case Send(_, _, _, _, _, _, newId) => Some(newId)
    case Receive(_, _, _, _, _, newId) => Some(newId)
    case SyncDid(_, _, _, newId) => Some(newId)
    case _ => None
  }

  /** A DID goes exactly when it is deleted, never changes tenant or object id, and is only added by a sync. */
  lemma {:induction false} StepDids(s: Inbox, grants: set<Grant>, r: Request)
    requires Fresh(s, r)
    ensures var after := Apply(s, grants, r);
            && (forall d :: d in s.dids ==> (d in after.dids <==> !Deletes(s, r, d)))
            && (forall d :: d in s.dids && d in after.dids ==>
                  after.dids[d].tenant == s.dids[d].tenant && after.dids[d].objectId == s.dids[d].objectId)
            && (forall d :: d in after.dids && d !in s.dids ==> Drawn(r) == Some(d))
  {
    hide Resolved, Broadcast, Receives, Sends;
  }

  /** A thread goes exactly with its DID, and never changes. */
  lemma {:induction false} StepThreads(s: Inbox, grants: set<Grant>, r: Request)
    requires Sound(s) && Fresh(s, r)
    ensures var after := Apply(s, grants, r);
            && (forall a :: a in s.threads ==> (a in after.threads <==> s.threads[a].did in after.dids))
            && (forall a :: a in s.threads && a in after.threads ==> after.threads[a] == s.threads[a])
            && (forall a :: a in after.threads && a !in s.threads ==> Drawn(r) == Some(a))
  {
    StepDids(s, grants, r);
    match r
    case Send(_, _, _, _, _, _, _) =>
      ResolvedUnique(s.threads, r.tenant, r.did, r.to, r.newId);
      ResolvedOnlyAdds(s.threads, r.tenant, r.did, r.to, r.newId);
      hide Resolved, Unique, KeyOf, Broadcast;
    case Receive(_, _, _, _, _, _) =>
      if Receives(s, r) {
        var did, numbers := r.first.value, Counterparties(r.sender, Present(r.to));
        ResolvedUnique(s.threads, s.dids[did].tenant, did, numbers, r.newId);
        ResolvedOnlyAdds(s.threads, s.dids[did].tenant, did, numbers, r.newId);
        hide Resolved, Unique, KeyOf, Broadcast, Present, Counterparties;
      }
    case _ =>
  }

  // ---------------------------------------------------------------------------
  // Which numbers mean the same thread
  // ---------------------------------------------------------------------------

  /** Each number of a is some number of b, written differently perhaps. */
  ghost predicate Rewrites(a: seq<string>, b: seq<string>) {
    forall n :: n in a && n != "" ==> exists m :: m in b && m != "" && Normalize(m) == Normalize(n)
  }

  lemma {:induction false} RewritesIff(a: seq<string>, b: seq<string>)
    ensures Rewrites(a, b) <==> KeyOf(a) <= KeyOf(b)
  {
    hide Normalize;
    if KeyOf(a) <= KeyOf(b) {
      forall n | n in a && n != ""
        ensures exists m :: m in b && m != "" && Normalize(m) == Normalize(n)
      {
        assert Normalize(n) in KeyOf(a);
        assert Normalize(n) in KeyOf(b);
      }
    }
  }

  /** Two lists name the same participants exactly when each rewrites the other. */
  lemma {:induction false} SameKeyIff(a: seq<string>, b: seq<string>)
    ensures KeyOf(a) == KeyOf(b) <==> Rewrites(a, b) && Rewrites(b, a)
  {
    hide Rewrites, KeyOf;
    RewritesIff(a, b);
    RewritesIff(b, a);
  }

  /** Any order, repetition or formatting of the numbers resolves to the thread already there. */
  lemma {:induction false} ResolvesAgain(threads: map<int, Thread>, tenant: int, did: int, a: seq<string>,
                                         b: seq<string>, newId: int, newId': int)
    requires Unique(threads) && newId !in threads && newId' != newId && newId' !in threads
    requires Rewrites(a, b) && Rewrites(b, a)
    ensures var (after, id) := Resolved(threads, tenant, did, a, newId);
            Resolved(after, tenant, did, b, newId') == (after, id)
  {
    hide Rewrites, KeyOf, NewThread, Unique, Matches;
    SameKeyIff(a, b);
    ResolvedUnique(threads, tenant, did, a, newId);
    var (after, id) := Resolved(threads, tenant, did, a, newId);
    FindIs(after, tenant, did, KeyOf(b), id);
  }

  /** Different participant sets never share a thread. */
  lemma {:induction false} ThreadsSeparate(threads: map<int, Thread>, tenant: int, did: int, a: seq<string>,
                                           b: seq<string>, newId: int, newId': int)
    requires Unique(threads) && newId !in threads && newId' != newId && newId' !in threads && KeyOf(a) != KeyOf(b)
    ensures var (after, id) := Resolved(threads, tenant, did, a, newId);
            Resolved(after, tenant, did, b, newId').1 != id
  {
    ResolvedUnique(threads, tenant, did, a, newId);
    var (after, id) := Resolved(threads, tenant, did, a, newId);
    ResolvedUnique(after, tenant, did, b, newId');
  }

  // ---------------------------------------------------------------------------
  // Redelivery and replies
  // ---------------------------------------------------------------------------

  /** A webhook that would store a message changes nothing exactly when its Telnyx id is stored already. */
  lemma {:induction false} RedeliveryIff(s: Inbox, grants: set<Grant>, r: Request)
    requires r.Receive? && Receives(s, r)
    ensures Apply(s, grants, r) == s <==> Taken(s.messages, r.telnyxId)
  {
    hide Resolved, Broadcast, Taken, Present, Counterparties;
    if !Taken(s.messages, r.telnyxId) {
      assert |Apply(s, grants, r).messages| == |s.messages| + 1;
    }
  }

  /** Deleting a DID frees the Telnyx ids of its messages and no others. */
  lemma {:induction false} DeletionForgets(s: Inbox, grants: set<Grant>, r: Request, id: Option<string>)
    requires Sound(s) && r.DeleteDid? && id.Some?
    ensures Taken(Apply(s, grants, r).messages, id) <==>
            exists m :: m in s.messages && m.telnyxId == id && !Deletes(s, r, m.did)
  {
    hide Unique, Once, OneLine, LinesOf;
    var after := Apply(s, grants, r).messages;
    forall m
      ensures m in after <==> m in s.messages && !Deletes(s, r, m.did)
    {
    }
  }

  ghost predicate OwnedOnly(dids: map<int, Line>, did: int) {
    did in dids && forall d :: d in dids && d != did ==> dids[d].number != dids[did].number
  }

  /** The message a request stored last. */
  function LastMessage(s: Inbox): Message
    requires s.messages != []
  {
    s.messages[|s.messages| - 1]
  }

  /**
   A message addressed first to a DID nobody else owns: a taken Telnyx id changes nothing; otherwise it
   lands in the thread of an earlier send from that DID exactly when its counterparties are the
   send's recipients.
  */
  lemma {:induction false} ReplyLandsIff(s: Inbox, grants: set<Grant>, thread: int, sent: seq<string>, r: Request)
    requires Sound(s) && Fresh(s, r) && Answered(s, r)
    requires r.Receive? && r.sender != "" && Present(r.to) != []
    requires thread in s.threads && KeyOf(s.threads[thread].participants) == KeyOf(sent)
    requires OwnedOnly(s.dids, s.threads[thread].did)
    requires s.dids[s.threads[thread].did].number == Present(r.to)[0]
    ensures Taken(s.messages, r.telnyxId) ==> Apply(s, grants, r) == s
    ensures !Taken(s.messages, r.telnyxId) ==>
              && |Apply(s, grants, r).messages| == |s.messages| + 1
              && LastMessage(Apply(s, grants, r)).telnyxId == r.telnyxId
              && (LastMessage(Apply(s, grants, r)).thread == thread <==>
                  && Rewrites(Counterparties(r.sender, Present(r.to)), sent)
                  && Rewrites(sent, Counterparties(r.sender, Present(r.to))))
  {
    var did := s.threads[thread].did;
    var tenant := s.threads[thread].tenant;
    assert r.first == Some(did) && s.dids[did].tenant == tenant;
    var numbers := Counterparties(r.sender, Present(r.to));
    SameKeyIff(numbers, sent);
    ResolvedUnique(s.threads, tenant, did, numbers, r.newId);
    hide Rewrites, KeyOf, Present, Counterparties, Taken, Broadcast;
    if KeyOf(numbers) == KeyOf(sent) {
      assert Matches(s.threads[thread], tenant, did, KeyOf(numbers));
    }
  }

  /** What a send leaves behind for later replies, whether or not Telnyx accepts it. */
  lemma {:induction false} SendOpensThread(s: Inbox, grants: set<Grant>, r: Request)
    requires Sound(s) && Fresh(s, r) && r.Send? && Sends(s, r)
    requires r.accepted ==> !Taken(s.messages, r.telnyxId)
    ensures var after := Apply(s, grants, r);
            && |after.messages| == |s.messages| + 1 && LastMessage(after).thread in after.threads
            && Matches(after.threads[LastMessage(after).thread], r.tenant, r.did, KeyOf(r.to))
  {
    ResolvedUnique(s.threads, r.tenant, r.did, r.to, r.newId);
    hide Resolved, Unique, KeyOf, Broadcast;
  }
}
