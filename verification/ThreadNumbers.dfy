/**
 apps/messaging/services.py and apps/webhooks/views.py: what the numbers of a message, as they are
 written, mean for its thread, and what a DID event does to the table of DIDs.
*/
module ThreadNumbers {
  import opened Wrappers
  import opened Tables
  import opened Conversations
  import Ordering
  import Text

  // ---------------------------------------------------------------------------
  // Formatting
  // ---------------------------------------------------------------------------

  lemma {:induction false} KeyOfParts(xs: seq<string>, n: string, ys: seq<string>)
    requires n != ""
    ensures KeyOf(xs + [n] + ys) == KeyOf(xs) + {Text.DigitsOf(n)} + KeyOf(ys)
  {
    hide Text.DigitsOf;
    var all := xs + [n] + ys;
    assert n in all && Normalize(n) == Text.DigitsOf(n);
    hide Normalize;
    forall k | k in KeyOf(all)
      ensures k in KeyOf(xs) + {Normalize(n)} + KeyOf(ys)
    {
      var m :| m in all && m != "" && Normalize(m) == k;
      assert m in xs || m == n || m in ys;
    }
    forall k | k in KeyOf(xs) + {Normalize(n)} + KeyOf(ys)
      ensures k in KeyOf(all)
    {
      if k in KeyOf(xs) {
        var m :| m in xs && m != "" && Normalize(m) == k;
        assert m in all;
      } else if k in KeyOf(ys) {
        var m :| m in ys && m != "" && Normalize(m) == k;
        assert m in all;
      }
    }
  }

  lemma {:induction false} OneKeyOneThread(threads: map<int, Thread>, tenant: int, did: int, some: seq<string>,
                                           others: seq<string>, newId: int, newId': int)
    requires Unique(threads) && newId !in threads && newId' !in threads && newId != newId'
    requires KeyOf(some) == KeyOf(others)
    ensures Resolved(threads, tenant, did, some, newId).1 == Resolved(threads, tenant, did, others, newId).1
    ensures var (after, id) := Resolved(threads, tenant, did, some, newId);
            Resolved(after, tenant, did, others, newId') == (after, id)
  {
    SameKeyIff(some, others);
    hide KeyOf, Rewrites, Unique, NewThread, Matches;
    ResolvesAgain(threads, tenant, did, some, others, newId, newId');
  }

  /**
   A character that is no digit may be put into or taken out of any number of the list: the same thread is
   found, and a thread opened under one writing is found again under the other.
  */
  lemma {:induction false} FormattingIgnored(threads: map<int, Thread>, tenant: int, did: int, xs: seq<string>,
                                             a: string, c: char, b: string, ys: seq<string>, newId: int, newId': int)
    requires Unique(threads) && newId !in threads && newId' !in threads && newId != newId'
    requires !('0' <= c <= '9') && a + b != ""
    ensures var with, without := xs + [a + [c] + b] + ys, xs + [a + b] + ys;
            && Resolved(threads, tenant, did, with, newId).1 == Resolved(threads, tenant, did, without, newId).1
            && (var (after, id) := Resolved(threads, tenant, did, with, newId);
                Resolved(after, tenant, did, without, newId') == (after, id))
            && (var (after, id) := Resolved(threads, tenant, did, without, newId);
                Resolved(after, tenant, did, with, newId') == (after, id))
  {
    var with, without := xs + [a + [c] + b] + ys, xs + [a + b] + ys;
    Text.DigitsAlone(a, c, b);
    KeyOfParts(xs, a + [c] + b, ys);
    KeyOfParts(xs, a + b, ys);
    hide *;
    OneKeyOneThread(threads, tenant, did, with, without, newId, newId');
    OneKeyOneThread(threads, tenant, did, without, with, newId, newId');
  }

  /** Numbers of digits only, and of at least one, open one thread if and only if they are the same. */
  lemma {:induction false} DigitsApart(threads: map<int, Thread>, tenant: int, did: int, x: string, y: string,
                                       newId: int, newId': int)
    requires Unique(threads) && newId !in threads && newId' !in threads && newId != newId'
    requires x != "" && y != "" && forall c :: c in x || c in y ==> '0' <= c <= '9'
    ensures var (after, id) := Resolved(threads, tenant, did, [x], newId);
            Resolved(after, tenant, did, [y], newId').1 == id <==> x == y
  {
    Text.DigitsAreDigits(x);
    Text.DigitsAreDigits(y);
    KeyOfParts([], x, []);
    KeyOfParts([], y, []);
    assert [] + [x] + [] == [x] && [] + [y] + [] == [y];
    assert KeyOf([]) == {};
    assert KeyOf([x]) == {x} && KeyOf([y]) == {y};
    hide KeyOf, Normalize, Unique, NewThread, Matches;
    if x == y {
      SameKeyIff([x], [y]);
      ResolvesAgain(threads, tenant, did, [x], [y], newId, newId');
    } else {
      assert x in KeyOf([x]) && x !in KeyOf([y]);
      ThreadsSeparate(threads, tenant, did, [x], [y], newId, newId');
    }
  }

  /** A new thread lists the non-empty numbers as first written, each writing once, in that order. */
  lemma {:induction false} ListedAsWritten(tenant: int, did: int, numbers: seq<string>)
    ensures var t := NewThread(tenant, did, numbers);
            && t.tenant == tenant && t.did == did
            && (forall n :: n in t.participants <==> n in numbers && n != "")
            && (forall k, l :: 0 <= k < l < |t.participants| ==> t.participants[k] != t.participants[l])
  {
    var kept := Ordering.Filter(numbers, n => n != "");
    Ordering.DedupedMembers(kept);
    assert forall n :: n in Ordering.Deduped(kept) <==> n in numbers && n != "";
  }

  /** Whatever stands before a participant was also written before it. */
  lemma {:induction false} ListedInOrder(tenant: int, did: int, numbers: seq<string>, i: nat, j: nat, b: nat)
    requires i < j < |NewThread(tenant, did, numbers).participants| && b < |numbers|
    requires numbers[b] == NewThread(tenant, did, numbers).participants[j]
    ensures NewThread(tenant, did, numbers).participants[i] in numbers[..b]
  {
    var keep := (n: string) => n != "";
    var kept, before := Ordering.Filter(numbers, keep), Ordering.Filter(numbers[..b], keep);
    Ordering.DedupedMembers(kept);
    assert NewThread(tenant, did, numbers).participants == Ordering.Deduped(kept);
    var shown := Ordering.Deduped(kept)[j];
    assert shown in kept;
    FilterAt(numbers, keep, b);
    hide *;
    Ordering.DedupedOrder(kept, i, j, |before|);
    assert kept[..|before|] == before;
  }

  lemma {:induction false} FilterAt(numbers: seq<string>, keep: string -> bool, b: nat)
    requires b < |numbers| && keep(numbers[b])
    ensures var before := Ordering.Filter(numbers[..b], keep);
            && before <= Ordering.Filter(numbers, keep)
            && |before| < |Ordering.Filter(numbers, keep)| && Ordering.Filter(numbers, keep)[|before|] == numbers[b]
  {
    assert numbers == numbers[..b] + numbers[b..];
    Ordering.FilterConcat(numbers[..b], numbers[b..], keep);
    Ordering.FilterCut(numbers[b..], keep);
  }

  // ---------------------------------------------------------------------------
  // Who takes part in an inbound message
  // ---------------------------------------------------------------------------

  /** The number addressed: the first one that is not empty. */
  ghost predicate FirstAddressed(to: seq<string>, i: nat) {
    i < |to| && to[i] != "" && forall j :: 0 <= j < i ==> to[j] == ""
  }

  lemma {:induction false} PresentFirst(to: seq<string>, i: nat)
    requires FirstAddressed(to, i)
    ensures Present(to) != [] && Present(to)[0] == to[i]
  {
    if i == 0 {
    } else {
      PresentFirst(to[1..], i - 1);
    }
  }

  /**
   A stored inbound message lies in a thread of the DID addressed whose participants are, digit for digit,
   the sender and every other number addressed.
  */
  lemma {:induction false} InboundParticipants(s: Inbox, grants: set<Grant>, r: Request, i: nat)
    requires Sound(s) && Fresh(s, r) && r.Receive? && Receives(s, r) && !Taken(s.messages, r.telnyxId)
    requires FirstAddressed(r.to, i)
    ensures var after := Apply(s, grants, r);
            && after.messages != [] && LastMessage(after).thread in after.threads
            && var thread := after.threads[LastMessage(after).thread];
               && Some(thread.did) == r.first && thread.did in s.dids && thread.tenant == s.dids[thread.did].tenant
               && (forall k :: k in KeyOf(thread.participants) <==>
                     || k == Text.DigitsOf(r.sender)
                     || exists n :: n in r.to && n != "" && n != r.to[i] && Text.DigitsOf(n) == k)
  {
    PresentFirst(r.to, i);
    var did := r.first.value;
    var numbers := Counterparties(r.sender, Present(r.to));
    forall n
      ensures n in numbers <==> n == r.sender || (n in r.to && n != "" && n != r.to[i])
    {
    }
    forall k
      ensures k in KeyOf(numbers) <==>
              || k == Text.DigitsOf(r.sender)
              || exists n :: n in r.to && n != "" && n != r.to[i] && Text.DigitsOf(n) == k
    {
      hide Text.DigitsOf, Counterparties, Present;
      if k in KeyOf(numbers) {
        var n :| n in numbers && n != "" && Normalize(n) == k;
      }
      if exists n :: n in r.to && n != "" && n != r.to[i] && Text.DigitsOf(n) == k {
        var n :| n in r.to && n != "" && n != r.to[i] && Text.DigitsOf(n) == k;
        assert n in numbers;
        assert Normalize(n) in KeyOf(numbers);
      }
      assert r.sender in numbers;
      assert Normalize(r.sender) in KeyOf(numbers);
    }
    ResolvedUnique(s.threads, s.dids[did].tenant, did, numbers, r.newId);
    hide Resolved, Unique, KeyOf, Normalize, Present, Counterparties, Taken, Broadcast;
  }

  // ---------------------------------------------------------------------------
  // DID events
  // ---------------------------------------------------------------------------

  /** The row a DID event is about: this tenant's row with this object id. */
  ghost predicate Meant(s: Inbox, tenant: int, objectId: string, did: int) {
    objectId != "" && did in s.dids && s.dids[did].tenant == tenant && s.dids[did].objectId == objectId
  }

  /** did.deleted takes away the row of this tenant and object id and no other. */
  lemma {:induction false} DeletedLine(s: Inbox, grants: set<Grant>, r: Request, did: int)
    requires r.DeleteDid?
    ensures var after := Apply(s, grants, r);
            && (did in after.dids <==> did in s.dids && !Meant(s, r.tenant, r.objectId, did))
            && (did in after.dids ==> after.dids[did] == s.dids[did])
  {
  }

  /**
   did.created and did.updated renumber the row of this tenant and object id and tell its users, or add one;
   other rows, the threads and the messages stay. Numbers are cut to 20 characters, and a row without one
   is named after its object id.
  */
  lemma {:induction false} SyncedLine(s: Inbox, grants: set<Grant>, r: Request, did: int)
    requires OneLine(s.dids) && r.SyncDid? && r.newId !in s.dids
    ensures var after := Apply(s, grants, r);
            && after.threads == s.threads && after.messages == s.messages
            && (did in s.dids && !Meant(s, r.tenant, r.objectId, did) ==>
                  did in after.dids && after.dids[did] == s.dids[did])
            && (Meant(s, r.tenant, r.objectId, did) ==>
                  && after.dids.Keys == s.dids.Keys
                  && after.dids[did] == s.dids[did].(number := after.dids[did].number)
                  && (r.number.None? ==> after.dids[did].number == s.dids[did].number)
                  && (r.number.Some? ==>
                        after.dids[did].number == if |r.number.value| <= 20 then r.number.value
                            else r.number.value[..20])
                  && after.events ==
                     s.events + multiset(set g: Grant | g in grants && g.did == did :: ToUser(g.user)))
            && (r.objectId != "" && (forall d :: !Meant(s, r.tenant, r.objectId, d)) ==>
                  && after.dids.Keys == s.dids.Keys + {r.newId} && after.events == s.events
                  && after.dids[r.newId].tenant == r.tenant && after.dids[r.newId].objectId == r.objectId
                  && after.dids[r.newId].number ==
                     match r.number
                     case Some(n) => if |n| <= 20 then n else n[..20]
                     case None => "did-" + if |r.objectId| <= 8 then r.objectId else r.objectId[..8])
  {
    var lines := LinesOf(s.dids, r.tenant, r.objectId);
    forall d
      ensures d in lines && r.objectId != "" <==> Meant(s, r.tenant, r.objectId, d)
    {
    }
    if Meant(s, r.tenant, r.objectId, did) {
      assert did in lines;
      var least := Ordering.Least(lines, Ordering.IntLe);
      assert least in lines;
      assert least == did;
    }
  }
}
