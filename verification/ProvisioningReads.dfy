/**
 apps/users/management/commands/provision_rcm_data.py: what the command leaves in the tables, read off the
 rows themselves.
*/
module ProvisioningReads {
  import opened Wrappers
  import opened Tables
  import opened Allocator
  import opened Provisioning
  import opened ProvisionedUsers
  import A = Assignments
  import Ordering
  import Text

  // ---------------------------------------------------------------------------
  // Labels and tags
  // ---------------------------------------------------------------------------

  ghost predicate Holds(rows: map<int, Label>, wanted: Label) {
    exists id :: id in rows && rows[id] == wanted
  }

  ghost predicate Keeps(rows: map<int, Label>, after: map<int, Label>) {
    forall id :: id in rows ==> id in after && after[id] == rows[id]
  }

  lemma {:induction false} HeldOn(rows: map<int, Label>, after: map<int, Label>, wanted: Label)
    requires Keeps(rows, after) && Holds(rows, wanted)
    ensures Holds(after, wanted)
  {
  }

  /** Rows that are there stay, missing names are added, and nothing else is. */
  lemma {:induction false} LabelsAdded(rows: map<int, Label>, tenant: Option<int>, names: seq<string>)
    ensures var after := EnsuredAll(rows, tenant, names);
            && Keeps(rows, after)
            && (forall i :: 0 <= i < |names| ==> Holds(after, Label(tenant, names[i])))
            && (forall id :: id in after && id !in rows ==>
                  after[id].tenant == tenant && after[id].name in names && !Holds(rows, after[id]))
  {
    if names == [] {
    } else {
      var n := |names| - 1;
      LabelsAdded(rows, tenant, names[..n]);
      var before := EnsuredAll(rows, tenant, names[..n]);
      var after := EnsuredAll(rows, tenant, names);
      EnsuredReads(before, Label(tenant, names[n]));
      hide Ensured, Holds, EnsuredAll;
      forall i | 0 <= i < n
        ensures Holds(after, Label(tenant, names[i]))
      {
        assert names[..n][i] == names[i];
        HeldOn(before, after, Label(tenant, names[i]));
      }
      forall id | id in after && id !in rows
        ensures after[id].tenant == tenant && after[id].name in names && !Holds(rows, after[id])
      {
        if id in before {
          assert before[id].name in names[..n];
        } else if Holds(rows, after[id]) {
          HeldOn(rows, before, after[id]);
        }
      }
    }
  }

  lemma {:induction false} EnsuredReads(rows: map<int, Label>, wanted: Label)
    ensures Keeps(rows, Ensured(rows, wanted)) && Holds(Ensured(rows, wanted), wanted)
    ensures forall id :: id in Ensured(rows, wanted) && id !in rows ==>
              Ensured(rows, wanted)[id] == wanted && !Holds(rows, wanted)
  {
    IdReads(rows, wanted);
    if IdOf(rows, wanted).None? {
      assert Ensured(rows, wanted)[NewId(rows.Keys)] == wanted;
    }
  }

  lemma {:induction false} IdReads(rows: map<int, Label>, name: Label)
    ensures IdOf(rows, name).Some? ==> IdOf(rows, name).value in rows && rows[IdOf(rows, name).value] == name
    ensures IdOf(rows, name).None? ==> forall id :: id in rows ==> rows[id] != name
  {
    forall id
      ensures id in IdsOf(rows, name) <==> id in rows && rows[id] == name
    {
    }
  }

  /** Only this DID of the tenant has the number. */
  ghost predicate OnlyDid(dids: map<int, Did>, tenant: int, number: string, d: int) {
    forall other :: other in dids && dids[other].tenant == tenant && dids[other].number == number <==> other == d
  }

  lemma {:induction false} DidReads(dids: map<int, Did>, tenant: int, number: string, d: int)
    ensures OnlyDid(dids, tenant, number, d) ==> DidOf(dids, tenant, number) == Some(d)
    ensures DidOf(dids, tenant, number) == Some(d) ==>
              d in dids && dids[d].tenant == tenant && dids[d].number == number
    ensures DidOf(dids, tenant, number).None? ==>
              forall other :: other in dids ==> dids[other].tenant != tenant || dids[other].number != number
  {
    var ids := set o | o in dids && HasNumber(dids[o], tenant, number);
    forall o
      ensures o in ids <==> o in dids && dids[o].tenant == tenant && dids[o].number == number
    {
    }
    if OnlyDid(dids, tenant, number, d) {
      assert d in ids;
    }
  }

  /** The tag names the DID of the tenant with this number, and no two tags have one number. */
  ghost predicate TagsApart(tags: seq<Tag>) {
    forall i, j :: 0 <= i < j < |tags| ==> tags[i].number != tags[j].number
  }

  lemma {:induction false} TagOneReads(departments: map<int, Label>, accounts: map<int, Label>, dids: map<int, Did>,
                                       tenant: int, tag: Tag, d: int)
    requires TagOne(departments, accounts, dids, tenant, tag).Success? && d in dids
    ensures var after := TagOne(departments, accounts, dids, tenant, tag).value;
            && after.Keys == dids.Keys
            && (forall e :: e in dids ==> SameDid(after[e], dids[e]))
            && (OnlyDid(dids, tenant, tag.number, d) ==> TaggedAs(departments, accounts, after[d], tenant, tag))
            && (dids[d].tenant != tenant || dids[d].number != tag.number ==> after[d] == dids[d])
  {
    DidReads(dids, tenant, tag.number, d);
    var did := DidOf(dids, tenant, tag.number);
    if did.Some? {
      DidReads(dids, tenant, tag.number, did.value);
    }
    IdReads(departments, Label(Some(tenant), tag.department));
    IdReads(accounts, Label(None, tag.account));
    hide DidOf, IdOf;
  }

  /** The DID shows the tag's department, the tenant's own, and the tag's account. */
  ghost predicate TaggedAs(departments: map<int, Label>, accounts: map<int, Label>, did: Did, tenant: int, tag: Tag) {
    && did.department.Some? && did.department.value in departments
    && departments[did.department.value] == Label(Some(tenant), tag.department)
    && did.account.Some? && did.account.value in accounts
    && accounts[did.account.value] == Label(None, tag.account)
  }

  /**
   Tagging writes the department and account of a tag on the DID of the tenant with the tag's number, and
   leaves every other DID alone.
  */
  lemma {:induction false} TagsRead(departments: map<int, Label>, accounts: map<int, Label>, dids: map<int, Did>,
                                    tenant: int, tags: seq<Tag>, d: int, i: nat)
    requires TagAll(departments, accounts, dids, tenant, tags).Success? && d in dids
    ensures var after := TagAll(departments, accounts, dids, tenant, tags).value;
            && after.Keys == dids.Keys
            && (forall e :: e in dids ==> SameDid(after[e], dids[e]))
            && (i < |tags| && TagsApart(tags) && OnlyDid(dids, tenant, tags[i].number, d) ==>
                  TaggedAs(departments, accounts, after[d], tenant, tags[i]))
            && (dids[d].tenant != tenant || (forall j :: 0 <= j < |tags| ==> dids[d].number != tags[j].number) ==>
                  after[d] == dids[d])
  {
    if tags == [] {
    } else {
      var n := |tags| - 1;
      var before := TagAll(departments, accounts, dids, tenant, tags[..n]).value;
      TagsRead(departments, accounts, dids, tenant, tags[..n], d, i);
      TagOneReads(departments, accounts, before, tenant, tags[n], d);
      SameOnly(dids, before, tenant, tags[n].number, d);
      hide TagOne, TaggedAs, OnlyDid;
      if i < n && TagsApart(tags) && OnlyDid(dids, tenant, tags[i].number, d) {
        assert TagsApart(tags[..n]);
        OnlyHas(dids, tenant, tags[i].number, d);
        assert before[d].number == tags[i].number != tags[n].number;
      }
    }
  }

  lemma {:induction false} OnlyHas(dids: map<int, Did>, tenant: int, number: string, d: int)
    requires OnlyDid(dids, tenant, number, d)
    ensures d in dids && dids[d].tenant == tenant && dids[d].number == number
  {
  }

  lemma {:induction false} SameOnly(a: map<int, Did>, b: map<int, Did>, tenant: int, number: string, d: int)
    requires a.Keys == b.Keys && forall e :: e in a ==> SameDid(b[e], a[e])
    ensures OnlyDid(a, tenant, number, d) <==> OnlyDid(b, tenant, number, d)
  {
    forall e
      ensures (e in a && a[e].tenant == tenant && a[e].number == number)
              <==> (e in b && b[e].tenant == tenant && b[e].number == number)
    {
      assert e in a <==> e in b;
    }
  }

  // ---------------------------------------------------------------------------
  // DID access
  // ---------------------------------------------------------------------------

  /** The first tag with the entry's department and account. */
  ghost predicate FirstTag(tags: seq<Tag>, e: Entry, i: nat) {
    && i < |tags| && tags[i].department == e.department && tags[i].account == e.account
    && forall j :: 0 <= j < i ==> tags[j].department != e.department || tags[j].account != e.account
  }

  lemma {:induction false} TagNumberReads(tags: seq<Tag>, e: Entry, i: nat)
    ensures FirstTag(tags, e, i) ==> TagNumber(tags, e) == Some(tags[i].number)
    ensures (forall j :: 0 <= j < |tags| ==> tags[j].department != e.department || tags[j].account != e.account) ==>
              TagNumber(tags, e).None?
  {
    if tags == [] {
    } else if i > 0 {
      TagNumberReads(tags[1..], e, i - 1);
      assert forall j :: 0 <= j < |tags| - 1 ==> tags[1..][j] == tags[j + 1];
    } else {
      TagNumberReads(tags[1..], e, 0);
      assert forall j :: 0 <= j < |tags| - 1 ==> tags[1..][j] == tags[j + 1];
    }
  }

  /**
   An entry with a department and an account gives its user the DID of the tenant tagged with both, to use
   and to work under the dental division and the DID's own department; any other entry gives nothing.
  */
  lemma {:induction false} BackfillReads(db: Db, tenant: int, dental: int, user: int, e: Entry, i: nat, d: int)
    ensures var after := Backfilled(db, tenant, dental, user, e);
            && after == db.(grants := after.grants, work := after.work)
            && (e.account != "" && e.department != "" && FirstTag(TAGS, e, i)
                && OnlyDid(db.dids, tenant, TAGS[i].number, d) ==>
                  && d in db.dids
                  && after.grants == db.grants + {Grant(user, d)}
                  && after.work == db.work + {Assignment(user, d, dental, db.dids[d].department)})
            && (e.account == "" || e.department == "" ==> after == db)
            && (FirstTag(TAGS, e, i)
                && (forall o :: o in db.dids ==> db.dids[o].tenant != tenant || db.dids[o].number != TAGS[i].number)
                ==> after == db)
  {
    TagNumberReads(TAGS, e, i);
    if FirstTag(TAGS, e, i) {
      var number := TAGS[i].number;
      DidReads(db.dids, tenant, number, d);
      var did := DidOf(db.dids, tenant, number);
      if did.Some? {
        DidReads(db.dids, tenant, number, did.value);
      }
    }
    hide DidOf, TagNumber;
  }

  /** An entry finds the user stored under exactly its email, if there is one. */
  lemma {:induction false} UserReads(users: map<int, User>, email: string)
    ensures UserOf(users, email).Some? ==>
              UserOf(users, email).value in users && users[UserOf(users, email).value].email == email
    ensures UserOf(users, email).None? <==> forall u :: u in users ==> users[u].email != email
  {
    UserOfIff(users, email);
    hide UserOf;
  }

  // ---------------------------------------------------------------------------
  // Numbers
  // ---------------------------------------------------------------------------

  /** Some extension of the tenant has this number and a user. */
  ghost predicate Assigned(extensions: map<int, Extension>, tenant: int, number: string) {
    exists e :: && e in extensions && extensions[e].tenant == tenant && extensions[e].user.Some?
                && extensions[e].number == number
  }

  lemma {:induction false} AssignedIff(extensions: map<int, Extension>, tenant: int, number: string)
    ensures number in TakenNumbers(extensions, tenant) <==> Assigned(extensions, tenant, number)
  {
  }

  /**
   The numbers of the new users are decimal numbers from the starting one on, rising, none of them assigned
   in the tenant before the run, and none passed over that was not.
  */
  lemma {:induction false} NumbersHanded(cfg: Config, dental: int, db: Db, roster: seq<Entry>) returns (ns: seq<int>)
    requires Users(cfg, dental, db, roster).Success?
    ensures var created := Users(cfg, dental, db, roster).value.created;
            && |ns| == |created|
            && (forall i :: 0 <= i < |ns| ==> created[i].1 == Text.Decimal(ns[i]))
            && (forall i :: 0 <= i < |ns| ==> ns[i] >= cfg.start && !Assigned(db.extensions, cfg.tenant, created[i].1))
            && (forall i, j :: 0 <= i < j < |ns| ==> ns[i] < ns[j])
            && (forall i, m :: 0 <= i < |ns| && cfg.start <= m < ns[i] ==>
                  Assigned(db.extensions, cfg.tenant, Text.Decimal(m)) || exists j :: 0 <= j < i && ns[j] == m)
  {
    var taken := TakenNumbers(db.extensions, cfg.tenant);
    var created := Users(cfg, dental, db, roster).value.created;
    UsersAllocate(cfg, dental, db, roster);
    ns := Allocate(taken, cfg.start, |created|);
    AllocatesSmallest(taken, cfg.start, |created|);
    forall number
      ensures number in taken <==> Assigned(db.extensions, cfg.tenant, number)
    {
      AssignedIff(db.extensions, cfg.tenant, number);
    }
    hide Users, TakenNumbers, Assigned, Allocate, Text.Decimal, Counter;
  }
}
