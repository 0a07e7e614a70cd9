/**
 apps/users/serializers.py and apps/users/views.py: the rule of apps/dids/models.py that a user works only
 DIDs of the user's own tenant, over runs of the requests that move users and grant DIDs.

 A request of the serializer is its account part (Assignments) followed by its "did_assignments" part
 (DidSync), rolled back together.
*/
module TenantRule {
  import opened Wrappers
  import opened Tables
  import A = Assignments
  import D = DidSync

  /** `dids` holds the tenant of each DID. */
  datatype Site = Site(directory: A.Directory, dids: map<int, int>, access: D.Access)

  /**
   `Upsert` is a create or update with its "did_assignments", None when the field is absent; `Account` any
   request that touches extensions only.
  */
  datatype Request =
    | Upsert(op: A.Op, rows: Option<seq<D.Row>>)
    | Account(op: A.Op)
    | GrantDid(user: int, did: int)
    | RevokeDid(user: int, did: int)
    | DeleteUser(user: int)
    | AddDid(did: int, tenant: int)
    | DropDid(did: int)

  predicate HasFeature(features: A.Features, tenant: Option<int>) {
    tenant.Some? && (tenant.value in features.calling || tenant.value in features.messaging)
  }

  /** The access tables after the "did_assignments" part, for a user now in this tenant. */
  function Granted(access: D.Access, features: A.Features, op: A.Op, tenant: Option<int>, rows: Option<seq<D.Row>>)
    : Result<D.Access, D.Error>
    requires OfSerializer(op)
  {
    if rows.None? then Success(access)
    else if op.Update? then D.UpdateResult(access, op.id, tenant, HasFeature(features, tenant), rows.value)
    else D.CreateResult(access, op.id, tenant, HasFeature(features, tenant), rows.value)
  }

  predicate OfSerializer(op: A.Op) {
    op.Create? || op.Update?
  }

  function SavedAccount(d: A.Directory, features: A.Features, op: A.Op): Result<A.Directory, A.Error>
    requires OfSerializer(op)
  {
    if op.Create? then A.ApplyCreate(d, features, op) else A.ApplyUpdate(d, features, op)
  }

  function TenantIn(users: map<int, User>, user: int): Option<int> {
    if user in users then users[user].tenant else None
  }

  function TenantOf(d: A.Directory, user: int): Option<int> {
    TenantIn(d.users, user)
  }

  function Upserted(s: Site, features: A.Features, op: A.Op, rows: Option<seq<D.Row>>): Site
    requires OfSerializer(op)
  {
    var saved := SavedAccount(s.directory, features, op);
    if saved.Failure? then s
    else
      var access := Granted(s.access, features, op, TenantOf(saved.value, op.id), rows);
      if access.Failure? then s else Site(saved.value, s.dids, access.value)
  }

  function WithoutUser(access: D.Access, user: int): D.Access {
    D.Access(D.OtherGrants(access.grants, user), D.Others(access.work, user))
  }

  function WithoutDid(access: D.Access, did: int): D.Access {
    D.Access(set g | g in access.grants && g.did != did, set a | a in access.work && a.did != did)
  }

  /** `UserDIDView.post` */
  function DidGranted(s: Site, features: A.Features, user: int, did: int): Site {
    if did !in s.dids then s
    else
      var saved := A.ApplyGrantDid(s.directory, features, A.GrantDid(user, s.dids[did]));
      if saved.Failure? then s
      else Site(saved.value, s.dids, s.access.(grants := s.access.grants + {Grant(user, did)}))
  }

  /** A refused request leaves everything as it was. */
  ghost function Apply(s: Site, features: A.Features, r: Request): Site
    requires r.Upsert? ==> OfSerializer(r.op)
  {
    match r
    case Upsert(op, rows) => Upserted(s, features, op, rows)
    case Account(op) => s.(directory := A.After(s.directory, features, op))
    case GrantDid(user, did) => DidGranted(s, features, user, did)
    case RevokeDid(user, did) => s.(access := s.access.(grants := s.access.grants - {Grant(user, did)}))
    case DeleteUser(user) =>
      if user !in s.directory.users then s
      else Site(A.Directory(s.directory.users - {user}, A.Cleared(s.directory.extensions, user)), s.dids,
                WithoutUser(s.access, user))
    case AddDid(did, tenant) => s.(dids := s.dids[did := tenant])
    case DropDid(did) => Site(s.directory, s.dids - {did}, WithoutDid(s.access, did))
  }

  /** `_resolve_did` answers with DIDs of the tenant asked for. */
  ghost predicate Answers(s: Site, tenant: Option<int>, rows: Option<seq<D.Row>>) {
    rows.Some? ==>
      forall i :: 0 <= i < |rows.value| && rows.value[i].did.Some? ==>
        rows.value[i].did.value in s.dids && Some(s.dids[rows.value[i].did.value]) == tenant
  }

  /** New rows get new ids, and lookups are answered from the tables. */
  ghost predicate Enabled(s: Site, features: A.Features, r: Request) {
    match r
    case Upsert(op, rows) =>
      && OfSerializer(op) && A.Enabled(s.directory, op)
      && var saved := SavedAccount(s.directory, features, op);
         (saved.Success? ==> Answers(s, TenantOf(saved.value, op.id), rows))
    case Account(op) => op.Assign? || op.Unassign? || op.Sync? || op.Drop?
    case AddDid(did, tenant) => did !in s.dids
    case _ => true
  }

  // ---------------------------------------------------------------------------
  // The serializer's methods
  // ---------------------------------------------------------------------------

  ghost function SiteOf(accounts: A.Accounts, dids: map<int, int>, tables: D.AccessTables): Site
    reads accounts, tables
  {
    Site(accounts.Model(), dids, tables.Model())
  }

  /** `UserUpsertSerializer.update` with all its fields: a refused DID undoes the account part too. */
  method Update(accounts: A.Accounts, tables: D.AccessTables, ghost dids: map<int, int>, features: A.Features, op: A.Op,
                rows: Option<seq<D.Row>>) returns (ok: bool)
    requires op.Update?
    modifies accounts, tables
    ensures SiteOf(accounts, dids, tables) == Upserted(old(SiteOf(accounts, dids, tables)), features, op, rows)
    ensures !ok ==> SiteOf(accounts, dids, tables) == old(SiteOf(accounts, dids, tables))
  {
    var users0, extensions0 := accounts.users, accounts.extensions;
    var saved := accounts.Update(features, op);
    if saved.Failure? {
      return false;
    }
    if rows.None? {
      return true;
    }
    var tenant := TenantIn(accounts.users, op.id);
    var synced := tables.Update(op.id, tenant, HasFeature(features, tenant), rows.value);
    if synced.Failure? {
      accounts.users, accounts.extensions := users0, extensions0;
      return false;
    }
    ok := true;
  }

  /** `UserUpsertSerializer.create`, likewise. */
  method Create(accounts: A.Accounts, tables: D.AccessTables, ghost dids: map<int, int>, features: A.Features, op: A.Op,
                rows: Option<seq<D.Row>>) returns (ok: bool)
    requires op.Create?
    requires forall g :: g in tables.grants ==> g.user != op.id
    requires forall a :: a in tables.work ==> a.user != op.id
    modifies accounts, tables
    ensures SiteOf(accounts, dids, tables) == Upserted(old(SiteOf(accounts, dids, tables)), features, op, rows)
    ensures !ok ==> SiteOf(accounts, dids, tables) == old(SiteOf(accounts, dids, tables))
  {
    var users0, extensions0 := accounts.users, accounts.extensions;
    var saved := accounts.Create(features, op);
    if saved.Failure? {
      return false;
    }
    if rows.None? {
      return true;
    }
    var tenant := TenantIn(accounts.users, op.id);
    var synced := tables.Create(op.id, tenant, HasFeature(features, tenant), rows.value);
    if synced.Failure? {
      accounts.users, accounts.extensions := users0, extensions0;
      return false;
    }
    ok := true;
  }

  // ---------------------------------------------------------------------------
  // The rule
  // ---------------------------------------------------------------------------

  ghost predicate Follows(s: Site, g: Grant) {
    g.user in s.directory.users && g.did in s.dids && s.directory.users[g.user].tenant == Some(s.dids[g.did])
  }

  /** Every grant is of a DID of the user's tenant. */
  ghost predicate Rule(s: Site) {
    forall g :: g in s.access.grants ==> Follows(s, g)
  }

  /**
   What can be seen before the request: an accepted update gives a user who has DIDs another tenant and
   leaves "did_assignments" out.
  */
  ghost predicate Strands(s: Site, features: A.Features, r: Request) {
    && r.Upsert? && r.op.Update? && r.rows.None?
    && A.ApplyUpdate(s.directory, features, r.op).Success?
    && A.NewTenant(s.directory, r.op) != s.directory.users[r.op.id].tenant
    && exists g :: g in s.access.grants && g.user == r.op.id
  }

  lemma {:induction false} UpdateShape(d: A.Directory, features: A.Features, op: A.Op)
    requires op.Update? && A.ApplyUpdate(d, features, op).Success?
    ensures op.id in d.users
    ensures var after := A.ApplyUpdate(d, features, op).value;
            && after.users.Keys == d.users.Keys
            && after.users[op.id].tenant == A.NewTenant(d, op)
            && forall u :: u in d.users && u != op.id ==> after.users[u] == d.users[u]
  {
  }

  lemma {:induction false} CreateShape(d: A.Directory, features: A.Features, op: A.Op)
    requires op.Create? && op.id !in d.users && A.ApplyCreate(d, features, op).Success?
    ensures var after := A.ApplyCreate(d, features, op).value;
            && after.users.Keys == d.users.Keys + {op.id}
            && forall u :: u in d.users ==> after.users[u] == d.users[u]
  {
  }

  /** After an accepted "did_assignments" the user's grants follow the rule, whatever they were before. */
  lemma {:induction false} RowsFollow(s: Site, features: A.Features, r: Request)
    requires r.Upsert? && Enabled(s, features, r) && r.rows.Some?
    requires SavedAccount(s.directory, features, r.op).Success?
    requires var saved := SavedAccount(s.directory, features, r.op).value;
             Granted(s.access, features, r.op, TenantOf(saved, r.op.id), r.rows).Success?
    requires r.op.Create? ==> forall g :: g in s.access.grants ==> g.user != r.op.id
    ensures forall g :: g in Apply(s, features, r).access.grants ==>
              if g.user == r.op.id then Follows(Apply(s, features, r), g) else g in s.access.grants
  {
    hide A.Enabled;
    if r.op.Update? {
      UpdateShape(s.directory, features, r.op);
    }
  }

  lemma {:induction false} UpdateRuleIff(s: Site, features: A.Features, r: Request)
    requires Rule(s) && Enabled(s, features, r) && r.Upsert? && r.op.Update?
    ensures Rule(Apply(s, features, r)) <==> !Strands(s, features, r)
  {
    hide A.Enabled, A.ApplyUpdate, A.NewTenant, D.UpdateResult;
    if A.ApplyUpdate(s.directory, features, r.op).Success? {
      UpdateShape(s.directory, features, r.op);
      if r.rows.None? {
        if Strands(s, features, r) {
          var g :| g in s.access.grants && g.user == r.op.id;
          assert Follows(s, g) && !Follows(Apply(s, features, r), g);
        }
      } else if Granted(s.access, features, r.op, A.NewTenant(s.directory, r.op), r.rows).Success? {
        RowsFollow(s, features, r);
      }
    }
  }

  lemma {:induction false} CreateRule(s: Site, features: A.Features, r: Request)
    requires Rule(s) && Enabled(s, features, r) && r.Upsert? && r.op.Create?
    ensures Rule(Apply(s, features, r))
  {
    assert r.op.id !in s.directory.users;
    assert forall g :: g in s.access.grants ==> Follows(s, g);
    hide A.Enabled, A.ApplyCreate, D.CreateResult;
    var saved := SavedAccount(s.directory, features, r.op);
    if saved.Success? {
      CreateShape(s.directory, features, r.op);
      if r.rows.Some? && Granted(s.access, features, r.op, TenantOf(saved.value, r.op.id), r.rows).Success? {
        RowsFollow(s, features, r);
      }
    }
  }

  /** Extension requests: only a user without a tenant, hence without DIDs, is given one. */
  lemma {:induction false} AccountRule(s: Site, features: A.Features, r: Request)
    requires Rule(s) && Enabled(s, features, r) && r.Account?
    ensures Rule(Apply(s, features, r))
  {
    AccountShape(s.directory, features, r.op);
    hide A.Apply, A.After;
    forall g | g in s.access.grants
      ensures Follows(Apply(s, features, r), g)
    {
      assert Follows(s, g);
    }
  }

  lemma {:induction false} AccountShape(d: A.Directory, features: A.Features, op: A.Op)
    requires op.Assign? || op.Unassign? || op.Sync? || op.Drop?
    ensures forall u :: u in d.users ==>
              u in A.After(d, features, op).users
              && (d.users[u].tenant.Some? ==> A.After(d, features, op).users[u].tenant == d.users[u].tenant)
  {
    hide A.ObjectRow, A.NumberFree;
  }

  lemma {:induction false} GrantRule(s: Site, features: A.Features, r: Request)
    requires Rule(s) && r.GrantDid?
    ensures Rule(Apply(s, features, r))
  {
    var after := Apply(s, features, r);
    forall g | g in after.access.grants
      ensures Follows(after, g)
    {
      if g in s.access.grants {
        assert Follows(s, g);
      }
    }
  }

  lemma {:induction false} OtherRule(s: Site, features: A.Features, r: Request)
    requires Rule(s) && Enabled(s, features, r)
    requires r.RevokeDid? || r.DeleteUser? || r.AddDid? || r.DropDid?
    ensures Rule(Apply(s, features, r))
  {
    var after := Apply(s, features, r);
    forall g | g in after.access.grants
      ensures Follows(after, g)
    {
      assert Follows(s, g);
    }
  }

  /** Of all requests exactly the stranding updates break the rule. */
  lemma {:induction false} StepRuleIff(s: Site, features: A.Features, r: Request)
    requires Rule(s) && Enabled(s, features, r)
    ensures Rule(Apply(s, features, r)) <==> !Strands(s, features, r)
  {
    hide Rule, Apply, A.ApplyUpdate;
    match r
    case Upsert(op, _) =>
      if op.Update? {
        UpdateRuleIff(s, features, r);
      } else {
        CreateRule(s, features, r);
      }
    case Account(_) => AccountRule(s, features, r);
    case GrantDid(_, _) => GrantRule(s, features, r);
    case _ => OtherRule(s, features, r);
  }

  ghost predicate IsRun(states: seq<Site>, features: seq<A.Features>, requests: seq<Request>) {
    && |states| == |requests| + 1 == |features| + 1
    && states[0] == Site(A.Directory(map[], map[]), map[], D.Access({}, {}))
    && forall k {:trigger requests[k]} :: 0 <= k < |requests| ==>
         Enabled(states[k], features[k], requests[k])
         && states[k + 1] == Apply(states[k], features[k], requests[k])
  }

  /** No request before k strands a user's DIDs. */
  ghost predicate NoneStrands(states: seq<Site>, features: seq<A.Features>, requests: seq<Request>, k: nat)
    requires |states| == |requests| + 1 == |features| + 1 && k <= |requests|
  {
    forall j {:trigger requests[j]} :: 0 <= j < k ==> !Strands(states[j], features[j], requests[j])
  }

  /** A run follows the rule in every state up to k if and only if none of its requests strands anyone. */
  lemma {:induction false} RunRuleIff(states: seq<Site>, features: seq<A.Features>, requests: seq<Request>, k: nat)
    requires IsRun(states, features, requests) && k <= |requests|
    ensures (forall i :: 0 <= i <= k ==> Rule(states[i])) <==> NoneStrands(states, features, requests, k)
  {
    hide Apply, Enabled, Strands;
    if k == 0 {
      assert Rule(states[0]);
    } else {
      hide Rule;
      RunRuleIff(states, features, requests, k - 1);
      if Rule(states[k - 1]) {
        StepRuleIff(states[k - 1], features[k - 1], requests[k - 1]);
      }
    }
  }

  /**
   Listed DIDs are accepted only for a user of a tenant with calling or messaging, and only if every one of
   them is found; an empty list, and none at all, always.
  */
  lemma {:induction false} RowsAcceptedIff(access: D.Access, features: A.Features, op: A.Op, tenant: Option<int>,
                                           rows: Option<seq<D.Row>>)
    requires OfSerializer(op)
    ensures Granted(access, features, op, tenant, rows).Success? <==>
            || rows.None? || rows.value == []
            || (&& tenant.Some? && (tenant.value in features.calling || tenant.value in features.messaging)
                && forall i :: 0 <= i < |rows.value| ==> rows.value[i].did.Some?)
  {
  }
}
