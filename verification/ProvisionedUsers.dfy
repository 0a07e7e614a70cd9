/**
 apps/users/management/commands/provision_rcm_data.py: what `_provision_users` guarantees about the
 extension numbers it hands out, about the tables, and about its dry run.
*/
module ProvisionedUsers {
  import opened Wrappers
  import opened Tables
  import opened Allocator
  import opened Provisioning
  import A = Assignments
  import Ordering
  import Text

  // ---------------------------------------------------------------------------
  // Numbers
  // ---------------------------------------------------------------------------

  ghost predicate Numbered(lines: seq<(string, string)>, taken: set<string>, start: int) {
    forall i :: 0 <= i < |lines| ==> lines[i].1 == Text.Decimal(Allocate(taken, start, |lines|)[i])
  }

  lemma {:induction false} NumberedNext(lines: seq<(string, string)>, email: string, taken: set<string>, start: int)
    requires Numbered(lines, taken, start)
    ensures var (t, m) := Counter(taken, start, |lines|);
            var n := NextFree(t, m);
            && Numbered(lines + [(email, Text.Decimal(n))], taken, start)
            && Counter(taken, start, |lines| + 1) == (t + {Text.Decimal(n)}, n + 1)
  {
    hide Text.Decimal, NextFree, Allocate, Counter;
    AllocateNext(taken, start, |lines|);
  }

  /** New users receive, in roster order, the numbers of the counter: the smallest free ones. */
  lemma {:induction false} UsersAllocate(cfg: Config, dental: int, db: Db, roster: seq<Entry>)
    requires Users(cfg, dental, db, roster).Success?
    ensures var p := Users(cfg, dental, db, roster).value;
            var taken := TakenNumbers(db.extensions, cfg.tenant);
            && Numbered(p.created, taken, cfg.start)
            && (p.taken, p.next) == Counter(taken, cfg.start, |p.created|)
  {
    hide Step, UserOf, Numbered, Counter;
    var taken := TakenNumbers(db.extensions, cfg.tenant);
    if roster == [] {
      NothingNumbered(taken, cfg.start);
    } else {
      var n := |roster| - 1;
      UsersAllocate(cfg, dental, db, roster[..n]);
      var p := Users(cfg, dental, db, roster[..n]).value;
      StepShape(cfg, dental, p, roster[n]);
      NumberedNext(p.created, roster[n].email, taken, cfg.start);
    }
  }

  lemma {:induction false} NothingNumbered(taken: set<string>, start: int)
    ensures Numbered([], taken, start) && Counter(taken, start, 0) == (taken, start)
  {
  }

  /** The dry run counts the same way. */
  lemma {:induction false} PlanAllocates(users: map<int, User>, taken: set<string>, start: int, roster: seq<Entry>)
    ensures var d := Plan(users, DryRun(start, taken, []), roster);
            Numbered(d.plan, taken, start) && (d.taken, d.next) == Counter(taken, start, |d.plan|)
  {
    hide UserOf, Numbered, Counter, NextFree, Text.Decimal;
    if roster == [] {
      NothingNumbered(taken, start);
    } else {
      var n := |roster| - 1;
      PlanAllocates(users, taken, start, roster[..n]);
      NumberedNext(Plan(users, DryRun(start, taken, []), roster[..n]).plan, roster[n].email, taken, start);
    }
  }

  // ---------------------------------------------------------------------------
  // Which emails are new
  // ---------------------------------------------------------------------------

  /** Entry h has no user before the run, so the run stores its email in normal form. */
  predicate Absent(users: map<int, User>, roster: seq<Entry>, h: int) {
    0 <= h < |roster| && !A.EmailTaken(users, roster[h].email)
  }

  /** Some earlier entry's normal form is this email. */
  ghost predicate StoredEarlier(users: map<int, User>, roster: seq<Entry>, n: int, email: string) {
    exists h :: 0 <= h < n && Absent(users, roster, h) && Text.Normal(roster[h].email) == email
  }

  lemma {:induction false} StoredEarlierPrefix(users: map<int, User>, roster: seq<Entry>, n: nat, m: nat, email: string)
    requires n <= m <= |roster|
    ensures StoredEarlier(users, roster[..m], n, email) <==> StoredEarlier(users, roster, n, email)
  {
    hide Text.Normal, A.EmailTaken;
    assert forall h :: 0 <= h < n ==> roster[..m][h] == roster[h];
    if StoredEarlier(users, roster, n, email) {
      var h :| 0 <= h < n && Absent(users, roster, h) && Text.Normal(roster[h].email) == email;
      assert Absent(users, roster[..m], h);
    }
    if StoredEarlier(users, roster[..m], n, email) {
      var h :| 0 <= h < n && Absent(users, roster[..m], h) && Text.Normal(roster[..m][h].email) == email;
      assert Absent(users, roster, h);
    }
  }

  /** The emails stored after a run: those before it, and the normal forms of the absent entries. */
  lemma {:induction false} EmailsAfter(cfg: Config, dental: int, db: Db, roster: seq<Entry>, email: string)
    requires Users(cfg, dental, db, roster).Success?
    ensures A.EmailTaken(Users(cfg, dental, db, roster).value.db.users, email)
            <==> A.EmailTaken(db.users, email) || StoredEarlier(db.users, roster, |roster|, email)
  {
    hide Step, UserOf, Text.Normal, A.EmailTaken, StoredEarlier;
    if roster == [] {
      NothingStored(db.users, email);
    } else {
      var n := |roster| - 1;
      var e := roster[n];
      var p := Users(cfg, dental, db, roster[..n]).value;
      EmailsAfter(cfg, dental, db, roster[..n], email);
      EmailsAfter(cfg, dental, db, roster[..n], e.email);
      EmailsAfter(cfg, dental, db, roster[..n], Text.Normal(e.email));
      StoredEarlierPrefix(db.users, roster, n, n, email);
      StoredEarlierPrefix(db.users, roster, n, n, e.email);
      StoredEarlierPrefix(db.users, roster, n, n, Text.Normal(e.email));
      StoredNext(db.users, roster, email);
      UserOfIff(p.db.users, e.email);
      EmailsStep(cfg, dental, p, e, email);
      if !A.EmailTaken(db.users, e.email) && StoredEarlier(db.users, roster, n, e.email) {
        StoredIsNormal(db.users, roster, n, e.email);
      }
    }
  }

  lemma {:induction false} NothingStored(users: map<int, User>, email: string)
    ensures !StoredEarlier(users, [], 0, email)
  {
  }

  lemma {:induction false} StoredNext(users: map<int, User>, roster: seq<Entry>, email: string)
    requires roster != []
    ensures var n := |roster| - 1;
            StoredEarlier(users, roster, |roster|, email)
            <==> StoredEarlier(users, roster, n, email)
                 || (!A.EmailTaken(users, roster[n].email) && Text.Normal(roster[n].email) == email)
  {
    hide Text.Normal, A.EmailTaken;
    var n := |roster| - 1;
    if !A.EmailTaken(users, roster[n].email) && Text.Normal(roster[n].email) == email {
      assert Absent(users, roster, n);
    }
  }

  lemma {:induction false} StoredIsNormal(users: map<int, User>, roster: seq<Entry>, n: int, email: string)
    requires StoredEarlier(users, roster, n, email)
    ensures Text.Normal(email) == email
  {
    hide Text.Normal;
    var h :| 0 <= h < n && Absent(users, roster, h) && Text.Normal(roster[h].email) == email;
    NormalIdempotent(roster[h].email);
  }

  /** One step stores the normal form of an email without a user, and nothing else. */
  lemma {:induction false} EmailsStep(cfg: Config, dental: int, p: Progress, e: Entry, email: string)
    requires Step(cfg, dental, p, e).Success?
    ensures A.EmailTaken(Step(cfg, dental, p, e).value.db.users, email)
            <==> A.EmailTaken(p.db.users, email) || (!A.EmailTaken(p.db.users, e.email)
                                                     && Text.Normal(e.email) == email)
  {
    StepShape(cfg, dental, p, e);
    UserOfIff(p.db.users, e.email);
    hide Step, UserOf, Text.Normal, NewId;
    if !A.EmailTaken(p.db.users, e.email) {
      var id := NewId(p.db.users.Keys);
      var after := Step(cfg, dental, p, e).value.db.users;
      assert id in after && after[id].email == Text.Normal(e.email);
    }
  }

  /** Entry j reaches a user: one there before, or one an earlier entry created. */
  ghost predicate Known(users: map<int, User>, roster: seq<Entry>, j: nat)
    requires j < |roster|
  {
    A.EmailTaken(users, roster[j].email) || StoredEarlier(users, roster, j, roster[j].email)
  }

  // ---------------------------------------------------------------------------
  // The dry run predicts the run
  // ---------------------------------------------------------------------------

  /** No entry without a user before the run meets the user an earlier entry created. */
  ghost predicate NoEcho(users: map<int, User>, roster: seq<Entry>) {
    forall i, j ::
      0 <= i < j < |roster| && Absent(users, roster, i) && Text.Normal(roster[i].email) == roster[j].email ==>
        A.EmailTaken(users, roster[j].email)
  }

  lemma {:induction false} NoEchoPrefix(users: map<int, User>, roster: seq<Entry>, n: nat)
    requires n <= |roster| && NoEcho(users, roster)
    ensures NoEcho(users, roster[..n])
  {
    hide Text.Normal, A.EmailTaken;
    var prefix := roster[..n];
    forall i, j | 0 <= i < j < n && Absent(users, prefix, i) && Text.Normal(prefix[i].email) == prefix[j].email
      ensures A.EmailTaken(users, prefix[j].email)
    {
      assert prefix[i] == roster[i] && prefix[j] == roster[j];
      assert Absent(users, roster, i);
    }
  }

  /** What the run and the dry run do with the same entry. */
  lemma {:induction false} EntrySeenBy(cfg: Config, dental: int, db: Db, roster: seq<Entry>)
    requires Users(cfg, dental, db, roster).Success? && roster != []
    ensures var n := |roster| - 1;
            && Users(cfg, dental, db, roster[..n]).Success?
            && var p := Users(cfg, dental, db, roster[..n]).value;
               && (UserOf(p.db.users, roster[n].email).Some? <==> Known(db.users, roster, n))
               && (UserOf(db.users, roster[n].email).Some? <==> A.EmailTaken(db.users, roster[n].email))
  {
    hide Step, UserOf, A.EmailTaken, StoredEarlier;
    var n := |roster| - 1;
    var p := Users(cfg, dental, db, roster[..n]).value;
    EmailsAfter(cfg, dental, db, roster[..n], roster[n].email);
    StoredEarlierPrefix(db.users, roster, n, n, roster[n].email);
    UserOfIff(p.db.users, roster[n].email);
    UserOfIff(db.users, roster[n].email);
  }

  lemma {:induction false} DryRunPredicts(cfg: Config, dental: int, db: Db, roster: seq<Entry>)
    requires Users(cfg, dental, db, roster).Success? && NoEcho(db.users, roster)
    ensures var p, d := Users(cfg, dental, db, roster).value, Plan(db.users, DryStart(cfg, db), roster);
            p.created == d.plan && p.next == d.next && p.taken == d.taken
  {
    hide Step, UserOf, Text.Normal, NextFree, Text.Decimal, A.EmailTaken;
    if roster == [] {
      assert Plan(db.users, DryStart(cfg, db), []).plan == [];
    } else {
      var n := |roster| - 1;
      NoEchoPrefix(db.users, roster, n);
      DryRunPredicts(cfg, dental, db, roster[..n]);
      EntrySeenBy(cfg, dental, db, roster);
      StepShape(cfg, dental, Users(cfg, dental, db, roster[..n]).value, roster[n]);
    }
  }

  /** The dry run never prints fewer lines, and prints more once an echo has come. */
  lemma {:induction false} DryRunLonger(cfg: Config, dental: int, db: Db, roster: seq<Entry>)
    requires Users(cfg, dental, db, roster).Success?
    ensures |Users(cfg, dental, db, roster).value.created| <= |Plan(db.users, DryStart(cfg, db), roster).plan|
    ensures !NoEcho(db.users, roster) ==>
              |Users(cfg, dental, db, roster).value.created| < |Plan(db.users, DryStart(cfg, db), roster).plan|
  {
    hide Step, UserOf, Text.Normal, NextFree, Text.Decimal, A.EmailTaken, NoEcho;
    if roster == [] {
      NothingEchoes(db.users);
    } else {
      var n := |roster| - 1;
      DryRunLonger(cfg, dental, db, roster[..n]);
      EntrySeenBy(cfg, dental, db, roster);
      StepShape(cfg, dental, Users(cfg, dental, db, roster[..n]).value, roster[n]);
      if !NoEcho(db.users, roster) && NoEcho(db.users, roster[..n]) {
        EchoIsLast(db.users, roster);
      }
    }
  }

  lemma {:induction false} NothingEchoes(users: map<int, User>)
    ensures NoEcho(users, [])
  {
  }

  lemma {:induction false} EchoIsLast(users: map<int, User>, roster: seq<Entry>)
    requires roster != [] && !NoEcho(users, roster) && NoEcho(users, roster[..|roster| - 1])
    ensures !A.EmailTaken(users, roster[|roster| - 1].email) && Known(users, roster, |roster| - 1)
  {
    hide Text.Normal, A.EmailTaken;
    var n := |roster| - 1;
    var i, j :| 0 <= i < j < |roster| && Absent(users, roster, i) && Text.Normal(roster[i].email) == roster[j].email
                && !A.EmailTaken(users, roster[j].email);
    if j < n {
      EchoInPrefix(users, roster, n, i, j);
    }
  }

  lemma {:induction false} EchoInPrefix(users: map<int, User>, roster: seq<Entry>, n: nat, i: nat, j: nat)
    requires i < j < n <= |roster| && Absent(users, roster, i) && Text.Normal(roster[i].email) == roster[j].email
    requires !A.EmailTaken(users, roster[j].email)
    ensures !NoEcho(users, roster[..n])
  {
    hide Text.Normal, A.EmailTaken;
    var prefix := roster[..n];
    assert prefix[i] == roster[i] && prefix[j] == roster[j];
    assert Absent(users, prefix, i);
  }

  /**
   Whatever the roster: the dry run prints exactly what the run does if and only if no entry without
   a user is written like the normal form of an earlier entry without a user.
  */
  lemma {:induction false} DryRunPredictsIff(cfg: Config, dental: int, db: Db, roster: seq<Entry>)
    requires Users(cfg, dental, db, roster).Success?
    ensures Users(cfg, dental, db, roster).value.created == Plan(db.users, DryStart(cfg, db), roster).plan
            <==> NoEcho(db.users, roster)
  {
    hide Users, Plan, NoEcho;
    if NoEcho(db.users, roster) {
      DryRunPredicts(cfg, dental, db, roster);
    } else {
      DryRunLonger(cfg, dental, db, roster);
    }
  }

  // ---------------------------------------------------------------------------
  // The tables stay sound
  // ---------------------------------------------------------------------------

  /** uuid4 never repeats a value already used. */
  ghost predicate FreshDraws(draws: int -> string, extensions: map<int, Extension>) {
    && (forall i, j :: draws(i) == draws(j) ==> i == j)
    && (forall e, i :: e in extensions && extensions[e].objectId == draws(i) ==> i == e)
  }

  ghost predicate Sound(cfg: Config, p: Progress) {
    && A.Valid(A.Directory(p.db.users, p.db.extensions))
    && FreshDraws(cfg.draws, p.db.extensions)
    && TakenNumbers(p.db.extensions, cfg.tenant) <= p.taken
  }

  lemma {:induction false} RequestEnabled(cfg: Config, p: Progress, e: Entry)
    requires Sound(cfg, p)
    ensures A.Enabled(A.Directory(p.db.users, p.db.extensions), Request(cfg, p, e))
  {
  }

  /** A number the counter reaches is never refused: no second row for it is ever written. */
  lemma {:induction false} NumberUsable(cfg: Config, p: Progress, number: string)
    requires Sound(cfg, p) && number !in p.taken
    ensures A.FreeRows(p.db.extensions, cfg.tenant, number) != {}
            || A.NumberFree(p.db.extensions, cfg.tenant, number, None)
  {
    hide A.Valid;
    var rows := p.db.extensions;
    if !A.NumberFree(rows, cfg.tenant, number, None) {
      var id :| id in rows && rows[id].tenant == cfg.tenant && rows[id].number == number;
      assert rows[id].user.Some? ==> number in TakenNumbers(rows, cfg.tenant);
      assert id in A.FreeRows(rows, cfg.tenant, number);
    }
  }

  lemma {:induction false} NewUserSucceedsIff(cfg: Config, p: Progress, e: Entry)
    requires Sound(cfg, p)
    ensures NewUser(cfg, p, e).Success? <==> e.email != "" && !A.EmailTaken(p.db.users, Text.Normal(e.email))
  {
    hide NextFree, Text.Decimal, Text.Normal, NewId, A.Valid, UserOf, A.FreeRows, A.NumberFree, TakenNumbers,
        A.EmailTaken;
    NextFreeIsFirst(p.taken, p.next);
    NumberUsable(cfg, p, Text.Decimal(NextFree(p.taken, p.next)));
  }

  /** The row a new user gets. */
  function HandedId(cfg: Config, p: Progress, e: Entry): int {
    var free := A.FreeRows(p.db.extensions, cfg.tenant, Text.Decimal(NextFree(p.taken, p.next)));
    if free != {} then Ordering.Least(free, Ordering.IntLe) else NewId(p.db.extensions.Keys)
  }

  /** The extensions after a new user: row `id` holds the number for the user, no other row changed. */
  ghost predicate Handed(before: map<int, Extension>, after: map<int, Extension>, id: int, tenant: int, number: string,
                         user: int) {
    && after.Keys == before.Keys + {id}
    && after[id].tenant == tenant && after[id].number == number && after[id].user == Some(user)
    && (id in before ==> before[id].user.None? && after[id].objectId == before[id].objectId)
    && forall other :: other in before && other != id ==> after[other] == before[other]
  }

  lemma {:induction false} NewUserHands(cfg: Config, p: Progress, e: Entry)
    requires NewUser(cfg, p, e).Success?
    ensures var op, q, id := Request(cfg, p, e), NewUser(cfg, p, e).value, HandedId(cfg, p, e);
            && A.ApplyProvision(A.Directory(p.db.users, p.db.extensions), op) ==
                Success(A.Directory(q.db.users, q.db.extensions))
            && Handed(p.db.extensions, q.db.extensions, id, cfg.tenant, op.extensionNumber, op.id)
            && (id !in p.db.extensions ==> q.db.extensions[id].objectId == cfg.draws(id))
  {
  }

  lemma {:induction false} StepSucceedsIff(cfg: Config, dental: int, p: Progress, e: Entry)
    requires Sound(cfg, p)
    ensures Step(cfg, dental, p, e).Success? <==>
            A.EmailTaken(p.db.users, e.email) || (e.email != "" && !A.EmailTaken(p.db.users, Text.Normal(e.email)))
  {
    hide NewUser, UserOf, Sound, Text.Normal, Backfilled;
    UserOfIff(p.db.users, e.email);
    NewUserSucceedsIff(cfg, p, e);
  }

  lemma {:induction false} StepSound(cfg: Config, dental: int, p: Progress, e: Entry)
    requires Sound(cfg, p) && Step(cfg, dental, p, e).Success?
    ensures Sound(cfg, Step(cfg, dental, p, e).value)
  {
    hide NextFree, Text.Decimal, Text.Normal, NewId, A.Valid, UserOf, NewUser, Backfilled;
    if UserOf(p.db.users, e.email).Some? {
      BackfilledGrants(p.db, cfg.tenant, dental, UserOf(p.db.users, e.email).value, e);
    } else {
      NewUserMakes(cfg, p, e);
      NewUserHands(cfg, p, e);
      var op, q := Request(cfg, p, e), NewUser(cfg, p, e).value;
      BackfilledGrants(q.db, cfg.tenant, dental, op.id, e);
      RequestEnabled(cfg, p, e);
      A.ProvisionKeeps(A.Directory(p.db.users, p.db.extensions), op);
      StillFresh(cfg.draws, p.db.extensions, q.db.extensions, HandedId(cfg, p, e), cfg.tenant, op.extensionNumber,
                 op.id);
    }
  }

  lemma {:induction false} StillFresh(draws: int -> string, before: map<int, Extension>, after: map<int, Extension>,
      id: int, tenant: int, number: string, user: int)
    requires FreshDraws(draws, before) && Handed(before, after, id, tenant, number, user)
    requires id !in before ==> after[id].objectId == draws(id)
    ensures FreshDraws(draws, after)
    ensures TakenNumbers(after, tenant) <= TakenNumbers(before, tenant) + {number}
  {
  }

  /** Every entry that reaches no user has a non-empty email whose normal form nobody has. */
  ghost predicate Storable(users: map<int, User>, roster: seq<Entry>) {
    forall j :: 0 <= j < |roster| && !Known(users, roster, j) ==> Fits(users, roster, j)
  }

  ghost predicate Fits(users: map<int, User>, roster: seq<Entry>, j: nat)
    requires j < |roster|
  {
    && roster[j].email != ""
    && !A.EmailTaken(users, Text.Normal(roster[j].email))
    && !StoredEarlier(users, roster, j, Text.Normal(roster[j].email))
  }

  lemma {:induction false} StorableNext(users: map<int, User>, roster: seq<Entry>)
    requires roster != []
    ensures var n := |roster| - 1;
            Storable(users, roster) <==>
                Storable(users, roster[..n]) && (Known(users, roster, n) || Fits(users, roster, n))
  {
    hide A.EmailTaken, Text.Normal, StoredEarlier;
    var n := |roster| - 1;
    forall j | 0 <= j < n
      ensures Known(users, roster[..n], j) <==> Known(users, roster, j)
      ensures Fits(users, roster[..n], j) <==> Fits(users, roster, j)
    {
      StoredEarlierPrefix(users, roster, j, n, roster[j].email);
      StoredEarlierPrefix(users, roster, j, n, Text.Normal(roster[j].email));
    }
  }

  /**
   On sound tables a run succeeds if and only if every entry can be stored; it then leaves the tables
   sound, without a second extension for any number of the tenant.
  */
  lemma {:induction false} UsersSucceedIff(cfg: Config, dental: int, db: Db, roster: seq<Entry>)
    requires A.Valid(A.Directory(db.users, db.extensions)) && FreshDraws(cfg.draws, db.extensions)
    ensures Users(cfg, dental, db, roster).Success? <==> Storable(db.users, roster)
    ensures Users(cfg, dental, db, roster).Success? ==> Sound(cfg, Users(cfg, dental, db, roster).value)
  {
    hide Step, Text.Normal, A.Valid, FreshDraws, A.EmailTaken, Storable, StoredEarlier;
    if roster == [] {
      NothingToStore(db.users);
    } else {
      var n := |roster| - 1;
      UsersSucceedIff(cfg, dental, db, roster[..n]);
      StorableNext(db.users, roster);
      if Users(cfg, dental, db, roster[..n]).Success? {
        var p, e := Users(cfg, dental, db, roster[..n]).value, roster[n];
        EmailsAfter(cfg, dental, db, roster[..n], e.email);
        EmailsAfter(cfg, dental, db, roster[..n], Text.Normal(e.email));
        StoredEarlierPrefix(db.users, roster, n, n, e.email);
        StoredEarlierPrefix(db.users, roster, n, n, Text.Normal(e.email));
        StepSucceedsIff(cfg, dental, p, e);
        if Step(cfg, dental, p, e).Success? {
          StepSound(cfg, dental, p, e);
        }
      }
    }
  }

  lemma {:induction false} NothingToStore(users: map<int, User>)
    ensures Storable(users, [])
  {
  }

  /** In particular when all emails are non-empty and already normal, repeated or not. */
  lemma {:induction false} NormalEmailsStorable(users: map<int, User>, roster: seq<Entry>)
    requires forall i :: 0 <= i < |roster| ==> Normalised(roster[i]) && roster[i].email != ""
    ensures Storable(users, roster)
  {
    hide Text.Normal;
  }

  lemma {:induction false} TagsSucceed(departments: map<int, Label>, accounts: map<int, Label>, dids: map<int, Did>,
                                       tenant: int, tags: seq<Tag>)
    requires forall i :: 0 <= i < |tags| ==>
               IdOf(departments, Label(Some(tenant), tags[i].department)).Some?
                   && IdOf(accounts, Label(None, tags[i].account)).Some?
    ensures TagAll(departments, accounts, dids, tenant, tags).Success?
  {
    hide IdOf, DidOf;
    if tags == [] {
    } else {
      TagsSucceed(departments, accounts, dids, tenant, tags[..|tags| - 1]);
    }
  }

  lemma {:induction false} TagLabelsListed(i: nat)
    requires i < |TAGS|
    ensures TAGS[i].department in DEPARTMENTS && TAGS[i].account in ACCOUNTS
  {
  }

  lemma {:induction false} PreparedSucceeds(cfg: Config, db: Db)
    ensures Prepared(cfg, db).Success?
    ensures IdOf(Prepared(cfg, db).value.divisions, Label(None, "Dental")).Some?
    ensures Prepared(cfg, db).value.users == db.users && Prepared(cfg, db).value.extensions == db.extensions
  {
    hide IdOf, EnsuredAll, TagAll;
    var labelled := Labels(cfg, db);
    EnsuredAllHas(db.departments, Some(cfg.tenant), DEPARTMENTS);
    EnsuredAllHas(db.divisions, None, DIVISIONS);
    EnsuredAllHas(db.accounts, None, ACCOUNTS);
    assert DIVISIONS[1] == "Dental";
    forall i | 0 <= i < |TAGS|
      ensures IdOf(labelled.departments, Label(Some(cfg.tenant), TAGS[i].department)).Some?
      ensures IdOf(labelled.accounts, Label(None, TAGS[i].account)).Some?
    {
      TagLabelsListed(i);
    }
    TagsSucceed(labelled.departments, labelled.accounts, labelled.dids, cfg.tenant, TAGS);
  }

  /** On sound tables the command succeeds if and only if every entry can be stored, and leaves them sound. */
  lemma {:induction false} CommandSucceedsIff(cfg: Config, db: Db)
    requires A.Valid(A.Directory(db.users, db.extensions)) && FreshDraws(cfg.draws, db.extensions)
    ensures Provisioned(cfg, db).Success? <==> Storable(db.users, cfg.roster)
    ensures Provisioned(cfg, db).Success? ==>
              var after := Provisioned(cfg, db).value.db;
              A.Valid(A.Directory(after.users, after.extensions)) && FreshDraws(cfg.draws, after.extensions)
  {
    hide Prepared, Users, A.Valid, FreshDraws, Storable;
    PreparedSucceeds(cfg, db);
    var prepared := Prepared(cfg, db).value;
    UsersSucceedIff(cfg, IdOf(prepared.divisions, Label(None, "Dental")).value, prepared, cfg.roster);
  }

  lemma {:induction false} AmitNormal()
    ensures Text.Normal("Amit@x.com") == "amit@x.com"
  {
    var s, t := "Amit@x.com", "amit@x.com";
    Text.StripTrims(s);
    assert Text.Strip(s) == s;
    var r := Text.Lower(s);
    assert |r| == |t|;
    assert r[0] == t[0] && r[1] == t[1] && r[2] == t[2] && r[3] == t[3] && r[4] == t[4];
    assert r[5] == t[5] && r[6] == t[6] && r[7] == t[7] && r[8] == t[8] && r[9] == t[9];
    assert forall i :: 0 <= i < |t| ==> r[i] == t[i];
  }

  /** Two different spellings of one email: the dry run prints two users, the run creates one. */
  lemma {:induction false} SpellingsExample(cfg: Config, dental: int, db: Db, a: Entry, b: Entry)
    requires db.users == map[] && db.extensions == map[] && FreshDraws(cfg.draws, map[])
    requires a.email == "Amit@x.com" && b.email == "amit@x.com"
    ensures Users(cfg, dental, db, [a, b]).Success?
    ensures |Plan(db.users, DryStart(cfg, db), [a, b]).plan| == 2
    ensures |Users(cfg, dental, db, [a, b]).value.created| == 1
  {
    var roster := [a, b];
    AmitNormal();
    hide Users, Plan, Text.Normal;
    assert Absent(db.users, roster, 0) && Text.Normal(roster[0].email) == roster[1].email;
    assert StoredEarlier(db.users, roster, 1, roster[1].email);
    assert Storable(db.users, roster);
    UsersSucceedIff(cfg, dental, db, roster);
    DryRunLonger(cfg, dental, db, roster);
    PlanOfStrangers(db.users, DryStart(cfg, db), roster);
    FirstCreated(cfg, dental, db, roster);
  }

  lemma {:induction false} PlanOfStrangers(users: map<int, User>, d: DryRun, roster: seq<Entry>)
    requires users == map[]
    ensures |Plan(users, d, roster).plan| == |d.plan| + |roster|
  {
    if roster == [] {
    } else {
      PlanOfStrangers(users, d, roster[..|roster| - 1]);
    }
  }

  /** Among no users the first entry is created. */
  lemma {:induction false} FirstCreated(cfg: Config, dental: int, db: Db, roster: seq<Entry>)
    requires db.users == map[] && roster != [] && Users(cfg, dental, db, roster).Success?
    ensures |Users(cfg, dental, db, roster).value.created| >= 1
  {
    hide NewUser, Backfilled;
    var n := |roster| - 1;
    if n == 0 {
      assert roster[..0] == [];
      NewUserMakes(cfg, Start(cfg, db), roster[0]);
    } else {
      FirstCreated(cfg, dental, db, roster[..n]);
      var p := Users(cfg, dental, db, roster[..n]).value;
      if UserOf(p.db.users, roster[n].email).None? {
        NewUserMakes(cfg, p, roster[n]);
      }
    }
  }

  // ---------------------------------------------------------------------------
  // Who got which DID
  // ---------------------------------------------------------------------------

  /** The grant and the division row belong to the user and the DID of some roster entry. */
  ghost predicate OfRoster(db: Db, tenant: int, roster: seq<Entry>, user: int, did: int) {
    exists i :: 0 <= i < |roster| && TargetDid(db.dids, tenant, roster[i]) == Some(did)
                && user in db.users && db.users[user].email in {roster[i].email, Text.Normal(roster[i].email)}
  }

  /** What the roster adds to DID access: only grants and division rows of its own entries. */
  ghost predicate OnlyRosterAccess(before: Db, after: Db, tenant: int, dental: int, roster: seq<Entry>) {
    && (forall g :: g in after.grants && g !in before.grants ==> OfRoster(after, tenant, roster, g.user, g.did))
    && (forall a :: a in after.work && a !in before.work ==>
          OfRoster(after, tenant, roster, a.user, a.did) && a.division == dental
          && a.did in after.dids && a.department == after.dids[a.did].department)
  }

  lemma {:induction false} OfRosterStays(db: Db, after: Db, tenant: int, roster: seq<Entry>, e: Entry, user: int,
                                         did: int)
    requires OfRoster(db, tenant, roster, user, did) && after.dids == db.dids
    requires user in after.users && after.users[user] == db.users[user]
    ensures OfRoster(after, tenant, roster + [e], user, did)
  {
    hide TargetDid, Text.Normal;
    var i :| 0 <= i < |roster| && TargetDid(db.dids, tenant, roster[i]) == Some(did)
             && user in db.users && db.users[user].email in {roster[i].email, Text.Normal(roster[i].email)};
    assert (roster + [e])[i] == roster[i];
  }

  /** A step's own access rows are those of its entry. */
  lemma {:induction false} StepAccess(cfg: Config, dental: int, p: Progress, e: Entry, user: int, did: int)
    requires Step(cfg, dental, p, e).Success?
    ensures var after := Step(cfg, dental, p, e).value.db;
            && (Grant(user, did) in after.grants && Grant(user, did) !in p.db.grants ==>
                  TargetDid(p.db.dids, cfg.tenant, e) == Some(did)
                  && user in after.users && after.users[user].email in {e.email, Text.Normal(e.email)})
            && (forall division, department ::
                  Assignment(user, did, division, department) in after.work
                  && Assignment(user, did, division, department) !in p.db.work ==>
                    TargetDid(p.db.dids, cfg.tenant, e) == Some(did) && did in p.db.dids
                    && user in after.users && after.users[user].email in {e.email, Text.Normal(e.email)}
                    && division == dental && department == p.db.dids[did].department)
  {
    UserOfIff(p.db.users, e.email);
    StepShape(cfg, dental, p, e);
    if UserOf(p.db.users, e.email).None? {
      NewUserMakes(cfg, p, e);
    }
    hide NewUser, UserOf, TargetDid, Text.Normal;
  }

  /** The backfill grants nobody anything but the DID of an entry of theirs. */
  lemma {:induction false} UsersAccess(cfg: Config, dental: int, db: Db, roster: seq<Entry>)
    requires Users(cfg, dental, db, roster).Success?
    ensures OnlyRosterAccess(db, Users(cfg, dental, db, roster).value.db, cfg.tenant, dental, roster)
  {
    hide Step, TargetDid, Text.Normal, OfRoster, Made, UserOf;
    if roster == [] {
    } else {
      var n := |roster| - 1;
      var e := roster[n];
      UsersAccess(cfg, dental, db, roster[..n]);
      var p := Users(cfg, dental, db, roster[..n]).value;
      var after := Step(cfg, dental, p, e).value.db;
      StepShape(cfg, dental, p, e);
      assert roster == roster[..n] + [e];
      forall user, did
        ensures OfRoster(p.db, cfg.tenant, roster[..n], user, did) ==> OfRoster(after, cfg.tenant, roster, user, did)
      {
        if OfRoster(p.db, cfg.tenant, roster[..n], user, did) {
          KnownUser(p.db, cfg.tenant, roster[..n], user, did);
          OfRosterStays(p.db, after, cfg.tenant, roster[..n], e, user, did);
        }
      }
      forall user, did
        ensures (TargetDid(p.db.dids, cfg.tenant, e) == Some(did)
                 && user in after.users && after.users[user].email in {e.email, Text.Normal(e.email)})
                ==> OfRoster(after, cfg.tenant, roster, user, did)
      {
        OfLast(after, cfg.tenant, roster, user, did);
      }
      forall g | g in after.grants && g !in db.grants
        ensures OfRoster(after, cfg.tenant, roster, g.user, g.did)
      {
        StepAccess(cfg, dental, p, e, g.user, g.did);
      }
      forall a | a in after.work && a !in db.work
        ensures OfRoster(after, cfg.tenant, roster, a.user, a.did) && a.division == dental
        ensures a.did in after.dids && a.department == after.dids[a.did].department
      {
        StepAccess(cfg, dental, p, e, a.user, a.did);
        assert Assignment(a.user, a.did, a.division, a.department) == a;
      }
    }
  }

  lemma {:induction false} KnownUser(db: Db, tenant: int, roster: seq<Entry>, user: int, did: int)
    requires OfRoster(db, tenant, roster, user, did)
    ensures user in db.users
  {
  }

  lemma {:induction false} OfLast(db: Db, tenant: int, roster: seq<Entry>, user: int, did: int)
    requires roster != []
    ensures var e := roster[|roster| - 1];
            (TargetDid(db.dids, tenant, e) == Some(did) && user in db.users
             && db.users[user].email in {e.email, Text.Normal(e.email)})
            ==> OfRoster(db, tenant, roster, user, did)
  {
    hide TargetDid, Text.Normal;
  }

  // ---------------------------------------------------------------------------
  // DIDs across tenants
  // ---------------------------------------------------------------------------

  /** The rule for UserDID rows: a user works only DIDs of the user's own tenant. */
  ghost predicate GrantsInTenant(db: Db) {
    forall g :: g in db.grants ==>
      g.user in db.users && g.did in db.dids && db.users[g.user].tenant == Some(db.dids[g.did].tenant)
  }

  /** The lookup by email ignores tenants: an entry with a DID must not find a user of another tenant. */
  ghost predicate OwnTenant(db: Db, tenant: int, e: Entry) {
    var user := UserOf(db.users, e.email);
    TargetDid(db.dids, tenant, e).Some? && user.Some? ==>
      user.value in db.users && db.users[user.value].tenant == Some(tenant)
  }

  lemma {:induction false} TargetInTenant(dids: map<int, Did>, tenant: int, e: Entry)
    requires TargetDid(dids, tenant, e).Some?
    ensures dids[TargetDid(dids, tenant, e).value].tenant == tenant
  {
    var ids := set d | d in dids && HasNumber(dids[d], tenant, TagNumber(TAGS, e).value);
    assert TargetDid(dids, tenant, e).value in ids;
  }

  lemma {:induction false} BackfillRule(db: Db, tenant: int, dental: int, user: int, e: Entry)
    requires user in db.users
    ensures GrantsInTenant(Backfilled(db, tenant, dental, user, e)) <==>
            GrantsInTenant(db) && (TargetDid(db.dids, tenant, e).Some? ==> db.users[user].tenant == Some(tenant))
  {
    var did := TargetDid(db.dids, tenant, e);
    var after := Backfilled(db, tenant, dental, user, e);
    if did.Some? {
      TargetInTenant(db.dids, tenant, e);
      hide TargetDid;
      assert after.grants == db.grants + {Grant(user, did.value)};
      assert Grant(user, did.value) in after.grants;
      assert forall g :: g in db.grants ==> g in after.grants;
    }
  }

  /** One step keeps the rule exactly when its entry does not find a user of another tenant. */
  lemma {:induction false} StepRule(cfg: Config, dental: int, p: Progress, e: Entry)
    requires Step(cfg, dental, p, e).Success? && (forall g :: g in p.db.grants ==> g.user in p.db.users)
    ensures GrantsInTenant(Step(cfg, dental, p, e).value.db) <==> GrantsInTenant(p.db) && OwnTenant(p.db, cfg.tenant, e)
    ensures forall g :: g in Step(cfg, dental, p, e).value.db.grants ==>
            g.user in Step(cfg, dental, p, e).value.db.users
  {
    UserOfIff(p.db.users, e.email);
    var user := UserOf(p.db.users, e.email);
    if user.Some? {
      BackfilledGrants(p.db, cfg.tenant, dental, user.value, e);
      BackfillRule(p.db, cfg.tenant, dental, user.value, e);
    } else {
      NewUserRule(cfg, p, e);
      var made := NewUser(cfg, p, e).value.db;
      BackfilledGrants(made, cfg.tenant, dental, Request(cfg, p, e).id, e);
      BackfillRule(made, cfg.tenant, dental, Request(cfg, p, e).id, e);
      hide NewUser, GrantsInTenant, Request, Backfilled;
    }
  }

  lemma {:induction false} NewUserRule(cfg: Config, p: Progress, e: Entry)
    requires NewUser(cfg, p, e).Success? && (forall g :: g in p.db.grants ==> g.user in p.db.users)
    ensures var db, id := NewUser(cfg, p, e).value.db, Request(cfg, p, e).id;
            && db.grants == p.db.grants
            && (forall u :: u in p.db.users ==> u in db.users)
            && id in db.users && db.users[id].tenant == Some(cfg.tenant)
            && (GrantsInTenant(db) <==> GrantsInTenant(p.db))
  {
    NewUserMakes(cfg, p, e);
    hide NewUser, NextFree, Text.Decimal;
  }

  /** Users are only added, and only to the tenant. */
  ghost predicate NewInTenant(before: map<int, User>, after: map<int, User>, tenant: int) {
    && (forall u :: u in before ==> u in after && after[u] == before[u])
    && (forall u :: u in after ==> u in before || after[u].tenant == Some(tenant))
  }

  lemma {:induction false} UserFoundAfter(cfg: Config, dental: int, db: Db, roster: seq<Entry>, email: string)
    requires Users(cfg, dental, db, roster).Success?
    ensures var users := Users(cfg, dental, db, roster).value.db.users;
            && (UserOf(db.users, email).Some? ==> UserOf(users, email) == UserOf(db.users, email))
            && NewInTenant(db.users, users, cfg.tenant)
  {
    hide Step, UserOf, Text.Normal, NextFree, Text.Decimal;
    if roster == [] {
      assert Users(cfg, dental, db, []).value.db == db;
    } else {
      var n := |roster| - 1;
      UserFoundAfter(cfg, dental, db, roster[..n], email);
      var p, e := Users(cfg, dental, db, roster[..n]).value, roster[n];
      StepShape(cfg, dental, p, e);
      var users := Users(cfg, dental, db, roster).value.db.users;
      UserOfIff(p.db.users, email);
      if UserOf(p.db.users, e.email).None? && UserOf(p.db.users, email).Some? {
        UserOfKept(p.db.users, NewId(p.db.users.Keys), users[NewId(p.db.users.Keys)], email);
      }
    }
  }

  /** A found user is of the tenant, or was there before the run. */
  lemma {:induction false} OwnTenantBefore(cfg: Config, dental: int, db: Db, roster: seq<Entry>, e: Entry)
    requires Users(cfg, dental, db, roster).Success?
    ensures OwnTenant(Users(cfg, dental, db, roster).value.db, cfg.tenant, e) <==> OwnTenant(db, cfg.tenant, e)
  {
    hide Step, TargetDid;
    UserFoundAfter(cfg, dental, db, roster, e.email);
    UsersShape(cfg, dental, db, roster);
    var after := Users(cfg, dental, db, roster).value.db;
    UserOfIff(after.users, e.email);
    UserOfIff(db.users, e.email);
    assert TargetDid(after.dids, cfg.tenant, e) == TargetDid(db.dids, cfg.tenant, e);
    var user := UserOf(after.users, e.email);
    if user.Some? {
      assert user.value in db.users || after.users[user.value].tenant == Some(cfg.tenant);
    }
  }

  /**
   A run keeps every user's DIDs inside the user's tenant if and only if no roster entry with a DID
   carries the email of a user of another tenant.
  */
  lemma {:induction false} TenantRuleIff(cfg: Config, dental: int, db: Db, roster: seq<Entry>)
    requires Users(cfg, dental, db, roster).Success? && GrantsInTenant(db)
    ensures GrantsInTenant(Users(cfg, dental, db, roster).value.db) <==>
            forall i :: 0 <= i < |roster| ==> OwnTenant(db, cfg.tenant, roster[i])
    ensures forall g :: g in Users(cfg, dental, db, roster).value.db.grants ==>
              g.user in Users(cfg, dental, db, roster).value.db.users
  {
    hide Step, OwnTenant;
    if roster == [] {
      assert Users(cfg, dental, db, []).value.db == db;
    } else {
      var n := |roster| - 1;
      TenantRuleIff(cfg, dental, db, roster[..n]);
      OwnTenantBefore(cfg, dental, db, roster[..n], roster[n]);
      hide GrantsInTenant;
      StepRule(cfg, dental, Users(cfg, dental, db, roster[..n]).value, roster[n]);
      assert forall i :: 0 <= i < n ==> roster[..n][i] == roster[i];
    }
  }

  // ---------------------------------------------------------------------------
  // Who got which number
  // ---------------------------------------------------------------------------

  /** The user with the entry's email holds the extension with that number. */
  ghost predicate HoldsNumber(db: Db, tenant: int, email: string, number: string) {
    exists id ::
      && id in db.extensions && db.extensions[id].tenant == tenant && db.extensions[id].number == number
      && db.extensions[id].user.Some? && db.extensions[id].user.value in db.users
      && db.users[db.extensions[id].user.value].email == Text.Normal(email)
  }

  lemma {:induction false} HoldsNumberStays(cfg: Config, dental: int, p: Progress, e: Entry, email: string,
                                            number: string)
    requires Step(cfg, dental, p, e).Success? && HoldsNumber(p.db, cfg.tenant, email, number)
    ensures HoldsNumber(Step(cfg, dental, p, e).value.db, cfg.tenant, email, number)
  {
    hide NextFree, Text.Decimal, Text.Normal, NewId, UserOf, NewUser, Backfilled;
    StepShape(cfg, dental, p, e);
    if UserOf(p.db.users, e.email).None? {
      NewUserHands(cfg, p, e);
      BackfilledGrants(NewUser(cfg, p, e).value.db, cfg.tenant, dental, Request(cfg, p, e).id, e);
    }
  }

  lemma {:induction false} NewUserHolds(cfg: Config, dental: int, p: Progress, e: Entry)
    requires Step(cfg, dental, p, e).Success? && UserOf(p.db.users, e.email).None?
    ensures HoldsNumber(Step(cfg, dental, p, e).value.db, cfg.tenant, e.email, Text.Decimal(NextFree(p.taken, p.next)))
  {
    hide NextFree, Text.Decimal, Text.Normal, NewId, UserOf, NewUser, Backfilled;
    StepShape(cfg, dental, p, e);
    NewUserHands(cfg, p, e);
    BackfilledGrants(NewUser(cfg, p, e).value.db, cfg.tenant, dental, Request(cfg, p, e).id, e);
  }

  /** Every line of the run is true of the tables it leaves. */
  lemma {:induction false} CreatedHold(cfg: Config, dental: int, db: Db, roster: seq<Entry>, i: nat)
    requires Users(cfg, dental, db, roster).Success? && i < |Users(cfg, dental, db, roster).value.created|
    ensures var p := Users(cfg, dental, db, roster).value;
            HoldsNumber(p.db, cfg.tenant, p.created[i].0, p.created[i].1)
  {
    hide Step, UserOf, HoldsNumber, Text.Normal, NextFree, Text.Decimal;
    if roster == [] {
    } else {
      var n := |roster| - 1;
      var p := Users(cfg, dental, db, roster[..n]).value;
      StepShape(cfg, dental, p, roster[n]);
      if i < |p.created| {
        CreatedHold(cfg, dental, db, roster[..n], i);
        HoldsNumberStays(cfg, dental, p, roster[n], p.created[i].0, p.created[i].1);
      } else {
        NewUserHolds(cfg, dental, p, roster[n]);
      }
    }
  }
}
