/**
 apps/users/management/commands/provision_rcm_data.py: the re-runnable provisioning command.

 The command gets or creates labels, tags DIDs, and walks a roster creating missing users with an
 extension and backfilling their DID access. An exception rolls everything back. `draws` gives the
 uuid4 written into each new extension row.
*/
module Provisioning {
  import opened Wrappers
  import opened Tables
  import opened Allocator
  import A = Assignments
  import Ordering
  import Text

  /** A department (of a tenant), division or account. */
  datatype Label = Label(tenant: Option<int>, name: string)

  datatype Tag = Tag(number: string, department: string, account: string)

  /** `account` and `department` are "" where the roster has None. */
  datatype Entry = Entry(first: string, last: string, email: string, account: string, department: string)

  datatype Error = Missing | EmptyEmail | Integrity

  datatype Db = Db(
    users: map<int, User>,
    extensions: map<int, Extension>,
    departments: map<int, Label>,
    divisions: map<int, Label>,
    accounts: map<int, Label>,
    dids: map<int, Did>,
    grants: set<Grant>,
    work: set<Assignment>)

  datatype Config = Config(tenant: int, code: string, start: int, draws: int -> string, roster: seq<Entry>)

  const DEPARTMENTS: seq<string> := ["AR", "EV", "POSTING", "AUTHORIZATION", "DENIALS", "CREDENTIALS", "SUPPORT"]
  const DIVISIONS: seq<string> := ["Medical", "Dental"]
  const ACCOUNTS: seq<string> := ["Rockwell", "Perry Ave", "Parcare", "General", "Excel", "Verrific"]
  const TAGS: seq<Tag> := [
    Tag("+19296682206", "CREDENTIALS", "General"),
    Tag("+19296682207", "AR", "General"),
    Tag("+19296682008", "EV", "Excel"),
    Tag("+19296682209", "EV", "Verrific"),
    Tag("+19296682210", "POSTING", "General")]

  /** `.first()` among rows that tie on the ordering: the least id. */
  function First(ids: set<int>): Option<int> {
    if ids == {} then None else Some(Ordering.Least(ids, Ordering.IntLe))
  }

  predicate IntGe(a: int, b: int) {
    a >= b
  }

  /** The id of a new row. */
  function NewId(ids: set<int>): (id: int)
    ensures id !in ids
  {
    if ids == {} then 0
    else
      Ordering.LeastIsLeast(ids, IntGe);
      Ordering.Least(ids, IntGe) + 1
  }

  // ---------------------------------------------------------------------------
  // Labels
  // ---------------------------------------------------------------------------

  function IdsOf(rows: map<int, Label>, name: Label): set<int> {
    set id | id in rows && rows[id] == name
  }

  function IdOf(rows: map<int, Label>, name: Label): Option<int> {
    First(IdsOf(rows, name))
  }

  /** `get_or_create` */
  function Ensured(rows: map<int, Label>, name: Label): map<int, Label> {
    if IdOf(rows, name).Some? then rows else rows[NewId(rows.Keys) := name]
  }

  function EnsuredAll(rows: map<int, Label>, tenant: Option<int>, names: seq<string>): map<int, Label> {
    if names == [] then rows
    else Ensured(EnsuredAll(rows, tenant, names[..|names| - 1]), Label(tenant, names[|names| - 1]))
  }

  lemma {:induction false} HasId(rows: map<int, Label>, name: Label, id: int)
    requires id in rows && rows[id] == name
    ensures IdOf(rows, name).Some?
  {
    assert id in IdsOf(rows, name);
  }

  lemma {:induction false} EnsuredOwn(rows: map<int, Label>, name: Label)
    ensures IdOf(Ensured(rows, name), name).Some?
  {
    hide IdOf, NewId;
    if IdOf(rows, name).None? {
      HasId(Ensured(rows, name), name, NewId(rows.Keys));
    }
  }

  lemma {:induction false} EnsuredHas(rows: map<int, Label>, name: Label)
    ensures forall other :: IdOf(rows, other).Some? ==> IdOf(Ensured(rows, name), other).Some?
  {
  }

  lemma {:induction false} EnsuredAllHas(rows: map<int, Label>, tenant: Option<int>, names: seq<string>)
    ensures forall name :: name in names ==> IdOf(EnsuredAll(rows, tenant, names), Label(tenant, name)).Some?
  {
    if names == [] {
    } else {
      var n := |names| - 1;
      EnsuredAllHas(rows, tenant, names[..n]);
      EnsuredOwn(EnsuredAll(rows, tenant, names[..n]), Label(tenant, names[n]));
      EnsuredHas(EnsuredAll(rows, tenant, names[..n]), Label(tenant, names[n]));
      assert names == names[..n] + [names[n]];
    }
  }

  lemma {:induction false} NothingToEnsure(rows: map<int, Label>, tenant: Option<int>, names: seq<string>)
    requires forall name :: name in names ==> IdOf(rows, Label(tenant, name)).Some?
    ensures EnsuredAll(rows, tenant, names) == rows
  {
    if names == [] {
    } else {
      var n := |names| - 1;
      assert names[n] in names && forall name :: name in names[..n] ==> name in names;
      NothingToEnsure(rows, tenant, names[..n]);
    }
  }

  // ---------------------------------------------------------------------------
  // DID tags
  // ---------------------------------------------------------------------------

  predicate HasNumber(did: Did, tenant: int, number: string) {
    did.tenant == tenant && did.number == number
  }

  /** `DID.objects.filter(tenant=tenant, number=number).first()` */
  function DidOf(dids: map<int, Did>, tenant: int, number: string): Option<int> {
    First(set d | d in dids && HasNumber(dids[d], tenant, number))
  }

  function TagOne(departments: map<int, Label>, accounts: map<int, Label>, dids: map<int, Did>, tenant: int, tag: Tag)
    : Result<map<int, Did>, Error>
  {
    var did := DidOf(dids, tenant, tag.number);
    var department := IdOf(departments, Label(Some(tenant), tag.department));
    var account := IdOf(accounts, Label(None, tag.account));
    if did.None? then Success(dids)
    else if department.None? || account.None? then Failure(Missing)
    else Success(dids[did.value := dids[did.value].(department := department, account := account)])
  }

  function TagAll(departments: map<int, Label>, accounts: map<int, Label>, dids: map<int, Did>, tenant: int,
                  tags: seq<Tag>)
    : Result<map<int, Did>, Error>
  {
    if tags == [] then Success(dids)
    else
      var earlier :- TagAll(departments, accounts, dids, tenant, tags[..|tags| - 1]);
      TagOne(departments, accounts, earlier, tenant, tags[|tags| - 1])
  }

  predicate SameDid(a: Did, b: Did) {
    a.tenant == b.tenant && a.objectId == b.objectId && a.number == b.number
  }

  /** Equal but for departments and accounts. */
  predicate SameButTags(a: map<int, Did>, b: map<int, Did>) {
    a.Keys == b.Keys && forall d :: d in a ==> SameDid(a[d], b[d])
  }

  lemma {:induction false} SameLookups(a: map<int, Did>, b: map<int, Did>, tenant: int, number: string)
    requires SameButTags(a, b)
    ensures DidOf(a, tenant, number) == DidOf(b, tenant, number)
  {
    assert forall d :: d in a <==> d in b;
    assert forall d :: d in a ==> SameDid(a[d], b[d]);
    assert (set d | d in a && HasNumber(a[d], tenant, number)) == (set d | d in b && HasNumber(b[d], tenant, number));
  }

  ghost predicate Tagged(dids: map<int, Did>, tenant: int, tags: seq<Tag>, d: int) {
    exists i :: 0 <= i < |tags| && DidOf(dids, tenant, tags[i].number) == Some(d)
  }

  lemma {:induction false} TaggedNext(dids: map<int, Did>, tenant: int, tags: seq<Tag>, d: int)
    requires tags != []
    ensures Tagged(dids, tenant, tags, d) <==>
            Tagged(dids, tenant, tags[..|tags| - 1], d) || DidOf(dids, tenant, tags[|tags| - 1].number) == Some(d)
  {
  }

  /** Two taggings of tables that differ in tags only: written where the tag points, kept elsewhere. */
  ghost predicate Overwritten(a: map<int, Did>, b: map<int, Did>, ta: Result<map<int, Did>, Error>,
                              tb: Result<map<int, Did>, Error>, written: int -> bool)
    requires SameButTags(a, b)
  {
    && (ta.Success? <==> tb.Success?)
    && (ta.Success? ==>
          && SameButTags(ta.value, tb.value) && SameButTags(a, ta.value)
          && (forall d :: d in a ==>
              if written(d) then ta.value[d] == tb.value[d] else ta.value[d] == a[d] && tb.value[d] == b[d]))
  }

  lemma {:induction false} TagOneOverwrites(departments: map<int, Label>, accounts: map<int, Label>,
      a: map<int, Did>, b: map<int, Did>, tenant: int, tag: Tag)
    requires SameButTags(a, b)
    ensures Overwritten(a, b, TagOne(departments, accounts, a, tenant, tag),
                        TagOne(departments, accounts, b, tenant, tag),
                        d => DidOf(a, tenant, tag.number) == Some(d))
  {
    SameLookups(a, b, tenant, tag.number);
  }

  /** Tagging overwrites: where it writes, the earlier department and account do not matter. */
  lemma {:induction false} TagsOverwrite(departments: map<int, Label>, accounts: map<int, Label>,
      a: map<int, Did>, b: map<int, Did>, tenant: int, tags: seq<Tag>)
    requires SameButTags(a, b)
    ensures Overwritten(a, b, TagAll(departments, accounts, a, tenant, tags),
                        TagAll(departments, accounts, b, tenant, tags),
                        d => Tagged(a, tenant, tags, d))
  {
    hide TagOne, DidOf, Tagged;
    if tags == [] {
      assert forall d :: !Tagged(a, tenant, tags, d) by {
        NothingTagged(a, tenant);
      }
    } else {
      var n := |tags| - 1;
      TagsOverwrite(departments, accounts, a, b, tenant, tags[..n]);
      var ta, tb := TagAll(departments, accounts, a, tenant, tags[..n]),
          TagAll(departments, accounts, b, tenant, tags[..n]);
      if ta.Success? {
        TagOneOverwrites(departments, accounts, ta.value, tb.value, tenant, tags[n]);
        SameLookups(a, ta.value, tenant, tags[n].number);
        forall d
          ensures Tagged(a, tenant, tags, d) <==>
                  Tagged(a, tenant, tags[..n], d) || DidOf(a, tenant, tags[n].number) == Some(d)
        {
          TaggedNext(a, tenant, tags, d);
        }
      }
    }
  }

  lemma {:induction false} NothingTagged(dids: map<int, Did>, tenant: int)
    ensures forall d :: !Tagged(dids, tenant, [], d)
  {
  }

  /** Tagging twice is tagging once. */
  lemma {:induction false} TagTwice(departments: map<int, Label>, accounts: map<int, Label>,
      dids: map<int, Did>, tenant: int, tags: seq<Tag>)
    requires TagAll(departments, accounts, dids, tenant, tags).Success?
    ensures var tagged := TagAll(departments, accounts, dids, tenant, tags).value;
            TagAll(departments, accounts, tagged, tenant, tags) == Success(tagged)
  {
    hide TagAll, Tagged;
    TagsOverwrite(departments, accounts, dids, dids, tenant, tags);
    var tagged := TagAll(departments, accounts, dids, tenant, tags).value;
    TagsOverwrite(departments, accounts, dids, tagged, tenant, tags);
    var again := TagAll(departments, accounts, tagged, tenant, tags).value;
    assert again.Keys == tagged.Keys;
    assert forall d :: d in tagged ==> again[d] == tagged[d];
    assert again == tagged;
  }

  // ---------------------------------------------------------------------------
  // Users
  // ---------------------------------------------------------------------------

  function UserOf(users: map<int, User>, email: string): Option<int> {
    First(set u | u in users && users[u].email == email)
  }

  /** The number of the first tag with the entry's department and account. */
  function TagNumber(tags: seq<Tag>, e: Entry): Option<string> {
    if tags == [] then None
    else if tags[0].department == e.department && tags[0].account == e.account then Some(tags[0].number)
    else TagNumber(tags[1..], e)
  }

  /** The DID an entry works, if any. */
  function TargetDid(dids: map<int, Did>, tenant: int, e: Entry): (did: Option<int>)
    ensures did.Some? ==> did.value in dids
  {
    if e.account == "" || e.department == "" || TagNumber(TAGS, e).None? then None
    else
      var ids := set d | d in dids && HasNumber(dids[d], tenant, TagNumber(TAGS, e).value);
      assert DidOf(dids, tenant, TagNumber(TAGS, e).value).Some? ==>
             DidOf(dids, tenant, TagNumber(TAGS, e).value).value in ids;
      DidOf(dids, tenant, TagNumber(TAGS, e).value)
  }

  /** The two `get_or_create` calls that give a user the entry's DID. */
  function Backfilled(db: Db, tenant: int, dental: int, user: int, e: Entry): Db {
    var did := TargetDid(db.dids, tenant, e);
    if did.None? then db
    else
      db.(grants := db.grants + {Grant(user, did.value)},
          work := db.work + {Assignment(user, did.value, dental, db.dids[did.value].department)})
  }

  /** `created` lists the email and extension number of each user created so far. */
  datatype Progress = Progress(db: Db, next: int, taken: set<string>, created: seq<(string, string)>)

  /** Numbers of extensions that have a user. */
  function TakenNumbers(extensions: map<int, Extension>, tenant: int): set<string> {
    set e | e in extensions && extensions[e].tenant == tenant && extensions[e].user.Some? :: extensions[e].number
  }

  function Start(cfg: Config, db: Db): Progress {
    Progress(db, cfg.start, TakenNumbers(db.extensions, cfg.tenant), [])
  }

  function Request(cfg: Config, p: Progress, e: Entry): A.Op {
    A.Provision(NewId(p.db.users.Keys), Text.Normal(e.email), e.first, e.last, cfg.tenant, cfg.code,
      Text.Decimal(NextFree(p.taken, p.next)),
      NewId(p.db.extensions.Keys), cfg.draws(NewId(p.db.extensions.Keys)))
  }

  function NewUser(cfg: Config, p: Progress, e: Entry): Result<Progress, Error> {
    if e.email == "" then Failure(EmptyEmail)
    else
      var op := Request(cfg, p, e);
      var d := A.ApplyProvision(A.Directory(p.db.users, p.db.extensions), op);
      if d.Failure? then Failure(Integrity)
      else
        Success(Progress(p.db.(users := d.value.users, extensions := d.value.extensions),
                         NextFree(p.taken, p.next) + 1, p.taken + {op.extensionNumber},
                         p.created + [(e.email, op.extensionNumber)]))
  }

  function Step(cfg: Config, dental: int, p: Progress, e: Entry): Result<Progress, Error> {
    var user := UserOf(p.db.users, e.email);
    if user.Some? then Success(p.(db := Backfilled(p.db, cfg.tenant, dental, user.value, e)))
    else
      var made :- NewUser(cfg, p, e);
      Success(made.(db := Backfilled(made.db, cfg.tenant, dental, Request(cfg, p, e).id, e)))
  }

  function Users(cfg: Config, dental: int, db: Db, roster: seq<Entry>): Result<Progress, Error> {
    if roster == [] then Success(Start(cfg, db))
    else
      var earlier :- Users(cfg, dental, db, roster[..|roster| - 1]);
      Step(cfg, dental, earlier, roster[|roster| - 1])
  }

  function Labels(cfg: Config, db: Db): Db {
    db.(departments := EnsuredAll(db.departments, Some(cfg.tenant), DEPARTMENTS),
        divisions := EnsuredAll(db.divisions, None, DIVISIONS),
        accounts := EnsuredAll(db.accounts, None, ACCOUNTS))
  }

  /** The tables when `_provision_users` starts. */
  function Prepared(cfg: Config, db: Db): Result<Db, Error> {
    var labelled := Labels(cfg, db);
    var dids :- TagAll(labelled.departments, labelled.accounts, labelled.dids, cfg.tenant, TAGS);
    Success(labelled.(dids := dids))
  }

  function Provisioned(cfg: Config, db: Db): Result<Progress, Error> {
    var prepared :- Prepared(cfg, db);
    var dental := IdOf(prepared.divisions, Label(None, "Dental"));
    if dental.None? then Failure(Missing) else Users(cfg, dental.value, prepared, cfg.roster)
  }

  /** What a dry run keeps: the counter, the taken numbers and the lines printed. */
  datatype DryRun = DryRun(next: int, taken: set<string>, plan: seq<(string, string)>)

  /** A dry run gives a number to every entry without a user. */
  function Plan(users: map<int, User>, start: DryRun, roster: seq<Entry>): DryRun {
    if roster == [] then start
    else
      var d := Plan(users, start, roster[..|roster| - 1]);
      var email := roster[|roster| - 1].email;
      if UserOf(users, email).Some? then d
      else
        var n := NextFree(d.taken, d.next);
        DryRun(n + 1, d.taken + {Text.Decimal(n)}, d.plan + [(email, Text.Decimal(n))])
  }

  function DryStart(cfg: Config, db: Db): DryRun {
    DryRun(cfg.start, TakenNumbers(db.extensions, cfg.tenant), [])
  }

  // ---------------------------------------------------------------------------
  // What one roster entry does
  // ---------------------------------------------------------------------------

  lemma {:induction false} UserOfIff(users: map<int, User>, email: string)
    ensures UserOf(users, email).Some? <==> A.EmailTaken(users, email)
    ensures UserOf(users, email).Some? ==>
            UserOf(users, email).value in users && users[UserOf(users, email).value].email == email
  {
    var ids := set u | u in users && users[u].email == email;
    if u :| u in users && users[u].email == email {
      assert u in ids;
    }
  }

  lemma {:induction false} UserOfKept(users: map<int, User>, id: int, user: User, email: string)
    requires id !in users && user.email != email
    ensures UserOf(users[id := user], email) == UserOf(users, email)
  {
    var after := users[id := user];
    assert (set u | u in after && after[u].email == email) == (set u | u in users && users[u].email == email);
  }

  /** Equal but for DID access, which may have grown. */
  ghost predicate Granted(before: Db, after: Db) {
    && after == before.(grants := after.grants, work := after.work)
    && before.grants <= after.grants && before.work <= after.work
  }

  lemma {:induction false} BackfilledGrants(db: Db, tenant: int, dental: int, user: int, e: Entry)
    ensures Granted(db, Backfilled(db, tenant, dental, user, e))
  {
  }

  /** The counter, the user row and the line written for a new user. */
  ghost predicate Made(cfg: Config, p: Progress, e: Entry, q: Progress) {
    var n := NextFree(p.taken, p.next);
    && !A.EmailTaken(p.db.users, Text.Normal(e.email))
    && q.db.users == p.db.users[NewId(p.db.users.Keys) := User(Text.Normal(e.email), e.first, e.last, Some(cfg.tenant))]
    && q.next == n + 1 && q.taken == p.taken + {Text.Decimal(n)}
    && q.created == p.created + [(e.email, Text.Decimal(n))]
  }

  lemma {:induction false} NewUserMakes(cfg: Config, p: Progress, e: Entry)
    requires NewUser(cfg, p, e).Success?
    ensures Made(cfg, p, e, NewUser(cfg, p, e).value)
    ensures var q := NewUser(cfg, p, e).value;
            q.db == p.db.(users := q.db.users, extensions := q.db.extensions)
  {
  }

  /** A step adds at most the entry's own user and touches no label and no DID. */
  lemma {:induction false} StepShape(cfg: Config, dental: int, p: Progress, e: Entry)
    requires Step(cfg, dental, p, e).Success?
    ensures var q := Step(cfg, dental, p, e).value;
            && q.db.dids == p.db.dids && q.db.departments == p.db.departments
            && q.db.divisions == p.db.divisions && q.db.accounts == p.db.accounts
            && p.db.grants <= q.db.grants && p.db.work <= q.db.work
            && (forall u :: u in p.db.users ==> u in q.db.users && q.db.users[u] == p.db.users[u])
            && (UserOf(p.db.users, e.email).Some? ==> Granted(p.db, q.db) && q == p.(db := q.db))
            && (UserOf(p.db.users, e.email).None? ==> Made(cfg, p, e, q))
  {
    hide UserOf, NewUser, Backfilled, NextFree, Text.Decimal, Text.Normal, A.EmailTaken, NewId;
    var user := UserOf(p.db.users, e.email);
    if user.Some? {
      BackfilledGrants(p.db, cfg.tenant, dental, user.value, e);
    } else {
      NewUserMakes(cfg, p, e);
      BackfilledGrants(NewUser(cfg, p, e).value.db, cfg.tenant, dental, Request(cfg, p, e).id, e);
    }
  }

  /** The entry has its user, and that user its DID. */
  ghost predicate Settled(db: Db, tenant: int, dental: int, e: Entry) {
    var user := UserOf(db.users, e.email);
    user.Some? && Backfilled(db, tenant, dental, user.value, e) == db
  }

  lemma {:induction false} BackfilledStays(db: Db, after: Db, tenant: int, dental: int, user: int, e: Entry)
    requires after.dids == db.dids && db.grants <= after.grants && db.work <= after.work
    requires Backfilled(db, tenant, dental, user, e) == db
    ensures Backfilled(after, tenant, dental, user, e) == after
  {
  }

  lemma {:induction false} SettledStays(cfg: Config, dental: int, p: Progress, e: Entry, settled: Entry)
    requires Step(cfg, dental, p, e).Success? && Settled(p.db, cfg.tenant, dental, settled)
    ensures Settled(Step(cfg, dental, p, e).value.db, cfg.tenant, dental, settled)
  {
    hide Backfilled;
    StepShape(cfg, dental, p, e);
    var after := Step(cfg, dental, p, e).value.db;
    if UserOf(p.db.users, e.email).None? {
      UserOfIff(p.db.users, settled.email);
      UserOfKept(p.db.users, NewId(p.db.users.Keys), after.users[NewId(p.db.users.Keys)], settled.email);
    }
    BackfilledStays(p.db, after, cfg.tenant, dental, UserOf(p.db.users, settled.email).value, settled);
  }

  predicate Normalised(e: Entry) {
    Text.Normal(e.email) == e.email
  }

  lemma {:induction false} BackfillTwice(db: Db, tenant: int, dental: int, user: int, e: Entry)
    ensures var once := Backfilled(db, tenant, dental, user, e);
            Backfilled(once, tenant, dental, user, e) == once && once.users == db.users && once.dids == db.dids
  {
  }

  lemma {:induction false} StepSettles(cfg: Config, dental: int, p: Progress, e: Entry)
    requires Step(cfg, dental, p, e).Success?
    requires Normalised(e) || UserOf(p.db.users, e.email).Some?
    ensures Settled(Step(cfg, dental, p, e).value.db, cfg.tenant, dental, e)
  {
    StepShape(cfg, dental, p, e);
    hide Backfilled, TargetDid;
    var user := UserOf(p.db.users, e.email);
    if user.Some? {
      BackfillTwice(p.db, cfg.tenant, dental, user.value, e);
    } else {
      var id := NewId(p.db.users.Keys);
      var made := NewUser(cfg, p, e).value;
      BackfillTwice(made.db, cfg.tenant, dental, id, e);
      OnlyUser(p.db.users, id, made.db.users[id]);
    }
  }

  lemma {:induction false} OnlyUser(users: map<int, User>, id: int, user: User)
    requires id !in users && UserOf(users, user.email).None?
    ensures UserOf(users[id := user], user.email) == Some(id)
  {
    UserOfIff(users, user.email);
    var after := users[id := user];
    assert (set u | u in after && after[u].email == user.email) == {id};
  }

  // ---------------------------------------------------------------------------
  // Running twice
  // ---------------------------------------------------------------------------

  /** The entries a rerun can recognise: their users are stored under the very same email. */
  ghost predicate Recognisable(db: Db, roster: seq<Entry>) {
    forall i :: 0 <= i < |roster| ==> Normalised(roster[i]) || A.EmailTaken(db.users, roster[i].email)
  }

  /** The roster only adds users, and touches no label and no DID. */
  lemma {:induction false} UsersShape(cfg: Config, dental: int, db: Db, roster: seq<Entry>)
    requires Users(cfg, dental, db, roster).Success?
    ensures var after := Users(cfg, dental, db, roster).value.db;
            && (forall u :: u in db.users ==> u in after.users && after.users[u] == db.users[u])
            && after.dids == db.dids && after.departments == db.departments
            && after.divisions == db.divisions && after.accounts == db.accounts
  {
    hide Step;
    if roster == [] {
    } else {
      var n := |roster| - 1;
      UsersShape(cfg, dental, db, roster[..n]);
      StepShape(cfg, dental, Users(cfg, dental, db, roster[..n]).value, roster[n]);
    }
  }

  /** What the whole roster leaves behind. */
  lemma {:induction false} UsersSettle(cfg: Config, dental: int, db: Db, roster: seq<Entry>)
    requires Users(cfg, dental, db, roster).Success? && Recognisable(db, roster)
    ensures forall i :: 0 <= i < |roster| ==>
            Settled(Users(cfg, dental, db, roster).value.db, cfg.tenant, dental, roster[i])
  {
    hide Step, Settled, Normalised, UserOf;
    if roster == [] {
    } else {
      var n := |roster| - 1;
      assert forall i :: 0 <= i < n ==> roster[..n][i] == roster[i];
      UsersSettle(cfg, dental, db, roster[..n]);
      UsersShape(cfg, dental, db, roster[..n]);
      var p := Users(cfg, dental, db, roster[..n]).value;
      UserOfIff(p.db.users, roster[n].email);
      StepSettles(cfg, dental, p, roster[n]);
      forall i | 0 <= i < n
        ensures Settled(Step(cfg, dental, p, roster[n]).value.db, cfg.tenant, dental, roster[i])
      {
        assert roster[..n][i] == roster[i];
        SettledStays(cfg, dental, p, roster[n], roster[i]);
      }
    }
  }

  lemma {:induction false} SettledUsersNoop(cfg: Config, dental: int, db: Db, roster: seq<Entry>)
    requires forall i :: 0 <= i < |roster| ==> Settled(db, cfg.tenant, dental, roster[i])
    ensures Users(cfg, dental, db, roster) == Success(Start(cfg, db))
  {
    if roster == [] {
    } else {
      var n := |roster| - 1;
      SettledUsersNoop(cfg, dental, db, roster[..n]);
      assert Settled(db, cfg.tenant, dental, roster[n]);
      assert Step(cfg, dental, Start(cfg, db), roster[n]) == Success(Start(cfg, db));
    }
  }

  lemma {:induction false} PreparedTwice(cfg: Config, db: Db, after: Db)
    requires Prepared(cfg, db).Success?
    requires var prepared := Prepared(cfg, db).value;
             after.departments == prepared.departments && after.divisions == prepared.divisions
             && after.accounts == prepared.accounts && after.dids == prepared.dids
    ensures Prepared(cfg, after) == Success(after)
  {
    hide TagAll;
    var labelled := Labels(cfg, db);
    EnsuredAllHas(db.departments, Some(cfg.tenant), DEPARTMENTS);
    EnsuredAllHas(db.divisions, None, DIVISIONS);
    EnsuredAllHas(db.accounts, None, ACCOUNTS);
    NothingToEnsure(labelled.departments, Some(cfg.tenant), DEPARTMENTS);
    NothingToEnsure(labelled.divisions, None, DIVISIONS);
    NothingToEnsure(labelled.accounts, None, ACCOUNTS);
    TagTwice(labelled.departments, labelled.accounts, db.dids, cfg.tenant, TAGS);
  }

  /** Running the command again, with any starting number, changes nothing. */
  lemma {:induction false} RunTwice(cfg: Config, again: Config, db: Db)
    requires Provisioned(cfg, db).Success? && Recognisable(db, cfg.roster)
    requires again.tenant == cfg.tenant && again.roster == cfg.roster
    ensures var after := Provisioned(cfg, db).value.db;
            Provisioned(again, after) == Success(Start(again, after))
  {
    hide TagAll, EnsuredAll, Users, Settled, Start;
    var prepared := Prepared(cfg, db).value;
    var dental := IdOf(prepared.divisions, Label(None, "Dental")).value;
    var after := Provisioned(cfg, db).value.db;
    UsersSettle(cfg, dental, prepared, cfg.roster);
    UsersShape(cfg, dental, prepared, cfg.roster);
    PreparedTwice(cfg, db, after);
    SettledUsersNoop(again, dental, after, again.roster);
  }

  lemma {:induction false} UsersPrefix(cfg: Config, dental: int, db: Db, roster: seq<Entry>, k: nat)
    requires Users(cfg, dental, db, roster).Success? && k <= |roster|
    ensures Users(cfg, dental, db, roster[..k]).Success?
    ensures var before, after := Users(cfg, dental, db, roster[..k]).value, Users(cfg, dental, db, roster).value;
            forall u :: u in before.db.users ==> u in after.db.users && after.db.users[u] == before.db.users[u]
  {
    hide Step;
    if k == |roster| {
      assert roster[..k] == roster;
    } else {
      var n := |roster| - 1;
      assert roster[..n][..k] == roster[..k];
      UsersPrefix(cfg, dental, db, roster[..n], k);
      StepShape(cfg, dental, Users(cfg, dental, db, roster[..n]).value, roster[n]);
    }
  }

  /** No user is ever created under an email that is not normalised. */
  lemma {:induction false} StaysUnknown(cfg: Config, dental: int, db: Db, roster: seq<Entry>, email: string)
    requires Users(cfg, dental, db, roster).Success? && !A.EmailTaken(db.users, email) && Text.Normal(email) != email
    ensures !A.EmailTaken(Users(cfg, dental, db, roster).value.db.users, email)
  {
    hide Step, Text.Normal;
    if roster == [] {
    } else {
      var n := |roster| - 1;
      StaysUnknown(cfg, dental, db, roster[..n], email);
      StepShape(cfg, dental, Users(cfg, dental, db, roster[..n]).value, roster[n]);
      NormalIdempotent(roster[n].email);
    }
  }

  lemma {:induction false} NormalIdempotent(email: string)
    ensures Text.Normal(Text.Normal(email)) == Text.Normal(email)
  {
    Text.LowerStripIdempotent(email);
  }

  /** The moment an unrecognisable entry is reached its user is created, under another email. */
  lemma {:induction false} UnknownIsCreated(cfg: Config, dental: int, db: Db, roster: seq<Entry>, k: nat)
    requires Users(cfg, dental, db, roster).Success? && k < |roster|
    requires !A.EmailTaken(db.users, roster[k].email) && Text.Normal(roster[k].email) != roster[k].email
    ensures !A.EmailTaken(db.users, Text.Normal(roster[k].email))
    ensures A.EmailTaken(Users(cfg, dental, db, roster).value.db.users, Text.Normal(roster[k].email))
  {
    hide Step, Text.Normal, UserOf;
    var e := roster[k];
    UsersPrefix(cfg, dental, db, roster, k);
    UsersPrefix(cfg, dental, db, roster, k + 1);
    assert roster[..k + 1][..k] == roster[..k] && roster[..k + 1][k] == e;
    var p, q := Users(cfg, dental, db, roster[..k]).value, Users(cfg, dental, db, roster[..k + 1]).value;
    StaysUnknown(cfg, dental, db, roster[..k], e.email);
    UserOfIff(p.db.users, e.email);
    StepShape(cfg, dental, p, e);
    UsersShape(cfg, dental, db, roster[..k]);
    assert q.db.users[NewId(p.db.users.Keys)].email == Text.Normal(e.email);
  }

  /** After a successful run, a rerun succeeds exactly when every entry can be recognised. */
  lemma {:induction false} RerunSucceedsIff(cfg: Config, again: Config, db: Db)
    requires Provisioned(cfg, db).Success?
    requires again.tenant == cfg.tenant && again.roster == cfg.roster
    ensures Provisioned(again, Provisioned(cfg, db).value.db).Success? <==> Recognisable(db, cfg.roster)
  {
    if Recognisable(db, cfg.roster) {
      RunTwice(cfg, again, db);
    } else {
      RerunFails(cfg, again, db);
    }
  }

  lemma {:induction false} RerunFails(cfg: Config, again: Config, db: Db)
    requires Provisioned(cfg, db).Success? && !Recognisable(db, cfg.roster)
    requires again.tenant == cfg.tenant && again.roster == cfg.roster
    ensures Provisioned(again, Provisioned(cfg, db).value.db).Failure?
  {
    hide TagAll, EnsuredAll, Users, Text.Normal, A.EmailTaken;
    var prepared := Prepared(cfg, db).value;
    var dental := IdOf(prepared.divisions, Label(None, "Dental")).value;
    var after := Provisioned(cfg, db).value.db;
    UsersShape(cfg, dental, prepared, cfg.roster);
    PreparedTwice(cfg, db, after);
    var k :| 0 <= k < |cfg.roster| && !(Normalised(cfg.roster[k]) || A.EmailTaken(db.users, cfg.roster[k].email));
    StaysUnknown(cfg, dental, prepared, cfg.roster, cfg.roster[k].email);
    UnknownIsCreated(cfg, dental, prepared, cfg.roster, k);
    if Users(again, dental, after, again.roster).Success? {
      UnknownIsCreated(again, dental, after, again.roster, k);
    }
  }

  // ---------------------------------------------------------------------------
  // The command
  // ---------------------------------------------------------------------------

  /** The name list loops of departments, divisions and accounts. */
  method EnsureAll(rows: map<int, Label>, tenant: Option<int>, names: seq<string>) returns (rows': map<int, Label>)
    ensures rows' == EnsuredAll(rows, tenant, names)
  {
    rows' := rows;
    for i := 0 to |names|
      invariant rows' == EnsuredAll(rows, tenant, names[..i])
    {
      assert names[..i + 1][..i] == names[..i];
      if IdOf(rows', Label(tenant, names[i])).None? {
        rows' := rows'[NewId(rows'.Keys) := Label(tenant, names[i])];
      }
    }
    assert names[..|names|] == names;
  }

  lemma {:induction false} TagFails(departments: map<int, Label>, accounts: map<int, Label>, dids: map<int, Did>,
                                    tenant: int, tags: seq<Tag>, k: nat)
    requires k <= |tags| && TagAll(departments, accounts, dids, tenant, tags[..k]).Failure?
    ensures TagAll(departments, accounts, dids, tenant, tags) == TagAll(departments, accounts, dids, tenant, tags[..k])
  {
    hide TagOne;
    if k == |tags| {
      assert tags[..k] == tags;
    } else {
      var n := |tags| - 1;
      assert tags[..n][..k] == tags[..k];
      TagFails(departments, accounts, dids, tenant, tags[..n], k);
    }
  }

  lemma {:induction false} UsersFail(cfg: Config, dental: int, db: Db, roster: seq<Entry>, k: nat)
    requires k <= |roster| && Users(cfg, dental, db, roster[..k]).Failure?
    ensures Users(cfg, dental, db, roster) == Users(cfg, dental, db, roster[..k])
  {
    hide Step;
    if k == |roster| {
      assert roster[..k] == roster;
    } else {
      var n := |roster| - 1;
      assert roster[..n][..k] == roster[..k];
      UsersFail(cfg, dental, db, roster[..n], k);
    }
  }

  class Command {
    var db: Db

    constructor (db: Db)
      ensures this.db == db
    {
      this.db := db;
    }

    /** `_tag_dids` */
    method TagDids(tenant: int) returns (r: Result<(), Error>)
      modifies this
      ensures match TagAll(old(db).departments, old(db).accounts, old(db).dids, tenant, TAGS)
              case Success(dids) => r.Success? && db == old(db).(dids := dids)
              case Failure(error) => r == Failure(error)
    {
      hide TagOne;
      for i := 0 to |TAGS|
        invariant TagAll(old(db).departments, old(db).accounts, old(db).dids, tenant, TAGS[..i]) == Success(db.dids)
        invariant db == old(db).(dids := db.dids)
      {
        assert TAGS[..i + 1][..i] == TAGS[..i];
        var tagged := TagOne(db.departments, db.accounts, db.dids, tenant, TAGS[i]);
        if tagged.Failure? {
          TagFails(old(db).departments, old(db).accounts, old(db).dids, tenant, TAGS, i + 1);
          return Failure(tagged.error);
        }
        db := db.(dids := tagged.value);
      }
      assert TAGS[..|TAGS|] == TAGS;
      r := Success(());
    }

    /** The branch of `_provision_users` for an email without a user. */
    method CreateUser(cfg: Config, e: Entry, next: int, taken: set<string>, created: seq<(string, string)>)
      returns (r: Result<Progress, Error>)
      ensures r == NewUser(cfg, Progress(db, next, taken, created), e)
    {
      hide Text.Normal, A.ApplyProvision, NextFree, Text.Decimal;
      var number := SkipTaken(taken, next);
      var text := Text.Decimal(number);
      if e.email == "" {
        return Failure(EmptyEmail);
      }
      var row := NewId(db.extensions.Keys);
      var op := A.Provision(NewId(db.users.Keys), Text.Normal(e.email), e.first, e.last, cfg.tenant, cfg.code, text,
                            row, cfg.draws(row));
      var saved := A.ApplyProvision(A.Directory(db.users, db.extensions), op);
      if saved.Failure? {
        return Failure(Integrity);
      }
      r := Success(Progress(db.(users := saved.value.users, extensions := saved.value.extensions),
                            number + 1, taken + {text}, created + [(e.email, text)]));
    }

    /** The loop body of `_provision_users`. */
    method ProvisionEntry(cfg: Config, dental: int, e: Entry, next: int, taken: set<string>,
                          created: seq<(string, string)>)
      returns (r: Result<Progress, Error>)
      ensures r == Step(cfg, dental, Progress(db, next, taken, created), e)
    {
      hide Backfilled, NewUser, UserOf;
      var user := UserOf(db.users, e.email);
      if user.Some? {
        return Success(Progress(Backfilled(db, cfg.tenant, dental, user.value, e), next, taken, created));
      }
      var made := CreateUser(cfg, e, next, taken, created);
      if made.Failure? {
        return made;
      }
      r := Success(made.value.(db := Backfilled(made.value.db, cfg.tenant, dental, NewId(db.users.Keys), e)));
    }

    /** `_provision_users` without --dry-run */
    method ProvisionUsers(cfg: Config, dental: int) returns (r: Result<seq<(string, string)>, Error>)
      modifies this
      ensures match Users(cfg, dental, old(db), cfg.roster)
              case Success(p) => r == Success(p.created) && db == p.db
              case Failure(error) => r == Failure(error)
    {
      hide Step, TakenNumbers;
      var next, taken, created := cfg.start, TakenNumbers(db.extensions, cfg.tenant), [];
      for i := 0 to |cfg.roster|
        invariant Users(cfg, dental, old(db), cfg.roster[..i]) == Success(Progress(db, next, taken, created))
      {
        assert cfg.roster[..i + 1][..i] == cfg.roster[..i];
        var done := ProvisionEntry(cfg, dental, cfg.roster[i], next, taken, created);
        if done.Failure? {
          UsersFail(cfg, dental, old(db), cfg.roster, i + 1);
          return Failure(done.error);
        }
        db, next, taken, created := done.value.db, done.value.next, done.value.taken, done.value.created;
      }
      assert cfg.roster[..|cfg.roster|] == cfg.roster;
      r := Success(created);
    }

    /** `_provision_users` with --dry-run */
    method PlanUsers(cfg: Config) returns (plan: seq<(string, string)>)
      ensures plan == Plan(db.users, DryStart(cfg, db), cfg.roster).plan
    {
      hide UserOf, NextFree, Text.Decimal, TakenNumbers;
      var next, taken := cfg.start, TakenNumbers(db.extensions, cfg.tenant);
      plan := [];
      for i := 0 to |cfg.roster|
        invariant Plan(db.users, DryStart(cfg, db), cfg.roster[..i]) == DryRun(next, taken, plan)
      {
        assert cfg.roster[..i + 1][..i] == cfg.roster[..i];
        if UserOf(db.users, cfg.roster[i].email).None? {
          var number := SkipTaken(taken, next);
          next := number + 1;
          taken := taken + {Text.Decimal(number)};
          plan := plan + [(cfg.roster[i].email, Text.Decimal(number))];
        }
      }
      assert cfg.roster[..|cfg.roster|] == cfg.roster;
    }

    /** `handle`: nothing is kept of a dry run or of a failed run. */
    method Handle(cfg: Config, dryRun: bool) returns (r: Result<seq<(string, string)>, Error>)
      modifies this
      ensures dryRun ==> db == old(db) && r == Success(Plan(old(db).users, DryStart(cfg, old(db)), cfg.roster).plan)
      ensures !dryRun ==> match Provisioned(cfg, old(db))
                          case Success(p) => r == Success(p.created) && db == p.db
                          case Failure(error) => r == Failure(error) && db == old(db)
    {
      if dryRun {
        var plan := PlanUsers(cfg);
        return Success(plan);
      }
      hide Users, TagAll, EnsuredAll;
      var saved := db;
      var departments := EnsureAll(db.departments, Some(cfg.tenant), DEPARTMENTS);
      var divisions := EnsureAll(db.divisions, None, DIVISIONS);
      var accounts := EnsureAll(db.accounts, None, ACCOUNTS);
      db := db.(departments := departments, divisions := divisions, accounts := accounts);
      assert db == Labels(cfg, saved);
      var tagged := TagDids(cfg.tenant);
      if tagged.Failure? {
        db := saved;
        return Failure(tagged.error);
      }
      var dental := IdOf(db.divisions, Label(None, "Dental"));
      if dental.None? {
        db := saved;
        return Failure(Missing);
      }
      r := ProvisionUsers(cfg, dental.value);
      if r.Failure? {
        db := saved;
      }
    }
  }
}
