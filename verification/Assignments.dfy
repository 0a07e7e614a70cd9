/**
 Who holds which extension: apps/users/serializers.py (create, update), apps/users/views.py
 (assign, unassign), apps/webhooks/views.py (extension events) and the provisioning step.

 Requests are atomic; a raised error rolls the request back. Database lookups that may have
 several answers (`.first()`) are given to the operation as its answer, which must be one the
 query could return.
*/
module Assignments {
  import opened Wrappers
  import opened Tables
  import Ordering
  import Text

  datatype Error =
    | TenantNotFound
    | TenantRequired
    | EmailRequired
    | DuplicateEmail
    | UserNeedsTenant
    | NoTenant
    | CallingDisabled
    | ExtensionNotFound
    | NotFound
    | WrongTenant
    | IntegrityError

  datatype Directory = Directory(users: map<int, User>, extensions: map<int, Extension>)

  /** The "extension_id" field: blank, or a text that may also parse as a UUID. */
  datatype ExtensionRef = Blank | Ref(uuid: Option<int>, text: string)

  /** `caller.is_superuser or role == "superadmin"`, and the caller's tenant. */
  datatype Caller = Caller(superadmin: bool, tenant: Option<int>)

  /** The tenants with the "calling" and the "messaging" feature. */
  datatype Features = Features(calling: set<int>, messaging: set<int>)

  // ---------------------------------------------------------------------------
  // Lookups
  // ---------------------------------------------------------------------------

  predicate ByIdentity(extensions: map<int, Extension>, ref: ExtensionRef, id: int) {
    ref.Ref? && ref.uuid.Some? && id in extensions && (id == ref.uuid.value || extensions[id].objectId == ref.text)
  }

  predicate InTenant(extensions: map<int, Extension>, tenant: int, id: int) {
    id in extensions && extensions[id].tenant == tenant
  }

  predicate ByNumber(extensions: map<int, Extension>, tenant: int, number: string, id: int) {
    InTenant(extensions, tenant, id) && extensions[id].number == number
  }

  /** `_resolve_extension(ref, tenant)` may answer so: by identity first, then by number. */
  ghost predicate Resolves(extensions: map<int, Extension>, tenant: int, ref: ExtensionRef, answer: Option<int>)
    requires ref.Ref?
  {
    if exists id :: InTenant(extensions, tenant, id) && ByIdentity(extensions, ref, id) then
      answer.Some? && InTenant(extensions, tenant, answer.value) && ByIdentity(extensions, ref, answer.value)
    else
      match answer
      case Some(id) => ByNumber(extensions, tenant, ref.text, id)
      case None => forall id :: !ByNumber(extensions, tenant, ref.text, id)
  }

  /** The tenant of some extension with this identity in any tenant. */
  ghost predicate Infers(extensions: map<int, Extension>, ref: Option<ExtensionRef>, inferred: Option<int>) {
    match inferred
    case Some(tenant) =>
      ref.Some? && exists id :: ByIdentity(extensions, ref.value, id) && extensions[id].tenant == tenant
    case None => ref.None? || forall id :: !ByIdentity(extensions, ref.value, id)
  }

  /**
   The tenant `create` decides on. `raw` is None when "tenant_id" is missing or blank, else the answer
   of `_resolve_tenant`. The manager's `create_user` then refuses a user without one.
  */
  function TenantFor(caller: Option<Caller>, raw: Option<Option<int>>, inferred: Option<int>, superadminRole: bool)
    : Result<Option<int>, Error>
  {
    if caller.Some? && caller.value.superadmin then
      if raw.Some? then
        if raw.value.None? then Failure(TenantNotFound) else Success(raw.value)
      else if inferred.None? && !superadminRole then Failure(TenantRequired)
      else Success(inferred)
    else if caller.Some? && caller.value.tenant.Some? then Success(caller.value.tenant)
    else if raw.Some? then Success(raw.value)
    else Success(None)
  }

  // ---------------------------------------------------------------------------
  // Statements
  // ---------------------------------------------------------------------------

  /** `Extension.objects.filter(user=user).update(user=None)` */
  function Cleared(extensions: map<int, Extension>, user: int): map<int, Extension> {
    map id | id in extensions ::
      if extensions[id].user == Some(user) then extensions[id].(user := None) else extensions[id]
  }

  /** `Extension.objects.filter(id=id).update(user=user)` when the one-to-one column allows it. */
  function Given(extensions: map<int, Extension>, id: int, user: int): map<int, Extension>
    requires id in extensions
  {
    extensions[id := extensions[id].(user := Some(user))]
  }

  /** The one-to-one column: the write is refused while another row names the user. */
  predicate Writable(extensions: map<int, Extension>, id: int, user: int) {
    forall other :: other in extensions && other != id ==> extensions[other].user != Some(user)
  }

  /** Clearing first makes the write legal, whatever the table held. */
  lemma {:induction false} ClearedIsWritable(extensions: map<int, Extension>, id: int, user: int)
    ensures Writable(Cleared(extensions, user), id, user)
    ensures Cleared(extensions, user).Keys == extensions.Keys
  {
  }

  predicate NumberFree(extensions: map<int, Extension>, tenant: int, number: string, except: Option<int>) {
    forall id :: id in extensions && Some(id) != except ==>
      extensions[id].tenant != tenant || extensions[id].number != number
  }

  // ---------------------------------------------------------------------------
  // Operations
  // ---------------------------------------------------------------------------

  datatype Op =
    | Create(id: int, email: string, first: string, last: string, caller: Option<Caller>, raw: Option<Option<int>>,
        inferred: Option<int>, superadminRole: bool, ref: Option<ExtensionRef>, answer: Option<int>)
    | Update(id: int, superadmin: bool, newTenant: Option<Option<int>>, newFirst: Option<string>,
        newLast: Option<string>, ref: Option<ExtensionRef>, answer: Option<int>)
    | Assign(id: int, extension: int)
    | GrantDid(id: int, didTenant: int)
    | Unassign(id: int)
    | Sync(tenant: int, code: string, objectId: string, newId: int, number: Option<string>, sipUsername: Option<string>)
    | Drop(tenant: int, objectId: string)
    | DeleteUser(id: int)
    | Provision(id: int, email: string, first: string, last: string, tenant: int, code: string, extensionNumber: string,
        newId: int, freshObjectId: string)

  predicate EmailTaken(users: map<int, User>, email: string) {
    exists id :: id in users && users[id].email == email
  }

  /** The "extension_id" step shared by create and update, once the user row is saved. */
  function Take(d: Directory, id: int, tenant: Option<int>, features: Features, answer: Option<int>)
    : Result<Directory, Error>
  {
    if tenant.None? then Failure(NoTenant)
    else if tenant.value !in features.calling then Failure(CallingDisabled)
    else if answer.None? || answer.value !in d.extensions then Failure(ExtensionNotFound)
    else Success(d.(extensions := Given(Cleared(d.extensions, id), answer.value, id)))
  }

  function ApplyCreate(d: Directory, features: Features, op: Op): Result<Directory, Error>
    requires op.Create?
  {
    if op.email == "" then Failure(EmailRequired)
    else if EmailTaken(d.users, Text.Normal(op.email)) then Failure(DuplicateEmail)
    else
      var tenant :- TenantFor(op.caller, op.raw, op.inferred, op.superadminRole);
      if tenant.None? then Failure(UserNeedsTenant)
      else
        var saved := d.(users := d.users[op.id := User(Text.Normal(op.email), op.first, op.last, tenant)]);
        if op.ref.None? || op.ref.value.Blank? then Success(saved)
        else Take(saved, op.id, tenant, features, op.answer)
  }

  function NewTenant(d: Directory, op: Op): Option<int>
    requires op.Update? && op.id in d.users
  {
    if op.newTenant.Some? && op.superadmin then op.newTenant.value else d.users[op.id].tenant
  }

  function ApplyUpdate(d: Directory, features: Features, op: Op): Result<Directory, Error>
    requires op.Update?
  {
    if op.id !in d.users then Failure(NotFound)
    else
      var user, tenant := d.users[op.id], NewTenant(d, op);
      var first := if op.newFirst.Some? then op.newFirst.value else user.firstName;
      var last := if op.newLast.Some? then op.newLast.value else user.lastName;
      var saved := d.(users := d.users[op.id := User(user.email, first, last, tenant)]);
      if op.ref.None? then Success(saved)
      else if op.ref.value.Blank? then Success(saved.(extensions := Cleared(d.extensions, op.id)))
      else Take(saved, op.id, tenant, features, op.answer)
  }

  function ApplyAssign(d: Directory, features: Features, op: Op): Result<Directory, Error>
    requires op.Assign?
  {
    if op.id !in d.users || op.extension !in d.extensions then Failure(NotFound)
    else
      var user, own := d.users[op.id], d.extensions[op.extension].tenant;
      if (if user.tenant.Some? then user.tenant.value else own) !in features.calling then Failure(CallingDisabled)
      else if user.tenant.Some? && user.tenant.value != own then Failure(WrongTenant)
      else
        Success(Directory(d.users[op.id := user.(tenant := Some(own))],
                          Given(Cleared(d.extensions, op.id), op.extension, op.id)))
  }

  function ApplyGrantDid(d: Directory, features: Features, op: Op): Result<Directory, Error>
    requires op.GrantDid?
  {
    if op.id !in d.users then Failure(NotFound)
    else
      var user := d.users[op.id];
      var tenant := if user.tenant.Some? then user.tenant.value else op.didTenant;
      if tenant !in features.calling && tenant !in features.messaging then Failure(CallingDisabled)
      else if user.tenant.Some? && user.tenant.value != op.didTenant then Failure(WrongTenant)
      else Success(d.(users := d.users[op.id := user.(tenant := Some(op.didTenant))]))
  }

  predicate ByObject(extensions: map<int, Extension>, tenant: int, objectId: string, id: int) {
    InTenant(extensions, tenant, id) && extensions[id].objectId == objectId
  }

  /** The only extension with an object id, once that is unique in its tenant. */
  ghost function ObjectRow(extensions: map<int, Extension>, tenant: int, objectId: string): Option<int> {
    if exists id :: ByObject(extensions, tenant, objectId, id) then
      var id :| ByObject(extensions, tenant, objectId, id);
      Some(id)
    else None
  }

  function NewNumber(op: Op): string
    requires op.Sync?
  {
    if op.number.Some? then Ordering.Take(op.number.value, 20) else "ext-" + Ordering.Take(op.objectId, 8)
  }

  /** extension.created and extension.updated; the latter never carries a number. */
  ghost function ApplySync(d: Directory, op: Op): Result<Directory, Error>
    requires op.Sync?
  {
    var row := ObjectRow(d.extensions, op.tenant, op.objectId);
    if op.objectId == "" then Success(d)
    else if row.Some? then
      var row0 := d.extensions[row.value];
      var number := if op.number.Some? then Ordering.Take(op.number.value, 20) else row0.number;
      var sip := if op.sipUsername.Some? then op.sipUsername.value else row0.sipUsername;
      if NumberFree(d.extensions, op.tenant, number, row) then
        Success(d.(extensions := d.extensions[row.value := row0.(number := number, sipUsername := sip)]))
      else Failure(IntegrityError)
    else
      var number := NewNumber(op);
      var sip := if op.sipUsername.Some? then op.sipUsername.value else number + "-" + op.code;
      if NumberFree(d.extensions, op.tenant, number, None) then
        Success(d.(extensions := d.extensions[op.newId := Extension(op.tenant, op.objectId, number, sip, None)]))
      else Failure(IntegrityError)
  }

  function Dropped(extensions: map<int, Extension>, tenant: int, objectId: string): map<int, Extension> {
    map id | id in extensions && !ByObject(extensions, tenant, objectId, id) :: extensions[id]
  }

  function FreeRows(extensions: map<int, Extension>, tenant: int, number: string): set<int> {
    set id | id in extensions && ByNumber(extensions, tenant, number, id) && extensions[id].user.None?
  }

  /** One new roster entry: an unassigned extension with the number is reused. */
  function ApplyProvision(d: Directory, op: Op): Result<Directory, Error>
    requires op.Provision?
  {
    if EmailTaken(d.users, op.email) then Failure(DuplicateEmail)
    else
      var users := d.users[op.id := User(op.email, op.first, op.last, Some(op.tenant))];
      var free := FreeRows(d.extensions, op.tenant, op.extensionNumber);
      if free != {} then Success(Directory(users, Given(d.extensions, Ordering.Least(free, Ordering.IntLe), op.id)))
      else if NumberFree(d.extensions, op.tenant, op.extensionNumber, None) then
        Success(Directory(users, d.extensions[op.newId := Extension(op.tenant, op.freshObjectId, op.extensionNumber,
                                                                    op.extensionNumber + "-" + op.code, Some(op.id))]))
      else Failure(IntegrityError)
  }

  ghost function Apply(d: Directory, features: Features, op: Op): Result<Directory, Error> {
    match op
    case Create(_, _, _, _, _, _, _, _, _, _) => ApplyCreate(d, features, op)
    case Update(_, _, _, _, _, _, _) => ApplyUpdate(d, features, op)
    case Assign(_, _) => ApplyAssign(d, features, op)
    case GrantDid(_, _) => ApplyGrantDid(d, features, op)
    case Unassign(id) =>
      if id in d.users then Success(d.(extensions := Cleared(d.extensions, id))) else Failure(NotFound)
    case Sync(_, _, _, _, _, _) => ApplySync(d, op)
    case Drop(tenant, objectId) =>
      Success(if objectId == "" then d else d.(extensions := Dropped(d.extensions, tenant, objectId)))
    case DeleteUser(id) =>
      if id in d.users then Success(Directory(d.users - {id}, Cleared(d.extensions, id))) else Failure(NotFound)
    case Provision(_, _, _, _, _, _, _, _, _) => ApplyProvision(d, op)
  }

  /** The tables after a request: a failed one changes nothing. */
  ghost function After(d: Directory, features: Features, op: Op): Directory {
    var r := Apply(d, features, op);
    if r.Success? then r.value else d
  }

  ghost predicate AnswerValid(d: Directory, tenant: Option<int>, ref: Option<ExtensionRef>, answer: Option<int>) {
    tenant.Some? && ref.Some? && ref.value.Ref? ==> Resolves(d.extensions, tenant.value, ref.value, answer)
  }

  /** New rows get new ids, and lookups are answered from the tables. */
  ghost predicate Enabled(d: Directory, op: Op) {
    match op
    case Create(id, _, _, _, caller, raw, inferred, superadminRole, ref, answer) =>
      && id !in d.users
      && Infers(d.extensions, ref, inferred)
      && var tenant := TenantFor(caller, raw, inferred, superadminRole);
         (tenant.Success? ==> AnswerValid(d, tenant.value, ref, answer))
    case Update(id, _, _, _, _, ref, answer) =>
      id in d.users ==> AnswerValid(d, NewTenant(d, op), ref, answer)
    case Sync(_, _, _, newId, _, _) => newId !in d.extensions
    case Provision(id, _, _, _, tenant, _, _, newId, objectId) =>
      && id !in d.users && newId !in d.extensions
      && (forall e :: !ByObject(d.extensions, tenant, objectId, e))
    case _ => true
  }

  // ---------------------------------------------------------------------------
  // The invariant
  // ---------------------------------------------------------------------------

  /** No user holds two extensions. */
  ghost predicate OneToOne(d: Directory) {
    forall a, b :: a in d.extensions && b in d.extensions && a != b && d.extensions[a].user.Some? ==>
      d.extensions[a].user != d.extensions[b].user
  }

  /** An assigned extension belongs to its user's tenant. */
  ghost predicate SameTenant(d: Directory) {
    forall e :: e in d.extensions && d.extensions[e].user.Some? ==>
      d.extensions[e].user.value in d.users &&
      d.users[d.extensions[e].user.value].tenant == Some(d.extensions[e].tenant)
  }

  ghost predicate Keyed(d: Directory) {
    && (forall a, b :: a in d.extensions && b in d.extensions && a != b &&
                       d.extensions[a].tenant == d.extensions[b].tenant ==>
          d.extensions[a].number != d.extensions[b].number && d.extensions[a].objectId != d.extensions[b].objectId)
    && (forall u, v :: u in d.users && v in d.users && u != v ==> d.users[u].email != d.users[v].email)
  }

  ghost predicate Valid(d: Directory) {
    OneToOne(d) && SameTenant(d) && Keyed(d)
  }

  predicate Holds(d: Directory, user: int) {
    exists e :: e in d.extensions && d.extensions[e].user == Some(user)
  }

  /**
   The one request that breaks the invariant: a superadmin moves a user who holds an extension
   to another tenant without touching the extension field.
  */
  predicate Strands(d: Directory, op: Op) {
    op.Update? && op.id in d.users && op.ref.None? && NewTenant(d, op) != d.users[op.id].tenant && Holds(d, op.id)
  }

  lemma {:induction false} ClearKeeps(d: Directory, user: int)
    requires Valid(d)
    ensures Valid(d.(extensions := Cleared(d.extensions, user)))
    ensures !Holds(d.(extensions := Cleared(d.extensions, user)), user)
  {
  }

  lemma {:induction false} FreeUserMoves(d: Directory, id: int, user: User)
    requires Valid(d) && !Holds(d, id)
    requires forall u :: u in d.users && u != id ==> d.users[u].email != user.email
    ensures Valid(d.(users := d.users[id := user]))
  {
  }

  lemma {:induction false} GiveKeeps(d: Directory, e: int, user: int)
    requires Valid(d) && !Holds(d, user) && e in d.extensions && user in d.users
    requires d.users[user].tenant == Some(d.extensions[e].tenant)
    ensures Valid(d.(extensions := Given(d.extensions, e, user)))
  {
  }

  lemma {:induction false} MoveAndTakeKeeps(d: Directory, id: int, user: User, e: int)
    requires Valid(d) && e in d.extensions && user.tenant == Some(d.extensions[e].tenant)
    requires forall u :: u in d.users && u != id ==> d.users[u].email != user.email
    ensures Valid(Directory(d.users[id := user], Given(Cleared(d.extensions, id), e, id)))
  {
    ClearKeeps(d, id);
    var cleared := d.(extensions := Cleared(d.extensions, id));
    FreeUserMoves(cleared, id, user);
    var moved := cleared.(users := d.users[id := user]);
    assert !Holds(moved, id);
    GiveKeeps(moved, e, id);
  }

  lemma {:induction false} CreateKeeps(d: Directory, features: Features, op: Op)
    requires Valid(d) && Enabled(d, op) && op.Create?
    ensures Valid(After(d, features, op))
  {
    var tenant := TenantFor(op.caller, op.raw, op.inferred, op.superadminRole);
    if ApplyCreate(d, features, op).Success? {
      assert !Holds(d, op.id);
      hide Text.Normal;
      var user := User(Text.Normal(op.email), op.first, op.last, tenant.value);
      FreeUserMoves(d, op.id, user);
      if op.ref.Some? && op.ref.value.Ref? && Apply(d, features, op).Success? {
        MoveAndTakeKeeps(d, op.id, user, op.answer.value);
      }
    }
  }

  lemma {:induction false} UpdateIff(d: Directory, features: Features, op: Op)
    requires Valid(d) && Enabled(d, op) && op.Update?
    ensures Valid(After(d, features, op)) <==> !Strands(d, op)
  {
    if op.id in d.users && Apply(d, features, op).Success? {
      var user := After(d, features, op).users[op.id];
      if op.ref.None? {
        if Strands(d, op) {
          var e :| e in d.extensions && d.extensions[e].user == Some(op.id);
          assert !SameTenant(After(d, features, op));
        } else if user.tenant != d.users[op.id].tenant {
          FreeUserMoves(d, op.id, user);
        }
      } else if op.ref.value.Blank? {
        ClearKeeps(d, op.id);
        FreeUserMoves(d.(extensions := Cleared(d.extensions, op.id)), op.id, user);
      } else {
        MoveAndTakeKeeps(d, op.id, user, op.answer.value);
      }
    }
  }

  lemma {:induction false} AssignKeeps(d: Directory, features: Features, op: Op)
    requires Valid(d) && op.Assign?
    ensures Valid(After(d, features, op))
  {
    if Apply(d, features, op).Success? {
      MoveAndTakeKeeps(d, op.id, After(d, features, op).users[op.id], op.extension);
    }
  }

  lemma {:induction false} GrantDidKeeps(d: Directory, features: Features, op: Op)
    requires Valid(d) && op.GrantDid? && ApplyGrantDid(d, features, op).Success?
    ensures Valid(ApplyGrantDid(d, features, op).value)
  {
    if d.users[op.id].tenant.None? {
      assert !Holds(d, op.id);
      FreeUserMoves(d, op.id, d.users[op.id].(tenant := Some(op.didTenant)));
    } else {
      assert ApplyGrantDid(d, features, op).value.users == d.users;
    }
  }

  lemma {:induction false} AddKeeps(d: Directory, id: int, row: Extension)
    requires Valid(d) && id !in d.extensions && row.user.None?
    requires NumberFree(d.extensions, row.tenant, row.number, None)
    requires forall e :: !ByObject(d.extensions, row.tenant, row.objectId, e)
    ensures Valid(d.(extensions := d.extensions[id := row]))
  {
    forall e | e in d.extensions && d.extensions[e].tenant == row.tenant
      ensures d.extensions[e].objectId != row.objectId && d.extensions[e].number != row.number
    {
      assert !ByObject(d.extensions, row.tenant, row.objectId, e);
    }
  }

  lemma {:induction false} RenameKeeps(d: Directory, id: int, number: string, sip: string)
    requires Valid(d) && id in d.extensions && NumberFree(d.extensions, d.extensions[id].tenant, number, Some(id))
    ensures Valid(d.(extensions := d.extensions[id := d.extensions[id].(number := number, sipUsername := sip)]))
  {
  }

  lemma {:induction false} SyncKeeps(d: Directory, op: Op)
    requires Valid(d) && Enabled(d, op) && op.Sync? && ApplySync(d, op).Success?
    ensures Valid(ApplySync(d, op).value)
  {
    var row := ObjectRow(d.extensions, op.tenant, op.objectId);
    var after := ApplySync(d, op).value.extensions;
    if row.Some? {
      assert ByObject(d.extensions, op.tenant, op.objectId, row.value);
      RenameKeeps(d, row.value, after[row.value].number, after[row.value].sipUsername);
    } else {
      if op.objectId != "" {
        AddKeeps(d, op.newId, after[op.newId]);
      }
    }
  }

  lemma {:induction false} ProvisionKeeps(d: Directory, op: Op)
    requires Valid(d) && Enabled(d, op) && op.Provision? && ApplyProvision(d, op).Success?
    ensures Valid(ApplyProvision(d, op).value)
  {
    var after := ApplyProvision(d, op).value;
    assert !Holds(d, op.id);
    FreeUserMoves(d, op.id, after.users[op.id]);
    var saved := d.(users := after.users);
    assert !Holds(saved, op.id);
    var free := FreeRows(d.extensions, op.tenant, op.extensionNumber);
    if free != {} {
      GiveKeeps(saved, Ordering.Least(free, Ordering.IntLe), op.id);
    } else {
      var row := after.extensions[op.newId].(user := None);
      AddKeeps(saved, op.newId, row);
      var added := saved.(extensions := saved.extensions[op.newId := row]);
      assert !Holds(added, op.id);
      GiveKeeps(added, op.newId, op.id);
      assert after.extensions == Given(added.extensions, op.newId, op.id);
    }
  }

  /** Each request keeps the invariant exactly when it does not strand an extension. */
  lemma {:induction false} StepKeepsIff(d: Directory, features: Features, op: Op)
    requires Valid(d) && Enabled(d, op)
    ensures Valid(After(d, features, op)) <==> !Strands(d, op)
  {
    match op
    case Create(_, _, _, _, _, _, _, _, _, _) => CreateKeeps(d, features, op);
    case Update(_, _, _, _, _, _, _) => UpdateIff(d, features, op);
    case Assign(_, _) => AssignKeeps(d, features, op);
    case GrantDid(_, _) =>
      if ApplyGrantDid(d, features, op).Success? {
        GrantDidKeeps(d, features, op);
      }
    case Unassign(id) => ClearKeeps(d, id);
    case Sync(_, _, _, _, _, _) =>
      if ApplySync(d, op).Success? {
        SyncKeeps(d, op);
      }
    case Drop(_, _) =>
    case DeleteUser(id) => ClearKeeps(d, id);
    case Provision(_, _, _, _, _, _, _, _, _) =>
      if ApplyProvision(d, op).Success? {
        ProvisionKeeps(d, op);
      }
  }

  /** The extension a request asks to hand to its user, if it gets that far. */
  function Requested(op: Op): Option<int> {
    match op
    case Create(_, _, _, _, _, _, _, _, ref, answer) => if ref.Some? && ref.value.Ref? then answer else None
    case Update(_, _, _, _, _, ref, answer) => if ref.Some? && ref.value.Ref? then answer else None
    case Assign(_, extension) => Some(extension)
    case _ => None
  }

  /**
   A successful request for an extension leaves its user holding exactly that one, frees whatever
   the user held before, and touches nothing else: no other extension, no other user.
  */
  lemma {:induction false} TakeExact(d: Directory, features: Features, op: Op)
    requires (op.Create? || op.Update? || op.Assign?) && Requested(op).Some? && Apply(d, features, op).Success?
    ensures var after := After(d, features, op);
            && after.extensions.Keys == d.extensions.Keys
            && (forall e :: e in d.extensions ==>
                  after.extensions[e] == d.extensions[e].(user :=
                    if e == Requested(op).value then Some(op.id)
                    else if d.extensions[e].user == Some(op.id) then None
                    else d.extensions[e].user))
            && (forall u :: u in d.users && u != op.id ==> u in after.users && after.users[u] == d.users[u])
    ensures Requested(op).value in d.extensions && op.id in After(d, features, op).users
  {
  }

  /** With resolved lookups the extension taken is one of the user's tenant that the reference names. */
  lemma {:induction false} TakenIsNamed(d: Directory, features: Features, op: Op)
    requires Enabled(d, op) && (op.Create? || op.Update?) && op.ref.Some? && op.ref.value.Ref?
    requires Apply(d, features, op).Success? && op.answer.Some?
    ensures var after, e := After(d, features, op), op.answer.value;
            && e in d.extensions && after.users[op.id].tenant == Some(d.extensions[e].tenant)
            && var ref := op.ref.value;
            && ((ref.uuid.Some? && (e == ref.uuid.value || d.extensions[e].objectId == ref.text))
                || d.extensions[e].number == ref.text)
            && (ref.uuid.Some? && InTenant(d.extensions, d.extensions[e].tenant, ref.uuid.value) ==>
                  e == ref.uuid.value || d.extensions[e].objectId == ref.text)
  {
    assert op.ref.value.uuid.Some?
           && InTenant(d.extensions, d.extensions[op.answer.value].tenant, op.ref.value.uuid.value)
      ==> ByIdentity(d.extensions, op.ref.value, op.ref.value.uuid.value);
  }

  ghost predicate Meant(d: Directory, op: Op, e: int)
    requires op.Sync? || op.Drop?
  {
    op.objectId != "" && e in d.extensions
    && d.extensions[e].tenant == op.tenant && d.extensions[e].objectId == op.objectId
  }

  /**
   extension.created and extension.updated write the row of this tenant and object id, or add one, and touch
   no other: numbers are cut to 20 characters, and a row without one is named after its object id.
  */
  lemma {:induction false} SyncExact(d: Directory, op: Op)
    requires Keyed(d) && op.Sync? && op.newId !in d.extensions && ApplySync(d, op).Success?
    ensures var after := ApplySync(d, op).value;
            && after.users == d.users
            && (forall e :: e in d.extensions && !Meant(d, op, e) ==>
                  e in after.extensions && after.extensions[e] == d.extensions[e])
            && (forall e :: Meant(d, op, e) ==>
                  && after.extensions.Keys == d.extensions.Keys
                  && var row := after.extensions[e];
                     && row == d.extensions[e].(number := row.number, sipUsername := row.sipUsername)
                     && (op.number.None? ==> row.number == d.extensions[e].number)
                     && (op.number.Some? ==>
                           row.number == if |op.number.value| <= 20 then op.number.value else op.number.value[..20])
                     && row.sipUsername ==
                        if op.sipUsername.Some? then op.sipUsername.value else d.extensions[e].sipUsername)
            && (op.objectId != "" && (forall e :: !Meant(d, op, e)) ==>
                  && after.extensions.Keys == d.extensions.Keys + {op.newId}
                  && var row := after.extensions[op.newId];
                     && row.tenant == op.tenant && row.objectId == op.objectId && row.user == None
                     && (op.number.Some? ==>
                           row.number == if |op.number.value| <= 20 then op.number.value else op.number.value[..20])
                     && (op.number.None? ==>
                           row.number == "ext-" + if |op.objectId| <= 8 then op.objectId else op.objectId[..8])
                     && row.sipUsername ==
                        if op.sipUsername.Some? then op.sipUsername.value else row.number + "-" + op.code)
            && (op.objectId == "" ==> after == d)
  {
    forall e
      ensures Meant(d, op, e) <==> op.objectId != "" && ByObject(d.extensions, op.tenant, op.objectId, e)
    {
    }
    var row := ObjectRow(d.extensions, op.tenant, op.objectId);
    forall e | Meant(d, op, e)
      ensures row == Some(e)
    {
    }
    hide NumberFree, Keyed;
  }

  /** extension.deleted removes the row of this tenant and object id and no other. */
  lemma {:induction false} DropExact(d: Directory, features: Features, op: Op, e: int)
    requires op.Drop?
    ensures After(d, features, op).users == d.users
    ensures e in After(d, features, op).extensions <==> e in d.extensions && !Meant(d, op, e)
    ensures e in After(d, features, op).extensions ==> After(d, features, op).extensions[e] == d.extensions[e]
  {
  }

  /**
   A provisioned user is stored with its email, names and tenant. If the tenant has an extension with the
   number and no user, one such extension is given to the user; otherwise a new one is added. Nothing else changes.
  */
  lemma {:induction false} ProvisionExact(d: Directory, op: Op)
    requires op.Provision? && op.id !in d.users && op.newId !in d.extensions && ApplyProvision(d, op).Success?
    ensures var after := ApplyProvision(d, op).value;
            && after.users == d.users[op.id := User(op.email, op.first, op.last, Some(op.tenant))]
            && (if exists e :: && e in d.extensions && d.extensions[e].tenant == op.tenant
                               && d.extensions[e].number == op.extensionNumber && d.extensions[e].user == None
                then
                  exists e :: && e in d.extensions && d.extensions[e].tenant == op.tenant
                              && d.extensions[e].number == op.extensionNumber && d.extensions[e].user == None
                              && after.extensions == d.extensions[e := d.extensions[e].(user := Some(op.id))]
                else
                  after.extensions ==
                    d.extensions[op.newId := Extension(op.tenant, op.freshObjectId, op.extensionNumber,
                                                       op.extensionNumber + "-" + op.code, Some(op.id))])
  {
    var free := FreeRows(d.extensions, op.tenant, op.extensionNumber);
    forall e
      ensures e in free <==> && e in d.extensions && d.extensions[e].tenant == op.tenant
                             && d.extensions[e].number == op.extensionNumber && d.extensions[e].user == None
    {
    }
    if free != {} {
      var e := Ordering.Least(free, Ordering.IntLe);
      assert e in free;
    }
  }

  /** The tenant a creation may give its user, caller by caller. */
  ghost predicate MayGive(op: Op, tenant: int)
    requires op.Create?
  {
    match op.caller
    case Some(Caller(true, _)) => if op.raw.Some? then op.raw.value == Some(tenant) else op.inferred == Some(tenant)
    case Some(Caller(false, Some(own))) => tenant == own
    case _ => op.raw == Some(Some(tenant))
  }

  /**
   An accepted creation stores the user in the caller's own tenant, whatever tenant it names; a superadmin's
   in the tenant named, else in that of the extension named; anyone else's in the tenant named.
  */
  lemma {:induction false} CreatedTenant(d: Directory, features: Features, op: Op)
    requires op.Create? && ApplyCreate(d, features, op).Success?
    ensures op.id in ApplyCreate(d, features, op).value.users
    ensures var tenant := ApplyCreate(d, features, op).value.users[op.id].tenant;
            && tenant.Some?
            && (op.caller.Some? && !op.caller.value.superadmin && op.caller.value.tenant.Some? ==>
                  tenant == op.caller.value.tenant)
            && (op.caller.Some? && op.caller.value.superadmin && op.raw.Some? ==> tenant == op.raw.value)
            && (op.caller.Some? && op.caller.value.superadmin && op.raw.None? ==> tenant == op.inferred)
            && (op.caller.None? || (!op.caller.value.superadmin && op.caller.value.tenant.None?) ==>
                  op.raw == Some(tenant))
  {
    hide Text.Normal;
  }

  /**
   A creation is accepted if and only if its email is there and free, some tenant may be given, and the
   extension asked for, if any, is found in a tenant with calling.
  */
  lemma {:induction false} CreateAcceptedIff(d: Directory, features: Features, op: Op)
    requires op.Create?
    ensures ApplyCreate(d, features, op).Success? <==>
            && op.email != "" && (forall u :: u in d.users ==> d.users[u].email != Text.Normal(op.email))
            && exists tenant ::
                 && MayGive(op, tenant)
                 && (op.ref.Some? && op.ref.value.Ref? ==>
                       tenant in features.calling && op.answer.Some? && op.answer.value in d.extensions)
  {
    hide Text.Normal;
    var tenant := TenantFor(op.caller, op.raw, op.inferred, op.superadminRole);
    if tenant.Success? && tenant.value.Some? {
      assert MayGive(op, tenant.value.value);
    }
  }

  /** A run of requests; the tenants with calling enabled may change between them. */
  ghost predicate IsRun(states: seq<Directory>, ops: seq<Op>, features: seq<Features>) {
    && |states| == |ops| + 1 == |features| + 1
    && states[0] == Directory(map[], map[])
    && forall k {:trigger ops[k]} :: 0 <= k < |ops| ==>
         Enabled(states[k], ops[k]) && states[k + 1] == After(states[k], features[k], ops[k])
  }

  /** Over every run without stranding requests the invariant holds throughout. */
  lemma {:induction false} RunValid(states: seq<Directory>, ops: seq<Op>, features: seq<Features>, k: nat)
    requires IsRun(states, ops, features) && k < |states|
    requires forall j :: 0 <= j < k ==> !Strands(states[j], ops[j])
    ensures Valid(states[k])
  {
    if k == 0 {
    } else {
      RunValid(states, ops, features, k - 1);
      var op := ops[k - 1];
      StepKeepsIff(states[k - 1], features[k - 1], op);
    }
  }

  // ---------------------------------------------------------------------------
  // The endpoints
  // ---------------------------------------------------------------------------

  ghost predicate Outcome(r: Result<(), Error>, apply: Result<Directory, Error>) {
    if apply.Success? then r.Success? else r == Failure(apply.error)
  }

  class Accounts {
    var users: map<int, User>
    var extensions: map<int, Extension>

    ghost function Model(): Directory
      reads this
    {
      Directory(users, extensions)
    }

    /** An update of the one-to-one column, refused when it would name the user twice. */
    method SetUser(id: int, user: int) returns (ok: bool)
      requires id in extensions
      modifies this`extensions
      ensures ok == Writable(old(extensions), id, user)
      ensures extensions == if ok then Given(old(extensions), id, user) else old(extensions)
    {
      ok := !exists other :: other in extensions && other != id && extensions[other].user == Some(user);
      if ok {
        extensions := extensions[id := extensions[id].(user := Some(user))];
      }
    }

    /** Clear, then set: the second statement is never refused. */
    method Reassign(id: int, user: int)
      requires id in extensions
      modifies this`extensions
      ensures extensions == Given(Cleared(old(extensions), user), id, user)
    {
      extensions := Cleared(extensions, user);
      ClearedIsWritable(old(extensions), id, user);
      var ok := SetUser(id, user);
      assert ok;
    }

    method TakeExtension(id: int, tenant: Option<int>, features: Features, answer: Option<int>)
      returns (r: Result<(), Error>)
      modifies this`extensions
      ensures var apply := Take(old(Model()), id, tenant, features, answer);
              Outcome(r, apply) && (if apply.Success? then Model() == apply.value else Model() == old(Model()))
    {
      if tenant.None? {
        return Failure(NoTenant);
      }
      if tenant.value !in features.calling {
        return Failure(CallingDisabled);
      }
      if answer.None? || answer.value !in extensions {
        return Failure(ExtensionNotFound);
      }
      Reassign(answer.value, id);
      r := Success(());
    }

    /** `UserUpsertSerializer.create` */
    method Create(features: Features, op: Op) returns (r: Result<(), Error>)
      requires op.Create?
      modifies this
      ensures Outcome(r, Apply(old(Model()), features, op)) && Model() == After(old(Model()), features, op)
    {
      var users0, extensions0 := users, extensions;
      if op.email == "" {
        return Failure(EmailRequired);
      }
      if EmailTaken(users, Text.Normal(op.email)) {
        return Failure(DuplicateEmail);
      }
      var tenant :- TenantFor(op.caller, op.raw, op.inferred, op.superadminRole);
      if tenant.None? {
        return Failure(UserNeedsTenant);
      }
      users := users[op.id := User(Text.Normal(op.email), op.first, op.last, tenant)];
      if op.ref.None? || op.ref.value.Blank? {
        return Success(());
      }
      r := TakeExtension(op.id, tenant, features, op.answer);
      if r.Failure? {
        users, extensions := users0, extensions0;
      }
    }

    /** `UserUpsertSerializer.update` */
    method Update(features: Features, op: Op) returns (r: Result<(), Error>)
      requires op.Update?
      modifies this
      ensures Outcome(r, Apply(old(Model()), features, op)) && Model() == After(old(Model()), features, op)
    {
      var users0, extensions0 := users, extensions;
      if op.id !in users {
        return Failure(NotFound);
      }
      var instance := users[op.id];
      if op.newTenant.Some? && op.superadmin {
        instance := instance.(tenant := op.newTenant.value);
      }
      if op.newFirst.Some? {
        instance := instance.(firstName := op.newFirst.value);
      }
      if op.newLast.Some? {
        instance := instance.(lastName := op.newLast.value);
      }
      users := users[op.id := instance];
      if op.ref.None? {
        return Success(());
      }
      if op.ref.value.Blank? {
        extensions := Cleared(extensions, op.id);
        return Success(());
      }
      r := TakeExtension(op.id, instance.tenant, features, op.answer);
      if r.Failure? {
        users, extensions := users0, extensions0;
      }
    }

    /** `UserExtensionView.post` */
    method Assign(features: Features, op: Op) returns (r: Result<(), Error>)
      requires op.Assign?
      modifies this
      ensures Outcome(r, Apply(old(Model()), features, op)) && Model() == After(old(Model()), features, op)
    {
      if op.id !in users || op.extension !in extensions {
        return Failure(NotFound);
      }
      var target, extension := users[op.id], extensions[op.extension];
      var tenant := if target.tenant.Some? then target.tenant.value else extension.tenant;
      if tenant !in features.calling {
        return Failure(CallingDisabled);
      }
      if target.tenant.Some? && extension.tenant != target.tenant.value {
        return Failure(WrongTenant);
      } else if target.tenant.None? {
        users := users[op.id := target.(tenant := Some(extension.tenant))];
      }
      Reassign(op.extension, op.id);
      r := Success(());
    }

    /** `UserExtensionView.delete` */
    method Unassign(features: Features, op: Op) returns (r: Result<(), Error>)
      requires op.Unassign?
      modifies this
      ensures Outcome(r, Apply(old(Model()), features, op)) && Model() == After(old(Model()), features, op)
    {
      if op.id !in users {
        return Failure(NotFound);
      }
      extensions := Cleared(extensions, op.id);
      r := Success(());
    }

    /** `UserDIDView.post`, as far as it gives a user without a tenant the DID's tenant */
    method GrantDid(features: Features, op: Op) returns (r: Result<(), Error>)
      requires op.GrantDid?
      modifies this
      ensures Outcome(r, Apply(old(Model()), features, op)) && Model() == After(old(Model()), features, op)
    {
      if op.id !in users {
        return Failure(NotFound);
      }
      var target := users[op.id];
      var tenant := if target.tenant.Some? then target.tenant.value else op.didTenant;
      if tenant !in features.calling && tenant !in features.messaging {
        return Failure(CallingDisabled);
      }
      if target.tenant.Some? && op.didTenant != target.tenant.value {
        return Failure(WrongTenant);
      } else if target.tenant.None? {
        users := users[op.id := target.(tenant := Some(op.didTenant))];
      } else {
        assert users[op.id := target] == users;
      }
      r := Success(());
    }

    /** extension.created and extension.updated of `FreeSwitchWebhookView.post` */
    method Sync(features: Features, op: Op) returns (r: Result<(), Error>)
      requires op.Sync? && Keyed(Model())
      modifies this
      ensures Outcome(r, Apply(old(Model()), features, op)) && Model() == After(old(Model()), features, op)
    {
      if op.objectId == "" {
        return Success(());
      }
      if exists id :: id in extensions && ByObject(extensions, op.tenant, op.objectId, id) {
        var id :| id in extensions && ByObject(extensions, op.tenant, op.objectId, id);
        var ext := extensions[id];
        if op.number.Some? {
          ext := ext.(number := Ordering.Take(op.number.value, 20));
        }
        if op.sipUsername.Some? {
          ext := ext.(sipUsername := op.sipUsername.value);
        }
        if !NumberFree(extensions, op.tenant, ext.number, Some(id)) {
          return Failure(IntegrityError);
        }
        extensions := extensions[id := ext];
      } else {
        var number := NewNumber(op);
        var sip := if op.sipUsername.Some? then op.sipUsername.value else number + "-" + op.code;
        if !NumberFree(extensions, op.tenant, number, None) {
          return Failure(IntegrityError);
        }
        extensions := extensions[op.newId := Extension(op.tenant, op.objectId, number, sip, None)];
      }
      r := Success(());
    }

    /** extension.deleted of `FreeSwitchWebhookView.post` */
    method Drop(features: Features, op: Op)
      requires op.Drop?
      modifies this
      ensures Model() == After(old(Model()), features, op)
    {
      if op.objectId != "" {
        extensions := Dropped(extensions, op.tenant, op.objectId);
      }
    }
  }
}
