/**
 apps/users/serializers.py: how `create` and `update` apply the "did_assignments" rows of a user.

 A row grants a DID and may say under which division and department the user works it. The rows
 reach the serializer with their division and department looked up; `did` is the answer of
 `_resolve_did`.
*/
module DidSync {
  import opened Wrappers
  import opened Tables

  datatype Row = Row(did: Option<int>, division: Option<int>, department: Option<int>)

  datatype Error = NoTenant | FeaturesDisabled | DidNotFound

  /** The access tables: UserDID and UserDIDDivisionAssignment. */
  datatype Access = Access(grants: set<Grant>, work: set<Assignment>)

  predicate Resolved(rows: seq<Row>) {
    forall i :: 0 <= i < |rows| ==> rows[i].did.Some?
  }

  function Targets(rows: seq<Row>): set<int>
    requires Resolved(rows)
  {
    set i | 0 <= i < |rows| :: rows[i].did.value
  }

  predicate States(row: Row, a: Assignment) {
    row.division == Some(a.division) && row.department == a.department
  }

  /** The last row naming a.did says exactly a. */
  predicate LastSays(rows: seq<Row>, a: Assignment) {
    if rows == [] then false
    else
      var n := |rows| - 1;
      if rows[n].did == Some(a.did) then States(rows[n], a) else LastSays(rows[..n], a)
  }

  /** The last row naming a.did with a division says exactly a. */
  predicate LastFilledSays(rows: seq<Row>, a: Assignment) {
    if rows == [] then false
    else
      var n := |rows| - 1;
      if rows[n].did == Some(a.did) && rows[n].division.Some? then States(rows[n], a)
      else LastFilledSays(rows[..n], a)
  }

  function Stated(user: int, row: Row): Assignment
    requires row.did.Some? && row.division.Some?
  {
    Assignment(user, row.did.value, row.division.value, row.department)
  }

  function Others(work: set<Assignment>, user: int): set<Assignment> {
    set a | a in work && a.user != user
  }

  function OtherGrants(grants: set<Grant>, user: int): set<Grant> {
    set g | g in grants && g.user != user
  }

  function GrantsOf(user: int, rows: seq<Row>): set<Grant>
    requires Resolved(rows)
  {
    set d | d in Targets(rows) :: Grant(user, d)
  }

  /** The division rows an update leaves to the user. */
  function WorkOf(user: int, rows: seq<Row>): set<Assignment>
    requires Resolved(rows)
  {
    set i | 0 <= i < |rows| && rows[i].division.Some? && LastSays(rows, Stated(user, rows[i])) :: Stated(user, rows[i])
  }

  /** The division rows a creation leaves to the user. */
  function FilledWorkOf(user: int, rows: seq<Row>): set<Assignment>
    requires Resolved(rows)
  {
    set i | 0 <= i < |rows| && rows[i].division.Some? && LastFilledSays(rows, Stated(user, rows[i])) ::
        Stated(user, rows[i])
  }

  lemma {:induction false} LastSaysHasRow(rows: seq<Row>, a: Assignment) returns (i: nat)
    requires LastSays(rows, a) || LastFilledSays(rows, a)
    ensures i < |rows| && rows[i].did == Some(a.did) && States(rows[i], a)
  {
    var n := |rows| - 1;
    if rows[n].did == Some(a.did) && States(rows[n], a) {
      i := n;
    } else {
      i := LastSaysHasRow(rows[..n], a);
    }
  }

  lemma {:induction false} WorkMembers(user: int, rows: seq<Row>)
    requires Resolved(rows)
    ensures forall a :: a in WorkOf(user, rows) <==> a.user == user && LastSays(rows, a)
    ensures forall a :: a in FilledWorkOf(user, rows) <==> a.user == user && LastFilledSays(rows, a)
  {
    forall a: Assignment | a.user == user && (LastSays(rows, a) || LastFilledSays(rows, a))
      ensures LastSays(rows, a) ==> a in WorkOf(user, rows)
      ensures LastFilledSays(rows, a) ==> a in FilledWorkOf(user, rows)
    {
      var i := LastSaysHasRow(rows, a);
      assert a == Stated(user, rows[i]);
    }
  }

  /** The rows of the user become exactly what the row list says; other users keep theirs. */
  function Updated(access: Access, user: int, rows: seq<Row>): Access
    requires Resolved(rows)
  {
    Access(OtherGrants(access.grants, user) + GrantsOf(user, rows), Others(access.work, user) + WorkOf(user, rows))
  }

  function Created(access: Access, user: int, rows: seq<Row>): Access
    requires Resolved(rows)
  {
    Access(access.grants + GrantsOf(user, rows), access.work + FilledWorkOf(user, rows))
  }

  /** `enabled`: the tenant has calling or messaging. */
  function UpdateResult(access: Access, user: int, tenant: Option<int>, enabled: bool, rows: seq<Row>)
    : Result<Access, Error>
  {
    if rows == [] then Success(Access(OtherGrants(access.grants, user), Others(access.work, user)))
    else if tenant.None? then Failure(NoTenant)
    else if !enabled then Failure(FeaturesDisabled)
    else if !Resolved(rows) then Failure(DidNotFound)
    else Success(Updated(access, user, rows))
  }

  function CreateResult(access: Access, user: int, tenant: Option<int>, enabled: bool, rows: seq<Row>)
    : Result<Access, Error>
  {
    if rows == [] then Success(access)
    else if tenant.None? then Failure(NoTenant)
    else if !enabled then Failure(FeaturesDisabled)
    else if !Resolved(rows) then Failure(DidNotFound)
    else Success(Created(access, user, rows))
  }

  ghost predicate Outcome(r: Result<(), Error>, expected: Result<Access, Error>, before: Access, after: Access) {
    match expected
    case Success(access) => r.Success? && after == access
    case Failure(error) => r == Failure(error) && after == before
  }

  // ---------------------------------------------------------------------------
  // The loops
  // ---------------------------------------------------------------------------

  lemma {:induction false} OneMoreRow(rows: seq<Row>, row: Row)
    ensures forall a :: LastSays(rows + [row], a) <==>
              if row.did == Some(a.did) then States(row, a) else LastSays(rows, a)
    ensures forall a :: LastFilledSays(rows + [row], a) <==>
              if row.did == Some(a.did) && row.division.Some? then States(row, a) else LastFilledSays(rows, a)
  {
  }

  class AccessTables {
    var grants: set<Grant>
    var work: set<Assignment>

    function Model(): Access
      reads this
    {
      Access(grants, work)
    }

    /** Drop the user's rows for the DID except the stated one, then get or create that one. */
    method Place(user: int, row: Row)
      requires row.did.Some? && row.division.Some?
      modifies this`work
      ensures work == (set a | a in old(work) && !(a.user == user && a.did == row.did.value)) + {Stated(user, row)}
    {
      work := work - (set a | a in work && a.user == user && a.did == row.did.value && a != Stated(user, row));
      if Stated(user, row) !in work {
        work := work + {Stated(user, row)};
      }
    }

    ghost predicate GrantsSyncing(user: int, rows: seq<Row>, i: nat, before: Access)
      requires Resolved(rows) && i <= |rows|
      reads this
    {
      forall g :: g in grants <==>
        if g.user != user then g in before.grants
        else g.did in Targets(rows[..i]) || (g in before.grants && g.did in Targets(rows))
    }

    ghost predicate WorkSyncing(user: int, rows: seq<Row>, i: nat, before: Access)
      requires Resolved(rows) && i <= |rows|
      reads this
    {
      forall a :: a in work <==>
        if a.user != user then a in before.work
        else if a.did in Targets(rows[..i]) then LastSays(rows[..i], a)
        else a in before.work && a.did in Targets(rows)
    }

    /** The body of the update loop. */
    method ApplyRow(user: int, row: Row)
      requires row.did.Some?
      modifies this
      ensures grants == old(grants) + {Grant(user, row.did.value)}
      ensures work == (set a | a in old(work) && !(a.user == user && a.did == row.did.value))
                      + (if row.division.Some? then {Stated(user, row)} else {})
    {
      if Grant(user, row.did.value) !in grants {
        grants := grants + {Grant(user, row.did.value)};
      }
      if row.division.Some? {
        Place(user, row);
      } else {
        work := work - (set a | a in work && a.user == user && a.did == row.did.value);
      }
    }

    method SyncRows(user: int, rows: seq<Row>, ghost before: Access)
      requires Resolved(rows) && GrantsSyncing(user, rows, 0, before) && WorkSyncing(user, rows, 0, before)
      modifies this
      ensures GrantsSyncing(user, rows, |rows|, before) && WorkSyncing(user, rows, |rows|, before)
    {
      for i := 0 to |rows|
        invariant GrantsSyncing(user, rows, i, before)
        invariant WorkSyncing(user, rows, i, before)
      {
        var row := rows[i];
        assert rows[..i + 1] == rows[..i] + [row];
        assert Targets(rows[..i + 1]) == Targets(rows[..i]) + {row.did.value};
        OneMoreRow(rows[..i], row);
        ApplyRow(user, row);
      }
    }

    /** The "did_assignments" part of `update`. */
    method Update(user: int, tenant: Option<int>, enabled: bool, rows: seq<Row>) returns (r: Result<(), Error>)
      modifies this
      ensures Outcome(r, UpdateResult(old(Model()), user, tenant, enabled, rows), old(Model()), Model())
    {
      ghost var before := Model();
      if rows == [] {
        grants := OtherGrants(grants, user);
        work := Others(work, user);
        return Success(());
      }
      if tenant.None? {
        return Failure(NoTenant);
      }
      if !enabled {
        return Failure(FeaturesDisabled);
      }
      for i := 0 to |rows|
        invariant Resolved(rows[..i]) && Model() == before
      {
        if rows[i].did.None? {
          return Failure(DidNotFound);
        }
      }
      var targets := Targets(rows);
      grants := grants - (set g | g in grants && g.user == user && g.did !in targets);
      work := work - (set a | a in work && a.user == user && a.did !in targets);
      assert rows[..0] == [] && rows[..|rows|] == rows;
      SyncRows(user, rows, before);
      UpdatedByEnd(user, rows, before);
      r := Success(());
    }

    lemma {:induction false} UpdatedByEnd(user: int, rows: seq<Row>, before: Access)
      requires Resolved(rows) && rows[..|rows|] == rows
      requires GrantsSyncing(user, rows, |rows|, before) && WorkSyncing(user, rows, |rows|, before)
      ensures Model() == Updated(before, user, rows)
    {
      WorkMembers(user, rows);
      var after := Updated(before, user, rows);
      forall a
        ensures a in work <==> a in after.work
      {
        if LastSays(rows, a) {
          var i := LastSaysHasRow(rows, a);
          assert rows[i].did.value in Targets(rows);
        }
      }
      assert forall g :: g in grants <==> g in after.grants;
    }

    /** The "did_assignments" part of `create`; a failure rolls back. */
    method Create(user: int, tenant: Option<int>, enabled: bool, rows: seq<Row>) returns (r: Result<(), Error>)
      requires forall g :: g in grants ==> g.user != user
      requires forall a :: a in work ==> a.user != user
      modifies this
      ensures Outcome(r, CreateResult(old(Model()), user, tenant, enabled, rows), old(Model()), Model())
    {
      var grants0, work0 := grants, work;
      if rows == [] {
        return Success(());
      }
      if tenant.None? {
        return Failure(NoTenant);
      }
      if !enabled {
        return Failure(FeaturesDisabled);
      }
      for i := 0 to |rows|
        invariant Resolved(rows[..i])
        invariant grants == grants0 + GrantsOf(user, rows[..i])
        invariant forall a :: a in work <==> if a.user != user then a in work0 else LastFilledSays(rows[..i], a)
      {
        var row := rows[i];
        if row.did.None? {
          grants, work := grants0, work0;
          return Failure(DidNotFound);
        }
        assert rows[..i + 1] == rows[..i] + [row];
        assert Targets(rows[..i + 1]) == Targets(rows[..i]) + {row.did.value};
        OneMoreRow(rows[..i], row);
        if Grant(user, row.did.value) !in grants {
          grants := grants + {Grant(user, row.did.value)};
        }
        if row.division.Some? {
          Place(user, row);
        }
      }
      assert rows[..|rows|] == rows;
      WorkMembers(user, rows);
      assert work == work0 + FilledWorkOf(user, rows);
      r := Success(());
    }
  }

  // ---------------------------------------------------------------------------
  // What an update means
  // ---------------------------------------------------------------------------

  /** Row i is the last to name its DID. */
  ghost predicate IsLast(rows: seq<Row>, i: int) {
    0 <= i < |rows| && forall j :: i < j < |rows| ==> rows[j].did != rows[i].did
  }

  lemma {:induction false} LastRowWins(rows: seq<Row>, i: nat, a: Assignment)
    requires IsLast(rows, i) && rows[i].did == Some(a.did)
    ensures LastSays(rows, a) <==> States(rows[i], a)
  {
    var n := |rows| - 1;
    if i < n {
      assert rows[n].did != rows[i].did;
      LastRowWins(rows[..n], i, a);
    }
  }

  lemma {:induction false} HasLast(rows: seq<Row>, did: int) returns (i: nat)
    requires exists j :: 0 <= j < |rows| && rows[j].did == Some(did)
    ensures IsLast(rows, i) && rows[i].did == Some(did)
  {
    var n := |rows| - 1;
    if rows[n].did == Some(did) {
      i := n;
    } else {
      var j :| 0 <= j < |rows| && rows[j].did == Some(did);
      assert rows[..n][j] == rows[j];
      i := HasLast(rows[..n], did);
    }
  }

  /**
   After an update the user has access to exactly the listed DIDs, works each under exactly what
   its last row says (nothing when that row has no division), and nobody else is affected.
  */
  lemma {:induction false} UpdateExact(access: Access, user: int, rows: seq<Row>)
    requires Resolved(rows)
    ensures var after := Updated(access, user, rows);
            && (forall g :: g in after.grants <==>
                if g.user == user then g.did in Targets(rows) else g in access.grants)
            && (forall a: Assignment :: a.user != user ==> (a in after.work <==> a in access.work))
            && (forall a: Assignment, i {:trigger IsLast(rows, i), States(rows[i], a)} ::
                  a.user == user && IsLast(rows, i) && rows[i].did == Some(a.did) ==>
                    (a in after.work <==> States(rows[i], a)))
            && (forall a :: a in after.work && a.user == user ==> a.did in Targets(rows))
  {
    var after := Updated(access, user, rows);
    WorkMembers(user, rows);
    forall a: Assignment, i {:trigger IsLast(rows, i), States(rows[i], a)}
      | a.user == user && IsLast(rows, i) && rows[i].did == Some(a.did)
      ensures a in after.work <==> States(rows[i], a)
    {
      LastRowWins(rows, i, a);
    }
    forall a | a in after.work && a.user == user
      ensures a.did in Targets(rows)
    {
      var i := LastSaysHasRow(rows, a);
      assert rows[i].did.value in Targets(rows);
    }
  }

  /** An empty list takes all the user's DIDs away, and nobody else's. */
  lemma {:induction false} EmptyClears(access: Access, user: int, tenant: Option<int>, enabled: bool)
    ensures var r := UpdateResult(access, user, tenant, enabled, []);
            && r.Success?
            && (forall g :: g in r.value.grants <==> g in access.grants && g.user != user)
            && (forall a: Assignment :: a in r.value.work <==> a in access.work && a.user != user)
  {
  }

  /** Repeating an update changes nothing. */
  lemma {:induction false} UpdateIdempotent(access: Access, user: int, rows: seq<Row>)
    requires Resolved(rows)
    ensures Updated(Updated(access, user, rows), user, rows) == Updated(access, user, rows)
  {
  }

  /** Updates of different users do not interfere. */
  lemma {:induction false} UpdatesCommute(access: Access, u: int, v: int, us: seq<Row>, vs: seq<Row>)
    requires Resolved(us) && Resolved(vs) && u != v
    ensures Updated(Updated(access, u, us), v, vs) == Updated(Updated(access, v, vs), u, us)
  {
  }

  // ---------------------------------------------------------------------------
  // Creation against update
  // ---------------------------------------------------------------------------

  /** No DID loses an earlier row's division to a last row without one. */
  ghost predicate NoBlankedDid(rows: seq<Row>) {
    forall i, j :: IsLast(rows, i) && rows[i].division.None? && 0 <= j < |rows| && rows[j].did == rows[i].did ==>
      rows[j].division.None?
  }

  lemma {:induction false} LastFilled(rows: seq<Row>, i: nat, a: Assignment)
    requires i < |rows| && rows[i].did == Some(a.did) && rows[i].division.Some?
    requires forall j :: i < j < |rows| && rows[j].did == rows[i].did ==> rows[j].division.None?
    ensures LastFilledSays(rows, a) <==> States(rows[i], a)
  {
    var n := |rows| - 1;
    if i < n {
      assert rows[n].did == rows[i].did ==> rows[n].division.None?;
      LastFilled(rows[..n], i, a);
    }
  }

  lemma {:induction false} LastFilledRow(rows: seq<Row>, j: nat) returns (i: nat)
    requires j < |rows| && rows[j].division.Some?
    ensures i < |rows| && rows[i].did == rows[j].did && rows[i].division.Some?
    ensures forall k :: i < k < |rows| && rows[k].did == rows[i].did ==> rows[k].division.None?
    decreases |rows| - j
  {
    if k :| j < k < |rows| && rows[k].did == rows[j].did && rows[k].division.Some? {
      i := LastFilledRow(rows, k);
    } else {
      i := j;
    }
  }

  ghost predicate Fresh(access: Access, user: int) {
    && (forall g :: g in access.grants ==> g.user != user)
    && (forall a :: a in access.work ==> a.user != user)
  }

  lemma {:induction false} SameSaying(rows: seq<Row>, a: Assignment)
    requires Resolved(rows) && NoBlankedDid(rows)
    ensures LastSays(rows, a) <==> LastFilledSays(rows, a)
  {
    if LastSays(rows, a) || LastFilledSays(rows, a) {
      var j := LastSaysHasRow(rows, a);
      var i := HasLast(rows, a.did);
      LastRowWins(rows, i, a);
      LastFilled(rows, i, a);
    }
  }

  /**
   For a user without earlier access, create and update give the same result exactly when no DID
   ends on a row without a division after a row with one.
  */
  lemma {:induction false} CreateMatchesUpdateIff(access: Access, user: int, rows: seq<Row>)
    requires Resolved(rows) && Fresh(access, user)
    ensures Created(access, user, rows) == Updated(access, user, rows) <==> NoBlankedDid(rows)
  {
    WorkMembers(user, rows);
    var c, u := Created(access, user, rows), Updated(access, user, rows);
    assert OtherGrants(access.grants, user) == access.grants && Others(access.work, user) == access.work;
    if NoBlankedDid(rows) {
      forall a
        ensures a in c.work <==> a in u.work
      {
        SameSaying(rows, a);
      }
    } else {
      var i, j :| IsLast(rows, i) && rows[i].division.None? && 0 <= j < |rows| && rows[j].did == rows[i].did
                  && rows[j].division.Some?;
      var k := LastFilledRow(rows, j);
      var a := Stated(user, rows[k]);
      LastFilled(rows, k, a);
      LastRowWins(rows, i, a);
      assert a in c.work && a !in u.work;
    }
  }

  /** In particular whenever the rows name different DIDs. */
  lemma {:induction false} DistinctDidsAgree(access: Access, user: int, rows: seq<Row>)
    requires Resolved(rows) && Fresh(access, user)
    requires forall i, j :: 0 <= i < j < |rows| ==> rows[i].did != rows[j].did
    ensures Created(access, user, rows) == Updated(access, user, rows)
  {
    CreateMatchesUpdateIff(access, user, rows);
  }
}
