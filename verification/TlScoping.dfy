/**
 apps/common/tl_scoping.py against apps/dids/views.py: a Team Lead's grants resolved by one
 batched query per division, and the same grants resolved one entry at a time by the roster view.

 The batched resolver pools the DIDs of every granted department, and its query degenerates when
 no grant reaches a DID. The theorems say exactly when it still agrees with the roster.
*/
module TlScoping {
  import opened Wrappers
  import opened Ordering
  import opened Tables
  import Text

  /** One AccessGroupEntry joined through a grant; `didDepartment` is the department of `did`. */
  datatype Entry = Entry(did: Option<int>, didDepartment: Option<int>, department: Option<int>, division: Option<int>)

  /** The outer join's row for a granted group that has no entries. */
  const NULL_ENTRY := Entry(None, None, None, None)

  /** The rows of `_tl_entries`: one list of entries per granted group. */
  function JoinedEntries(groups: seq<seq<Entry>>): seq<Entry> {
    if groups == [] then []
    else (if groups[0] == [] then [NULL_ENTRY] else groups[0]) + JoinedEntries(groups[1..])
  }

  /** The rows the roster view loads: AccessGroupEntry rows only. */
  function GroupEntries(groups: seq<seq<Entry>>): seq<Entry> {
    if groups == [] then [] else groups[0] + GroupEntries(groups[1..])
  }

  // ---------------------------------------------------------------------------
  // Which DIDs the grants reach
  // ---------------------------------------------------------------------------

  function DirectDids(entries: seq<Entry>): set<int> {
    set e | e in entries && e.did.Some? :: e.did.value
  }

  function NamedDepartments(entries: seq<Entry>): set<int> {
    set e | e in entries && e.department.Some? :: e.department.value
  }

  /** The DIDs of all named departments, in the lead's tenant when the lead has one. */
  function PooledDids(entries: seq<Entry>, dids: map<int, Did>, tenant: Option<int>): set<int> {
    set d | d in dids && dids[d].department.Some? && dids[d].department.value in NamedDepartments(entries)
            && (tenant.None? || dids[d].tenant == tenant.value)
  }

  method TlDidAndDeptIds(entries: seq<Entry>, dids: map<int, Did>, tenant: Option<int>)
    returns (direct: set<int>, pooled: set<int>, departments: set<int>)
    ensures direct == DirectDids(entries)
    ensures pooled == PooledDids(entries, dids, tenant)
    ensures departments == NamedDepartments(entries)
  {
    direct, departments, pooled := {}, {}, {};
    for i := 0 to |entries|
      invariant direct == DirectDids(entries[..i])
      invariant departments == NamedDepartments(entries[..i])
    {
      var e := entries[i];
      assert entries[..i + 1] == entries[..i] + [e];
      if e.did.Some? {
        direct := direct + {e.did.value};
      }
      if e.department.Some? {
        departments := departments + {e.department.value};
      }
    }
    assert entries[..|entries|] == entries;
    if departments != {} {
      pooled := set d | d in dids && dids[d].department.Some? && dids[d].department.value in departments
                        && (tenant.None? || dids[d].tenant == tenant.value);
    }
  }

  // ---------------------------------------------------------------------------
  // The batched resolver
  // ---------------------------------------------------------------------------

  /** What an entry contributes to the filter of its own division. */
  function Contribution(e: Entry, pooled: set<int>): set<int> {
    (if e.did.Some? then {e.did.value} else {}) + (if e.department.Some? then pooled else {})
  }

  predicate Names(e: Entry) {
    e.did.Some? || e.department.Some?
  }

  /** Some entry's contribution matches the assignment, and so does that entry's division. */
  ghost predicate Admits(entries: seq<Entry>, pooled: set<int>, a: Assignment) {
    exists e :: e in entries && a.did in Contribution(e, pooled) && (e.division.None? || e.division.value == a.division)
  }

  ghost predicate Reaches(entries: seq<Entry>, pooled: set<int>) {
    exists e :: e in entries && Contribution(e, pooled) != {}
  }

  /** `filter(combined)`: an empty Q filters nothing. */
  ghost predicate BatchMatches(entries: seq<Entry>, pooled: set<int>, a: Assignment) {
    Reaches(entries, pooled) ==> Admits(entries, pooled, a)
  }

  /** The non-empty extension numbers of the callers of some assignments. */
  ghost function Numbers(assignments: set<Assignment>, numberOf: map<int, string>): set<string> {
    set a | a in assignments && a.user in numberOf && numberOf[a.user] != "" :: numberOf[a.user]
  }

  ghost function BatchExtensions(
    entries: seq<Entry>, dids: map<int, Did>, tenant: Option<int>,
    assignments: set<Assignment>, numberOf: map<int, string>): Option<set<string>>
  {
    if entries == [] then None
    else if forall e :: e in entries ==> !Names(e) then Some({})
    else
      var pooled := PooledDids(entries, dids, tenant);
      Some(Numbers((set a | a in assignments && BatchMatches(entries, pooled, a)), numberOf))
  }

  /** `division_to_dids`, a defaultdict keyed by division; None stands for "all divisions". */
  ghost predicate GroupsBy(byDivision: map<Option<int>, set<int>>, entries: seq<Entry>, pooled: set<int>) {
    && (forall e :: e in entries && Names(e) ==>
          e.division in byDivision && Contribution(e, pooled) <= byDivision[e.division])
    && (forall k :: k in byDivision ==> exists e :: e in entries && Names(e) && e.division == k)
    && (forall k, d :: k in byDivision && d in byDivision[k] ==>
          exists e :: e in entries && e.division == k && d in Contribution(e, pooled))
  }

  method GroupByDivision(entries: seq<Entry>, pooled: set<int>) returns (byDivision: map<Option<int>, set<int>>)
    ensures GroupsBy(byDivision, entries, pooled)
  {
    byDivision := map[];
    for i := 0 to |entries|
      invariant GroupsBy(byDivision, entries[..i], pooled)
    {
      var e := entries[i];
      ghost var before := byDivision;
      assert entries[..i + 1] == entries[..i] + [e];
      if e.did.Some? {
        byDivision := byDivision[e.division := (if e.division in byDivision then byDivision[e.division] else {})
                                 + {e.did.value}];
      }
      if e.department.Some? {
        byDivision := byDivision[e.division := (if e.division in byDivision then byDivision[e.division] else {})
                                 + pooled];
      }
      if Names(e) {
        var was := if e.division in before then before[e.division] else {};
        assert byDivision[e.division] == was + Contribution(e, pooled);
        assert byDivision == before[e.division := was + Contribution(e, pooled)];
      }
      GroupsByExtend(before, byDivision, entries[..i], e, pooled);
    }
    assert entries[..|entries|] == entries;
  }

  lemma {:induction false} GroupsByExtend(before: map<Option<int>, set<int>>, after: map<Option<int>, set<int>>,
                                          entries: seq<Entry>, e: Entry, pooled: set<int>)
    requires GroupsBy(before, entries, pooled)
    requires after == if Names(e)
                      then before[e.division := (if e.division in before then before[e.division] else {})
                                  + Contribution(e, pooled)]
                      else before
    ensures GroupsBy(after, entries + [e], pooled)
  {
  }

  /** One clause `Q(did_id__in=dids) & Q(division_id=division)`. */
  datatype Clause = Clause(dids: set<int>, division: Option<int>)

  predicate Satisfies(a: Assignment, c: Clause) {
    a.did in c.dids && (c.division.None? || c.division.value == a.division)
  }

  /** The disjunction built over the divisions; entries with no DIDs add no clause. */
  method CombineClauses(byDivision: map<Option<int>, set<int>>) returns (combined: set<Clause>)
    ensures ClausesOf(combined, byDivision)
  {
    combined := {};
    var keys := byDivision.Keys;
    while keys != {}
      invariant keys <= byDivision.Keys
      invariant combined == set k | k in byDivision.Keys - keys && byDivision[k] != {} :: Clause(byDivision[k], k)
      decreases keys
    {
      var k :| k in keys;
      if byDivision[k] != {} {
        combined := combined + {Clause(byDivision[k], k)};
      }
      keys := keys - {k};
    }
  }

  predicate QueryMatches(combined: set<Clause>, a: Assignment) {
    combined == {} || exists c :: c in combined && Satisfies(a, c)
  }

  ghost predicate ClausesOf(combined: set<Clause>, byDivision: map<Option<int>, set<int>>) {
    combined == set k | k in byDivision && byDivision[k] != {} :: Clause(byDivision[k], k)
  }

  lemma {:induction false} EmptyQuery(byDivision: map<Option<int>, set<int>>, combined: set<Clause>,
                                      entries: seq<Entry>, pooled: set<int>)
    requires GroupsBy(byDivision, entries, pooled) && ClausesOf(combined, byDivision)
    ensures combined == {} <==> !Reaches(entries, pooled)
  {
    if Reaches(entries, pooled) {
      var e :| e in entries && Contribution(e, pooled) != {};
      assert Names(e);
      assert Clause(byDivision[e.division], e.division) in combined;
    }
    if c :| c in combined {
      assert c.dids != {};
      var d := Member(c.dids);
      assert c.division in byDivision && d in byDivision[c.division];
    }
  }

  lemma {:induction false} QueryAdmits(byDivision: map<Option<int>, set<int>>, combined: set<Clause>,
                                       entries: seq<Entry>, pooled: set<int>, a: Assignment)
    requires GroupsBy(byDivision, entries, pooled) && ClausesOf(combined, byDivision)
    ensures (exists c :: c in combined && Satisfies(a, c)) <==> Admits(entries, pooled, a)
  {
    if Admits(entries, pooled, a) {
      var e :| e in entries && a.did in Contribution(e, pooled) && (e.division.None? || e.division.value == a.division);
      assert Names(e);
      var c := Clause(byDivision[e.division], e.division);
      assert c in combined && Satisfies(a, c);
    }
    if c :| c in combined && Satisfies(a, c) {
      assert c.division in byDivision && a.did in byDivision[c.division];
      var e :| e in entries && e.division == c.division && a.did in Contribution(e, pooled);
      assert Admits(entries, pooled, a);
    }
  }

  /** The assembled query selects exactly the matching assignments. */
  lemma {:induction false} QueryIsBatch(byDivision: map<Option<int>, set<int>>, combined: set<Clause>,
                                        entries: seq<Entry>, pooled: set<int>, a: Assignment)
    requires GroupsBy(byDivision, entries, pooled) && ClausesOf(combined, byDivision)
    ensures QueryMatches(combined, a) <==> BatchMatches(entries, pooled, a)
  {
    EmptyQuery(byDivision, combined, entries, pooled);
    QueryAdmits(byDivision, combined, entries, pooled, a);
    if Admits(entries, pooled, a) {
      var e :| e in entries && a.did in Contribution(e, pooled) && (e.division.None? || e.division.value == a.division);
      assert Contribution(e, pooled) != {};
    }
  }

  method CollectNumbers(assignments: set<Assignment>, numberOf: map<int, string>) returns (extensions: set<string>)
    ensures extensions == Numbers(assignments, numberOf)
  {
    extensions := {};
    var todo := assignments;
    while todo != {}
      invariant todo <= assignments
      invariant extensions == Numbers(assignments - todo, numberOf)
      decreases todo
    {
      var a :| a in todo;
      todo := todo - {a};
      assert assignments - todo == (assignments - (todo + {a})) + {a};
      if a.user in numberOf && numberOf[a.user] != "" {
        extensions := extensions + {numberOf[a.user]};
      }
    }
    assert assignments - {} == assignments;
  }

  /** `resolve_tl_extensions`; `numberOf` is the extension number of each caller that has one. */
  method ResolveTlExtensions(entries: seq<Entry>, dids: map<int, Did>, tenant: Option<int>,
                             assignments: set<Assignment>, numberOf: map<int, string>) returns (r: Option<set<string>>)
    ensures r == BatchExtensions(entries, dids, tenant, assignments, numberOf)
  {
    if entries == [] {
      return None;
    }
    var _, pooled, _ := TlDidAndDeptIds(entries, dids, tenant);
    var byDivision := GroupByDivision(entries, pooled);
    if byDivision == map[] {
      assert forall e :: e in entries && Names(e) ==> e.division in byDivision;
      return Some({});
    }
    assert exists e :: e in entries && Names(e) by {
      assert byDivision.Keys != {};
      var k :| k in byDivision.Keys;
    }
    var combined := CombineClauses(byDivision);
    var matching := set a | a in assignments && QueryMatches(combined, a);
    assert matching == set a | a in assignments && BatchMatches(entries, pooled, a) by {
      forall a | a in assignments
        ensures QueryMatches(combined, a) <==> BatchMatches(entries, pooled, a)
      {
        QueryIsBatch(byDivision, combined, entries, pooled, a);
      }
    }
    var extensions := CollectNumbers(matching, numberOf);
    r := Some(extensions);
  }

  /** `resolve_tl_did_ids` */
  method ResolveTlDidIds(entries: seq<Entry>, dids: map<int, Did>, tenant: Option<int>) returns (r: Option<set<int>>)
    ensures r == if entries == [] then None else Some(DirectDids(entries) + PooledDids(entries, dids, tenant))
  {
    if entries == [] {
      return None;
    }
    var direct, pooled, _ := TlDidAndDeptIds(entries, dids, tenant);
    r := Some(direct + pooled);
  }

  function DivisionIds(entries: seq<Entry>): Option<set<int>> {
    if entries == [] || (exists e :: e in entries && e.division.None?) then None
    else Some(set e | e in entries && e.division.Some? :: e.division.value)
  }

  /** `resolve_tl_division_ids` */
  method ResolveTlDivisionIds(entries: seq<Entry>) returns (r: Option<set<int>>)
    ensures r == DivisionIds(entries)
  {
    if entries == [] {
      return None;
    }
    var divisions: set<int> := {};
    for i := 0 to |entries|
      invariant forall j :: 0 <= j < i ==> entries[j].division.Some?
      invariant divisions == set e | e in entries[..i] && e.division.Some? :: e.division.value
    {
      assert entries[..i + 1] == entries[..i] + [entries[i]];
      if entries[i].division.None? {
        assert entries[i] in entries;
        return None;
      }
      divisions := divisions + {entries[i].division.value};
    }
    assert entries[..|entries|] == entries;
    r := Some(divisions);
  }

  // ---------------------------------------------------------------------------
  // The roster, one entry at a time
  // ---------------------------------------------------------------------------

  /** What one caller row of the roster shows; the first three fields identify it. */
  datatype RosterRow = RosterRow(
    user: int, did: int, division: int,
    email: string, didNumber: string, divisionName: string, extensionNumber: Option<string>)

  /** Display values the view joins in. */
  datatype Directory = Directory(
    emailOf: int -> string, didNumberOf: int -> string, divisionNameOf: int -> string, numberOf: map<int, string>)

  function RowOf(a: Assignment, names: Directory): RosterRow {
    RosterRow(a.user, a.did, a.division, names.emailOf(a.user), names.didNumberOf(a.did),
              names.divisionNameOf(a.division),
              if a.user in names.numberOf then Some(names.numberOf[a.user]) else None)
  }

  /** The DIDs an entry names: its own, or every DID of its department. */
  function EntryDids(e: Entry, dids: map<int, Did>): set<int> {
    if e.did.Some? then {e.did.value}
    else set d | d in dids && dids[d].department == e.department
  }

  predicate EntryGrants(e: Entry, dids: map<int, Did>, a: Assignment) {
    a.did in EntryDids(e, dids) && (e.division.None? || e.division.value == a.division)
  }

  ghost predicate RosterGrants(entries: seq<Entry>, dids: map<int, Did>, a: Assignment) {
    exists e :: e in entries && EntryGrants(e, dids, a)
  }

  /** `row["division_name"], row["did_number"], row["user_email"]`, compared as a tuple. */
  predicate RosterBefore(x: RosterRow, y: RosterRow) {
    if x.divisionName != y.divisionName then Text.Le(x.divisionName, y.divisionName)
    else if x.didNumber != y.didNumber then Text.Le(x.didNumber, y.didNumber)
    else Text.Le(x.email, y.email)
  }

  lemma {:induction false} RosterBeforeIsPreorder()
    ensures Preorder(RosterBefore)
  {
    Text.LeIsTotalOrder();
  }

  /** The roster rows are one per (caller, DID, division) among the assignments of `granted`. */
  ghost predicate Lists(roster: seq<RosterRow>, granted: set<Assignment>, names: Directory) {
    && (forall i, j :: 0 <= i < j < |roster| ==>
          (roster[i].user, roster[i].did, roster[i].division) != (roster[j].user, roster[j].did, roster[j].division))
    && (forall i :: 0 <= i < |roster| ==> exists a :: a in granted && roster[i] == RowOf(a, names))
    && (forall a :: a in granted ==> RowOf(a, names) in roster)
  }

  method AddEntryRows(roster: seq<RosterRow>, seen: set<(int, int, int)>, matching: set<Assignment>,
                      ghost granted: set<Assignment>, names: Directory)
    returns (roster': seq<RosterRow>, seen': set<(int, int, int)>)
    requires Lists(roster, granted, names)
    requires forall k :: k in seen <==> exists a :: a in granted && k == (a.user, a.did, a.division)
    ensures Lists(roster', granted + matching, names)
    ensures forall k :: k in seen' <==> exists a :: a in granted + matching && k == (a.user, a.did, a.division)
  {
    hide Lists, RowOf;
    roster', seen' := roster, seen;
    var todo := matching;
    ghost var done := granted;
    while todo != {}
      invariant done + todo == granted + matching
      invariant Lists(roster', done, names)
      invariant forall k :: k in seen' <==> exists a :: a in done && k == (a.user, a.did, a.division)
      decreases todo
    {
      var a :| a in todo;
      todo := todo - {a};
      ghost var before := done;
      done := done + {a};
      var key := (a.user, a.did, a.division);
      if key in seen' {
        AddAgain(roster', before, a, names);
      } else {
        seen' := seen' + {key};
        AddRow(roster', before, a, names);
        roster' := roster' + [RowOf(a, names)];
      }
    }
    assert done == granted + matching;
  }

  lemma {:induction false} AddAgain(roster: seq<RosterRow>, granted: set<Assignment>, a: Assignment, names: Directory)
    requires Lists(roster, granted, names)
    requires exists b :: b in granted && (b.user, b.did, b.division) == (a.user, a.did, a.division)
    ensures Lists(roster, granted + {a}, names)
  {
  }

  lemma {:induction false} AddRow(roster: seq<RosterRow>, granted: set<Assignment>, a: Assignment, names: Directory)
    requires Lists(roster, granted, names)
    requires forall b :: b in granted ==> (b.user, b.did, b.division) != (a.user, a.did, a.division)
    ensures Lists(roster + [RowOf(a, names)], granted + {a}, names)
  {
  }

  /** `MyLogAccessRosterView.get` */
  method Roster(entries: seq<Entry>, dids: map<int, Did>, assignments: set<Assignment>, names: Directory)
    returns (roster: seq<RosterRow>)
    ensures Lists(roster, RosterAssignments(entries, dids, assignments), names)
    ensures SortedBy(roster, RosterBefore)
  {
    roster := [];
    var seen: set<(int, int, int)> := {};
    for i := 0 to |entries|
      invariant Lists(roster, RosterAssignments(entries[..i], dids, assignments), names)
      invariant forall k :: k in seen <==>
                  exists a :: a in RosterAssignments(entries[..i], dids, assignments)
                      && k == (a.user, a.did, a.division)
    {
      var e := entries[i];
      var didIds := EntryDids(e, dids);
      RosterAssignmentsExtend(entries[..i], e, dids, assignments);
      assert entries[..i + 1] == entries[..i] + [e];
      if didIds == {} {
        assert (set a | a in assignments && EntryGrants(e, dids, a)) == {};
        assert RosterAssignments(entries[..i + 1], dids, assignments) ==
               RosterAssignments(entries[..i], dids, assignments);
        continue;
      }
      var matching := set a | a in assignments && a.did in didIds
          && (e.division.None? || e.division.value == a.division);
      assert matching == set a | a in assignments && EntryGrants(e, dids, a);
      roster, seen := AddEntryRows(roster, seen, matching, RosterAssignments(entries[..i], dids, assignments), names);
    }
    assert entries[..|entries|] == entries;
    RosterBeforeIsPreorder();
    SortIsStableSort(roster, RosterBefore);
    ListsPermutation(roster, Sort(roster, RosterBefore), RosterAssignments(entries, dids, assignments), names);
    roster := Sort(roster, RosterBefore);
  }

  ghost function RosterAssignments(entries: seq<Entry>, dids: map<int, Did>,
                                   assignments: set<Assignment>): set<Assignment> {
    set a | a in assignments && RosterGrants(entries, dids, a)
  }

  lemma {:induction false} RosterAssignmentsExtend(entries: seq<Entry>, e: Entry, dids: map<int, Did>,
                                                   assignments: set<Assignment>)
    ensures RosterAssignments(entries + [e], dids, assignments)
            == RosterAssignments(entries, dids, assignments) + set a | a in assignments && EntryGrants(e, dids, a)
  {
  }

  /** Reordering a roster lists the same rows. */
  lemma {:induction false} ListsPermutation(r: seq<RosterRow>, r': seq<RosterRow>, granted: set<Assignment>,
                                            names: Directory)
    requires Lists(r, granted, names) && multiset(r') == multiset(r)
    ensures Lists(r', granted, names)
  {
    forall i | 0 <= i < |r'|
      ensures exists a :: a in granted && r'[i] == RowOf(a, names)
    {
      assert r'[i] in multiset(r);
      var k :| 0 <= k < |r| && r[k] == r'[i];
    }
    forall a | a in granted
      ensures RowOf(a, names) in r'
    {
      assert RowOf(a, names) in multiset(r);
      assert RowOf(a, names) in multiset(r');
    }
    forall i, j | 0 <= i < j < |r'|
      ensures (r'[i].user, r'[i].did, r'[i].division) != (r'[j].user, r'[j].did, r'[j].division)
    {
      KeysOnce(r, r', granted, names, i, j);
    }
  }

  lemma {:induction false} OccursOnce(r: seq<RosterRow>, x: RosterRow)
    requires forall i, j :: 0 <= i < j < |r| ==> r[i] != r[j]
    ensures multiset(r)[x] <= 1
  {
    if r == [] {
    } else {
      var n := |r| - 1;
      OccursOnce(r[..n], x);
      assert r == r[..n] + [r[n]];
      assert x == r[n] ==> x !in r[..n];
    }
  }

  lemma {:induction false} KeysOnce(r: seq<RosterRow>, r': seq<RosterRow>, granted: set<Assignment>, names: Directory,
                                    i: nat, j: nat)
    requires Lists(r, granted, names) && multiset(r') == multiset(r) && i < j < |r'|
    ensures (r'[i].user, r'[i].did, r'[i].division) != (r'[j].user, r'[j].did, r'[j].division)
  {
    hide RowOf, RosterGrants;
    var x, y := r'[i], r'[j];
    assert x in multiset(r) && y in multiset(r);
    var k :| 0 <= k < |r| && r[k] == x;
    var l :| 0 <= l < |r| && r[l] == y;
    OccursOnce(r, x);
    var rest := r'[..i] + r'[i + 1..];
    assert r' == r'[..i] + [x] + r'[i + 1..];
    assert multiset(r') == multiset(rest) + multiset{x};
    assert y in rest by {
      assert y == r'[i + 1..][j - i - 1];
    }
    assert x == y ==> multiset(r')[x] >= 2;
    assert k != l;
  }

  // ---------------------------------------------------------------------------
  // Batched resolver against roster
  // ---------------------------------------------------------------------------

  /** The extension numbers a roster shows. */
  ghost function RosterExtensions(entries: seq<Entry>, dids: map<int, Did>, assignments: set<Assignment>,
                                  numberOf: map<int, string>): set<string>
  {
    Numbers(RosterAssignments(entries, dids, assignments), numberOf)
  }

  lemma {:induction false} RosterShowsNumbers(roster: seq<RosterRow>, granted: set<Assignment>, names: Directory)
    requires Lists(roster, granted, names)
    ensures (set row | row in roster && row.extensionNumber.Some? && row.extensionNumber.value != "" ::
             row.extensionNumber.value)
            == Numbers(granted, names.numberOf)
  {
  }

  /** AccessGroupEntrySerializer.validate: exactly one of DID and department. */
  predicate WellFormed(entries: seq<Entry>) {
    forall e :: e in entries ==> (e.did.Some? <==> e.department.None?)
  }

  /** Every DID of a granted department belongs to the lead's tenant. */
  predicate InTenant(entries: seq<Entry>, dids: map<int, Did>, tenant: Option<int>) {
    tenant.Some? ==>
      forall d :: d in dids && dids[d].department.Some? && dids[d].department.value in NamedDepartments(entries) ==>
        dids[d].tenant == tenant.value
  }

  /** The outer-join rows differ from the roster's only by rows that name nothing. */
  lemma {:induction false} JoinedAddsNothing(groups: seq<seq<Entry>>)
    ensures forall e :: e in GroupEntries(groups) ==> e in JoinedEntries(groups)
    ensures forall e :: e in JoinedEntries(groups) ==> e in GroupEntries(groups) || e == NULL_ENTRY
  {
    if groups == [] {
    } else {
      JoinedAddsNothing(groups[1..]);
    }
  }

  lemma {:induction false} SameNames(groups: seq<seq<Entry>>, dids: map<int, Did>, tenant: Option<int>)
    ensures NamedDepartments(JoinedEntries(groups)) == NamedDepartments(GroupEntries(groups))
    ensures PooledDids(JoinedEntries(groups), dids, tenant) == PooledDids(GroupEntries(groups), dids, tenant)
  {
    JoinedAddsNothing(groups);
    assert NamedDepartments(JoinedEntries(groups)) == NamedDepartments(GroupEntries(groups));
  }

  /** In a well-formed in-tenant setting an entry's DIDs are part of what it contributes. */
  lemma {:induction false} EntryWithinContribution(entries: seq<Entry>, e: Entry, dids: map<int, Did>,
                                                   tenant: Option<int>)
    requires WellFormed(entries) && InTenant(entries, dids, tenant) && e in entries
    ensures EntryDids(e, dids) <= Contribution(e, PooledDids(entries, dids, tenant))
  {
    forall d | d in EntryDids(e, dids)
      ensures d in Contribution(e, PooledDids(entries, dids, tenant))
    {
      if e.department.Some? {
        assert e.department.value in NamedDepartments(entries);
        assert dids[d].department.value in NamedDepartments(entries);
      }
    }
  }

  /** A grant always joins to at least one row, so "no rows" means "no grants". */
  lemma {:induction false} JoinedNonEmpty(groups: seq<seq<Entry>>)
    ensures JoinedEntries(groups) == [] <==> groups == []
  {
  }

  /** The batched resolver never hides an extension the roster shows. */
  lemma {:induction false} BatchCoversRoster(groups: seq<seq<Entry>>, dids: map<int, Did>, tenant: Option<int>,
                                             assignments: set<Assignment>, numberOf: map<int, string>)
    requires WellFormed(GroupEntries(groups)) && InTenant(GroupEntries(groups), dids, tenant)
    requires groups != []
    ensures BatchExtensions(JoinedEntries(groups), dids, tenant, assignments, numberOf).Some?
    ensures RosterExtensions(GroupEntries(groups), dids, assignments, numberOf)
            <= BatchExtensions(JoinedEntries(groups), dids, tenant, assignments, numberOf).value
  {
    var entries, joined := GroupEntries(groups), JoinedEntries(groups);
    var pooled := PooledDids(joined, dids, tenant);
    JoinedNonEmpty(groups);
    forall a | a in assignments && RosterGrants(entries, dids, a)
      ensures Admits(joined, pooled, a) && exists e :: e in joined && Names(e)
    {
      RosterGrantAdmits(groups, dids, tenant, a);
    }
    forall n | n in RosterExtensions(entries, dids, assignments, numberOf)
      ensures n in BatchExtensions(joined, dids, tenant, assignments, numberOf).value
    {
      var a :| a in assignments && RosterGrants(entries, dids, a) && a.user in numberOf && numberOf[a.user] != ""
          && numberOf[a.user] == n;
    }
  }

  lemma {:induction false} RosterGrantAdmits(groups: seq<seq<Entry>>, dids: map<int, Did>, tenant: Option<int>,
                                             a: Assignment)
    requires WellFormed(GroupEntries(groups)) && InTenant(GroupEntries(groups), dids, tenant)
    requires RosterGrants(GroupEntries(groups), dids, a)
    ensures Admits(JoinedEntries(groups), PooledDids(JoinedEntries(groups), dids, tenant), a)
    ensures exists e :: e in JoinedEntries(groups) && Names(e)
  {
    var entries, joined := GroupEntries(groups), JoinedEntries(groups);
    JoinedAddsNothing(groups);
    SameNames(groups, dids, tenant);
    var e :| e in entries && EntryGrants(e, dids, a);
    EntryWithinContribution(entries, e, dids, tenant);
    assert e in joined && Names(e);
  }

  // ---------------------------------------------------------------------------
  // Exactly when pooling the departments is harmless
  // ---------------------------------------------------------------------------

  ghost predicate Covers(entries: seq<Entry>, dids: map<int, Did>, d: int, division: Option<int>) {
    exists e :: e in entries && d in EntryDids(e, dids) && (e.division.None? || e.division == division)
  }

  /** Every DID of a granted department is also granted under every department entry's division. */
  ghost predicate PoolingHarmless(entries: seq<Entry>, dids: map<int, Did>) {
    forall e1, e2, d :: e1 in entries && e2 in entries && e1.department.Some? && e2.department.Some?
        && d in EntryDids(e1, dids)
      ==> Covers(entries, dids, d, e2.division)
  }

  ghost predicate AlwaysAgrees(groups: seq<seq<Entry>>, dids: map<int, Did>, tenant: Option<int>) {
    forall assignments: set<Assignment>, numberOf: map<int, string> ::
      BatchExtensions(JoinedEntries(groups), dids, tenant, assignments, numberOf)
      == Some(RosterExtensions(GroupEntries(groups), dids, assignments, numberOf))
  }

  lemma {:induction false} AdmitsIsRosterGrant(groups: seq<seq<Entry>>, dids: map<int, Did>, tenant: Option<int>,
                                               a: Assignment)
    requires WellFormed(GroupEntries(groups)) && PoolingHarmless(GroupEntries(groups), dids)
    requires Admits(JoinedEntries(groups), PooledDids(JoinedEntries(groups), dids, tenant), a)
    ensures RosterGrants(GroupEntries(groups), dids, a)
  {
    var entries, joined := GroupEntries(groups), JoinedEntries(groups);
    var pooled := PooledDids(joined, dids, tenant);
    JoinedAddsNothing(groups);
    SameNames(groups, dids, tenant);
    var e :| e in joined && a.did in Contribution(e, pooled) && (e.division.None? || e.division.value == a.division);
    assert e in entries;
    if e.did.Some? {
      assert EntryGrants(e, dids, a);
    } else {
      assert a.did in pooled;
      var e1 :| e1 in entries && e1.department.Some? && e1.department.value == dids[a.did].department.value;
      assert a.did in EntryDids(e1, dids);
      assert Covers(entries, dids, a.did, e.division);
      var e2 :| e2 in entries && a.did in EntryDids(e2, dids) && (e2.division.None? || e2.division == e.division);
      assert EntryGrants(e2, dids, a);
    }
  }

  lemma {:induction false} HarmlessAgrees(groups: seq<seq<Entry>>, dids: map<int, Did>, tenant: Option<int>,
                                          assignments: set<Assignment>, numberOf: map<int, string>)
    requires WellFormed(GroupEntries(groups)) && InTenant(GroupEntries(groups), dids, tenant)
    requires Reaches(JoinedEntries(groups), PooledDids(JoinedEntries(groups), dids, tenant))
    requires PoolingHarmless(GroupEntries(groups), dids)
    ensures BatchExtensions(JoinedEntries(groups), dids, tenant, assignments, numberOf)
            == Some(RosterExtensions(GroupEntries(groups), dids, assignments, numberOf))
  {
    var entries, joined := GroupEntries(groups), JoinedEntries(groups);
    var pooled := PooledDids(joined, dids, tenant);
    var e :| e in joined && Contribution(e, pooled) != {};
    assert Names(e);
    var batch := set a | a in assignments && BatchMatches(joined, pooled, a);
    assert batch == RosterAssignments(entries, dids, assignments) by {
      forall a | a in assignments
        ensures BatchMatches(joined, pooled, a) <==> RosterGrants(entries, dids, a)
      {
        if RosterGrants(entries, dids, a) {
          RosterGrantAdmits(groups, dids, tenant, a);
        }
        if Admits(joined, pooled, a) {
          AdmitsIsRosterGrant(groups, dids, tenant, a);
        }
      }
    }
  }

  /** A division no entry names. */
  lemma {:induction false} FreshDivision(entries: seq<Entry>) returns (v: int)
    ensures forall e :: e in entries ==> e.division != Some(v)
  {
    v := 0;
    for i := 0 to |entries|
      invariant forall j :: 0 <= j < i ==> entries[j].division.Some? ==> entries[j].division.value < v
    {
      if entries[i].division.Some? && entries[i].division.value >= v {
        v := entries[i].division.value + 1;
      }
    }
  }

  lemma {:induction false} HarmfulDisagrees(groups: seq<seq<Entry>>, dids: map<int, Did>, tenant: Option<int>)
    requires WellFormed(GroupEntries(groups)) && InTenant(GroupEntries(groups), dids, tenant)
    requires !PoolingHarmless(GroupEntries(groups), dids)
    ensures !AlwaysAgrees(groups, dids, tenant)
  {
    var entries, joined := GroupEntries(groups), JoinedEntries(groups);
    var pooled := PooledDids(joined, dids, tenant);
    JoinedAddsNothing(groups);
    SameNames(groups, dids, tenant);
    var e1, e2, d :| e1 in entries && e2 in entries && e1.department.Some? && e2.department.Some?
                     && d in EntryDids(e1, dids) && !Covers(entries, dids, d, e2.division);
    var unnamed := FreshDivision(entries);
    var v := if e2.division.Some? then e2.division.value else unnamed;
    var a := Assignment(0, d, v, None);
    EntryWithinContribution(entries, e1, dids, tenant);
    assert d in Contribution(e2, pooled) && e2 in joined && Names(e2);
    assert Admits(joined, pooled, a);
    forall e | e in entries
      ensures !EntryGrants(e, dids, a)
    {
      assert e.division != Some(unnamed);
    }
    assert !RosterGrants(entries, dids, a);
    hide *;
    LoneAdmitted(groups, dids, tenant, a);
  }

  /** An admitted assignment the roster lacks makes the two differ. */
  lemma {:induction false} LoneAdmitted(groups: seq<seq<Entry>>, dids: map<int, Did>, tenant: Option<int>,
                                        a: Assignment)
    requires Admits(JoinedEntries(groups), PooledDids(JoinedEntries(groups), dids, tenant), a)
    requires !RosterGrants(GroupEntries(groups), dids, a)
    ensures !AlwaysAgrees(groups, dids, tenant)
  {
    var entries, joined := GroupEntries(groups), JoinedEntries(groups);
    var assignments, numberOf := {a}, map[a.user := "x"];
    assert RosterAssignments(entries, dids, assignments) == {};
    assert "x" !in RosterExtensions(entries, dids, assignments, numberOf);
    hide PooledDids, GroupEntries, JoinedEntries;
    assert a in (set b | b in assignments && BatchMatches(joined, PooledDids(joined, dids, tenant), b));
    assert "x" in BatchExtensions(joined, dids, tenant, assignments, numberOf).value;
  }

  /**
   When at least one DID is reached, the batched resolver agrees with the roster on every
   assignment table exactly when pooling is harmless.
  */
  lemma {:induction false} AgreesIff(groups: seq<seq<Entry>>, dids: map<int, Did>, tenant: Option<int>)
    requires WellFormed(GroupEntries(groups)) && InTenant(GroupEntries(groups), dids, tenant)
    requires Reaches(JoinedEntries(groups), PooledDids(JoinedEntries(groups), dids, tenant))
    ensures AlwaysAgrees(groups, dids, tenant) <==> PoolingHarmless(GroupEntries(groups), dids)
  {
    if PoolingHarmless(GroupEntries(groups), dids) {
      forall assignments: set<Assignment>, numberOf: map<int, string>
        ensures BatchExtensions(JoinedEntries(groups), dids, tenant, assignments, numberOf)
                == Some(RosterExtensions(GroupEntries(groups), dids, assignments, numberOf))
      {
        HarmlessAgrees(groups, dids, tenant, assignments, numberOf);
      }
    } else {
      HarmfulDisagrees(groups, dids, tenant);
    }
  }

  /** Department entries that all carry one division are harmless to pool. */
  lemma {:induction false} OneDivisionHarmless(entries: seq<Entry>, dids: map<int, Did>, division: Option<int>)
    requires forall e :: e in entries && e.department.Some? ==> e.division == division
    ensures PoolingHarmless(entries, dids)
  {
  }

  // ---------------------------------------------------------------------------
  // The resolvers against each other
  // ---------------------------------------------------------------------------

  ghost predicate Confined(entries: seq<Entry>, dids: map<int, Did>, tenant: Option<int>) {
    forall assignments: set<Assignment>, numberOf: map<int, string> ::
      var r := BatchExtensions(entries, dids, tenant, assignments, numberOf);
      var visible := DirectDids(entries) + PooledDids(entries, dids, tenant);
      r.Some? ==> r.value <= Numbers((set a | a in assignments && a.did in visible), numberOf)
  }

  lemma {:induction false} ReachingIsConfined(entries: seq<Entry>, dids: map<int, Did>, tenant: Option<int>)
    requires Reaches(entries, PooledDids(entries, dids, tenant)) || forall e :: e in entries ==> !Names(e)
    ensures Confined(entries, dids, tenant)
  {
  }

  lemma {:induction false} ContributesNothing(e: Entry, pooled: set<int>)
    ensures Contribution(e, pooled) == {} <==> e.did.None? && (e.department.Some? ==> pooled == {})
  {
  }

  lemma {:induction false} UnreachedNothing(entries: seq<Entry>, dids: map<int, Did>, tenant: Option<int>)
    requires !Reaches(entries, PooledDids(entries, dids, tenant))
    ensures DirectDids(entries) + PooledDids(entries, dids, tenant) == {}
  {
    var pooled := PooledDids(entries, dids, tenant);
    forall e | e in entries
      ensures e.did.None?
    {
      ContributesNothing(e, pooled);
      assert Contribution(e, pooled) == {};
    }
    if e :| e in entries && e.department.Some? {
      ContributesNothing(e, pooled);
      assert Contribution(e, pooled) == {};
    } else {
      assert NamedDepartments(entries) == {};
    }
  }

  lemma {:induction false} UnreachingIsUnconfined(entries: seq<Entry>, dids: map<int, Did>, tenant: Option<int>)
    requires !Reaches(entries, PooledDids(entries, dids, tenant)) && exists e :: e in entries && Names(e)
    ensures !Confined(entries, dids, tenant)
  {
    var pooled := PooledDids(entries, dids, tenant);
    var visible := DirectDids(entries) + pooled;
    var a := Assignment(0, 0, 0, None);
    UnreachedNothing(entries, dids, tenant);
    var assignments, numberOf := {a}, map[0 := "x"];
    assert a in (set b | b in assignments && BatchMatches(entries, pooled, b));
    assert "x" in BatchExtensions(entries, dids, tenant, assignments, numberOf).value;
    assert (set b | b in assignments && b.did in visible) == {};
    assert "x" !in Numbers((set b | b in assignments && b.did in visible), numberOf);
  }

  /**
   The extensions resolver stays within the DIDs the DID resolver shows, on every assignment
   table, exactly when some grant reaches a DID or none names anything.
  */
  lemma {:induction false} ConfinedIff(entries: seq<Entry>, dids: map<int, Did>, tenant: Option<int>)
    ensures Confined(entries, dids, tenant)
            <==> Reaches(entries, PooledDids(entries, dids, tenant)) || forall e :: e in entries ==> !Names(e)
  {
    if Reaches(entries, PooledDids(entries, dids, tenant)) || forall e :: e in entries ==> !Names(e) {
      ReachingIsConfined(entries, dids, tenant);
    } else {
      UnreachingIsUnconfined(entries, dids, tenant);
    }
  }

  /** An assignment the grants admit carries a division the division resolver shows. */
  lemma {:induction false} AdmittedDivisionVisible(entries: seq<Entry>, pooled: set<int>, a: Assignment)
    requires Admits(entries, pooled, a)
    ensures DivisionIds(entries).Some? ==> a.division in DivisionIds(entries).value
  {
  }

  /** A granted group without entries lifts the division restriction altogether. */
  lemma {:induction false} EmptyGroupUnrestricts(groups: seq<seq<Entry>>)
    requires [] in groups
    ensures DivisionIds(JoinedEntries(groups)) == None
  {
    assert NULL_ENTRY in JoinedEntries(groups) by {
      EmptyGroupJoins(groups);
    }
  }

  lemma {:induction false} EmptyGroupJoins(groups: seq<seq<Entry>>)
    requires [] in groups
    ensures NULL_ENTRY in JoinedEntries(groups)
  {
    if groups[0] == [] {
    } else {
      EmptyGroupJoins(groups[1..]);
    }
  }

  // ---------------------------------------------------------------------------
  // The roster, row by row
  // ---------------------------------------------------------------------------

  /** Rows stand by division name, then by DID number, then by email. */
  lemma {:induction false} RosterOrder(roster: seq<RosterRow>, i: nat, j: nat)
    requires SortedBy(roster, RosterBefore) && i < j < |roster|
    ensures Text.Le(roster[i].divisionName, roster[j].divisionName)
    ensures roster[i].divisionName == roster[j].divisionName ==> Text.Le(roster[i].didNumber, roster[j].didNumber)
    ensures roster[i].divisionName == roster[j].divisionName && roster[i].didNumber == roster[j].didNumber ==>
              Text.Le(roster[i].email, roster[j].email)
  {
    Text.LeIsTotalOrder();
    assert RosterBefore(roster[i], roster[j]);
  }

  /** The entry names the assignment's DID, or the department of that DID, and its division if any. */
  ghost predicate Grants(e: Entry, dids: map<int, Did>, a: Assignment) {
    && (if e.did.Some? then e.did == Some(a.did) else a.did in dids && dids[a.did].department == e.department)
    && (e.division.Some? ==> e.division == Some(a.division))
  }

  lemma {:induction false} RosterAssignmentIff(entries: seq<Entry>, dids: map<int, Did>, assignments: set<Assignment>,
                                               a: Assignment)
    ensures a in RosterAssignments(entries, dids, assignments) <==>
            a in assignments && exists e :: e in entries && Grants(e, dids, a)
  {
    forall e
      ensures Grants(e, dids, a) <==> EntryGrants(e, dids, a)
    {
    }
    hide Grants, EntryGrants;
  }

  /**
   A row is there exactly for an assignment some entry grants, and shows the names of the caller, DID and
   division it is about.
  */
  lemma {:induction false} RosterReads(roster: seq<RosterRow>, entries: seq<Entry>, dids: map<int, Did>,
                                       assignments: set<Assignment>, names: Directory, row: RosterRow)
    requires Lists(roster, RosterAssignments(entries, dids, assignments), names)
    ensures row in roster <==>
            && (exists a :: && a in assignments && (exists e :: e in entries && Grants(e, dids, a))
                            && a.user == row.user && a.did == row.did && a.division == row.division)
            && row.email == names.emailOf(row.user) && row.didNumber == names.didNumberOf(row.did)
            && row.divisionName == names.divisionNameOf(row.division)
            && (if row.user in names.numberOf then row.extensionNumber == Some(names.numberOf[row.user])
                else row.extensionNumber.None?)
  {
    var granted := RosterAssignments(entries, dids, assignments);
    forall a
      ensures a in granted <==> a in assignments && exists e :: e in entries && Grants(e, dids, a)
    {
      RosterAssignmentIff(entries, dids, assignments, a);
    }
    hide RosterAssignments, Grants;
    ListsRow(roster, granted, names, row);
  }

  lemma {:induction false} ListsRow(roster: seq<RosterRow>, granted: set<Assignment>, names: Directory, row: RosterRow)
    requires Lists(roster, granted, names)
    ensures row in roster <==> exists a :: a in granted && row == RowOf(a, names)
  {
    if row in roster {
      var i :| 0 <= i < |roster| && roster[i] == row;
    }
  }
}
