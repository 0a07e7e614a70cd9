/**
 apps/common/cdr_views.py (the extension label map and its cache), apps/extensions/signals.py and
 apps/users/signals.py.

 The map of a tenant is built from the extension and user tables and kept in a cache that signal
 handlers empty. `QuerySet.update()` and the deletion of a user change the tables without a signal.
*/
module LabelCache {
  import opened Wrappers
  import opened Tables
  import A = Assignments
  import Ordering
  import Text

  type LabelMap = map<string, string>

  /** What the query behind the map selects of one extension. */
  datatype LabelRow = LabelRow(number: string, sipUsername: string, firstName: string, lastName: string)

  function Rows(d: A.Directory, tenant: int): map<int, LabelRow> {
    map e | e in d.extensions && d.extensions[e].tenant == tenant
            && d.extensions[e].user.Some? && d.extensions[e].user.value in d.users ::
      LabelRow(d.extensions[e].number, d.extensions[e].sipUsername,
               d.users[d.extensions[e].user.value].firstName, d.users[d.extensions[e].user.value].lastName)
  }

  function NumberOf(rows: map<int, LabelRow>, id: int): string {
    if id in rows then rows[id].number else ""
  }

  /** The model's default ordering within a tenant. */
  function ByNumber(rows: map<int, LabelRow>): (int, int) -> bool {
    (a: int, b: int) =>
      if NumberOf(rows, a) == NumberOf(rows, b) then a <= b else Text.Le(NumberOf(rows, a), NumberOf(rows, b))
  }

  lemma {:induction false} ByNumberIsTotalOrder(rows: map<int, LabelRow>)
    ensures Ordering.TotalOrder(ByNumber(rows))
  {
    Text.LeIsTotalOrder();
  }

  function FullName(r: LabelRow): string {
    Text.Strip(r.firstName + " " + r.lastName)
  }

  function Labelled(m: LabelMap, r: LabelRow): LabelMap {
    if FullName(r) == "" then m
    else
      var text := FullName(r) + " (" + r.number + ")";
      m[r.number := text][r.sipUsername := text]
  }

  function BuildFrom(rows: map<int, LabelRow>, order: seq<int>): LabelMap
    requires forall i :: 0 <= i < |order| ==> order[i] in rows
  {
    if order == [] then map[]
    else Labelled(BuildFrom(rows, order[..|order| - 1]), rows[order[|order| - 1]])
  }

  function Order(rows: map<int, LabelRow>): (order: seq<int>)
    ensures forall i :: 0 <= i < |order| ==> order[i] in rows
    ensures forall e :: e in rows ==> e in order
  {
    ByNumberIsTotalOrder(rows);
    Ordering.AscendingMembers(rows.Keys, ByNumber(rows));
    var order := Ordering.Ascending(rows.Keys, ByNumber(rows));
    assert forall i :: 0 <= i < |order| ==> order[i] in order;
    order
  }

  /** `_build_extension_label_map` */
  function Build(d: A.Directory, tenant: int): LabelMap {
    BuildFrom(Rows(d, tenant), Order(Rows(d, tenant)))
  }

  /** The map, row by row: a later row overwrites. */
  method BuildMap(d: A.Directory, tenant: int) returns (labels: LabelMap)
    ensures labels == Build(d, tenant)
  {
    hide Rows, Order, FullName;
    var rows := Rows(d, tenant);
    var order := Order(rows);
    labels := map[];
    for i := 0 to |order|
      invariant labels == BuildFrom(rows, order[..i])
    {
      assert order[..i + 1][..i] == order[..i];
      var r := rows[order[i]];
      var fullName := FullName(r);
      if fullName != "" {
        var text := fullName + " (" + r.number + ")";
        labels := labels[r.number := text];
        labels := labels[r.sipUsername := text];
      }
    }
    assert order[..|order|] == order;
  }

  // ---------------------------------------------------------------------------
  // Steps
  // ---------------------------------------------------------------------------

  datatype State = State(tables: A.Directory, cache: map<int, LabelMap>)

  datatype Step =
    | SaveExtension(id: int, row: Extension)
    | DeleteExtension(id: int)
    | ClearUser(user: int)
    | SetUser(id: int, user: int)
    | SaveUser(id: int, person: User)
    | DeleteUser(user: int)
    | Serve(tenant: int, readable: bool, writable: bool)
    | Expire(tenant: int)

  /** Saving keeps an extension in its tenant; everything else refers to rows that exist. */
  predicate Possible(s: State, step: Step) {
    match step
    case SaveExtension(id, row) => id in s.tables.extensions ==> s.tables.extensions[id].tenant == row.tenant
    case SetUser(id, _) => id in s.tables.extensions
    case _ => true
  }

  /** `_track_name_change`: an existing user whose saved name differs. */
  predicate NameChanged(d: A.Directory, id: int, row: User) {
    id in d.users && (d.users[id].firstName != row.firstName || d.users[id].lastName != row.lastName)
  }

  /** The tenants whose cache entry the step's signals drop. */
  function Busted(s: State, step: Step): set<int> {
    match step
    case SaveExtension(_, row) => {row.tenant}
    case DeleteExtension(id) => if id in s.tables.extensions then {s.tables.extensions[id].tenant} else {}
    case SaveUser(id, row) => if NameChanged(s.tables, id, row) && row.tenant.Some? then {row.tenant.value} else {}
    case _ => {}
  }

  /** The steps that change the tables without a signal. */
  predicate Silent(step: Step) {
    step.ClearUser? || step.SetUser? || step.DeleteUser?
  }

  function Written(d: A.Directory, step: Step): A.Directory {
    match step
    case SaveExtension(id, row) => d.(extensions := d.extensions[id := row])
    case DeleteExtension(id) => d.(extensions := d.extensions - {id})
    case ClearUser(user) => d.(extensions := A.Cleared(d.extensions, user))
    case SetUser(id, user) => if id in d.extensions then d.(extensions := A.Given(d.extensions, id, user)) else d
    case SaveUser(id, row) => d.(users := d.users[id := row])
    case DeleteUser(user) => A.Directory(d.users - {user}, A.Cleared(d.extensions, user))
    case _ => d
  }

  /** The map a request is given: the cached one when the cache can be read and has one. */
  function Served(s: State, tenant: int, readable: bool): LabelMap {
    if readable && tenant in s.cache then s.cache[tenant] else Build(s.tables, tenant)
  }

  function Apply(s: State, step: Step): State {
    var tables, cache := Written(s.tables, step), s.cache - Busted(s, step);
    match step
    case Serve(tenant, readable, writable) =>
      if readable && writable && tenant !in s.cache then State(tables, cache[tenant := Build(s.tables, tenant)])
      else State(tables, cache)
    case Expire(tenant) => State(tables, cache - {tenant})
    case _ => State(tables, cache)
  }

  class Labels {
    var users: map<int, User>
    var extensions: map<int, Extension>
    var cache: map<int, LabelMap>

    function Model(): State
      reads this
    {
      State(A.Directory(users, extensions), cache)
    }

    /** `get_extension_label_map`; an unreadable or unwritable cache raises. */
    method Get(tenant: int, readable: bool, writable: bool) returns (labels: LabelMap)
      modifies this`cache
      ensures labels == Served(old(Model()), tenant, readable)
      ensures Model() == Apply(old(Model()), Serve(tenant, readable, writable))
    {
      hide Build;
      if readable {
        if tenant in cache {
          return cache[tenant];
        }
        labels := BuildMap(A.Directory(users, extensions), tenant);
        if writable {
          cache := cache[tenant := labels];
          return;
        }
      }
      labels := BuildMap(A.Directory(users, extensions), tenant);
    }

    /** `invalidate_extension_label_cache` */
    method Invalidate(tenant: int)
      modifies this`cache
      ensures cache == old(cache) - {tenant}
    {
      cache := cache - {tenant};
    }

    /** `Extension.save()` and its post_save handler */
    method Save(id: int, row: Extension)
      modifies this`extensions, this`cache
      ensures Model() == Apply(old(Model()), SaveExtension(id, row))
    {
      extensions := extensions[id := row];
      Invalidate(row.tenant);
    }

    /** `Extension.delete()` and its post_delete handler */
    method Delete(id: int)
      modifies this`extensions, this`cache
      ensures Model() == Apply(old(Model()), DeleteExtension(id))
    {
      if id in extensions {
        var tenant := extensions[id].tenant;
        extensions := extensions - {id};
        Invalidate(tenant);
      } else {
        assert extensions - {id} == extensions && cache - {} == cache;
      }
    }

    /** `User.save()` with its pre_save and post_save handlers */
    method SaveUserRow(id: int, row: User)
      modifies this`users, this`cache
      ensures Model() == Apply(old(Model()), SaveUser(id, row))
    {
      var nameChanged := id in users && (users[id].firstName != row.firstName || users[id].lastName != row.lastName);
      users := users[id := row];
      if nameChanged && row.tenant.Some? {
        Invalidate(row.tenant.value);
      } else {
        assert cache - {} == cache;
      }
    }
  }

  // ---------------------------------------------------------------------------
  // Every map served was the right one at some recent moment
  // ---------------------------------------------------------------------------

  ghost predicate IsRun(states: seq<State>, steps: seq<Step>) {
    && |states| == |steps| + 1
    && states[0].cache == map[]
    && forall k {:trigger steps[k]} :: 0 <= k < |steps| ==>
         Possible(states[k], steps[k]) && states[k + 1] == Apply(states[k], steps[k])
  }

  /** No step from j up to k fires a signal for the tenant. */
  ghost predicate QuietSince(states: seq<State>, steps: seq<Step>, tenant: int, j: nat, k: nat)
    requires |states| == |steps| + 1 && k <= |steps|
  {
    forall i :: j <= i < k ==> tenant !in Busted(states[i], steps[i])
  }

  lemma {:induction false} CachedWasCurrent(states: seq<State>, steps: seq<Step>, tenant: int, k: nat) returns (j: nat)
    requires IsRun(states, steps) && k < |states| && tenant in states[k].cache
    ensures j <= k && QuietSince(states, steps, tenant, j, k)
    ensures states[k].cache[tenant] == Build(states[j].tables, tenant)
  {
    hide Build;
    var s, step := states[k - 1], steps[k - 1];
    assert states[k] == Apply(s, step);
    if tenant in s.cache {
      j := CachedWasCurrent(states, steps, tenant, k - 1);
    } else {
      j := k - 1;
      assert step.Serve?;
    }
  }

  /**
   Each map served equals the map built from the tables at some moment no earlier than the last
   step that fired a signal for the tenant.
  */
  lemma {:induction false} ServedWasCurrent(states: seq<State>, steps: seq<Step>, k: nat) returns (j: nat)
    requires IsRun(states, steps) && k < |steps| && steps[k].Serve?
    ensures j <= k && QuietSince(states, steps, steps[k].tenant, j, k)
    ensures Served(states[k], steps[k].tenant, steps[k].readable) == Build(states[j].tables, steps[k].tenant)
  {
    hide Build;
    if steps[k].readable && steps[k].tenant in states[k].cache {
      j := CachedWasCurrent(states, steps, steps[k].tenant, k);
    } else {
      j := k;
    }
  }

  // ---------------------------------------------------------------------------
  // When it is still the right one
  // ---------------------------------------------------------------------------

  lemma {:induction false} RowKept(s: State, step: Step, tenant: int, e: int)
    requires Possible(s, step) && !Silent(step) && tenant !in Busted(s, step)
    requires A.SameTenant(s.tables) && A.SameTenant(Apply(s, step).tables)
    ensures var before, after := Rows(s.tables, tenant), Rows(Apply(s, step).tables, tenant);
            (e in before <==> e in after) && (e in before ==> before[e] == after[e])
  {
  }

  /** Every step that is not silent either fires the tenant's signal or leaves its map alone. */
  lemma {:induction false} LoudStepKeepsMap(s: State, step: Step, tenant: int)
    requires Possible(s, step) && !Silent(step) && tenant !in Busted(s, step)
    requires A.SameTenant(s.tables) && A.SameTenant(Apply(s, step).tables)
    ensures Build(Apply(s, step).tables, tenant) == Build(s.tables, tenant)
  {
    hide Build, BuildFrom, Order;
    var before, after := Rows(s.tables, tenant), Rows(Apply(s, step).tables, tenant);
    forall e
      ensures e in before <==> e in after
      ensures e in before ==> before[e] == after[e]
    {
      RowKept(s, step, tenant, e);
    }
    assert before == after;
    SameRowsSameMap(s.tables, Apply(s, step).tables, tenant);
  }

  lemma {:induction false} SameRowsSameMap(d: A.Directory, d': A.Directory, tenant: int)
    requires Rows(d, tenant) == Rows(d', tenant)
    ensures Build(d, tenant) == Build(d', tenant)
  {
  }

  lemma {:induction false} MapKept(states: seq<State>, steps: seq<Step>, tenant: int, j: nat, k: nat)
    requires IsRun(states, steps) && j <= k < |states|
    requires forall i :: 0 <= i < |states| ==> A.SameTenant(states[i].tables)
    requires QuietSince(states, steps, tenant, j, k) && forall i :: j <= i < k ==> !Silent(steps[i])
    ensures Build(states[k].tables, tenant) == Build(states[j].tables, tenant)
    decreases k
  {
    hide Build, Apply, A.SameTenant;
    if j < k {
      MapKept(states, steps, tenant, j, k - 1);
      var step := steps[k - 1];
      LoudStepKeepsMap(states[k - 1], step, tenant);
    }
  }

  /** The moment the served map was built: now, unless the cache answers. */
  ghost predicate BuiltAt(states: seq<State>, steps: seq<Step>, k: nat, j: nat)
    requires |states| == |steps| + 1 && k < |steps| && steps[k].Serve?
  {
    && j <= k && QuietSince(states, steps, steps[k].tenant, j, k)
    && Served(states[k], steps[k].tenant, steps[k].readable) == Build(states[j].tables, steps[k].tenant)
  }

  /**
   With the tenant invariant, a served map is current whenever no silent step happened since it
   was built.
  */
  lemma {:induction false} CurrentUnlessSilent(states: seq<State>, steps: seq<Step>, k: nat, j: nat)
    requires IsRun(states, steps) && k < |steps| && steps[k].Serve? && BuiltAt(states, steps, k, j)
    requires forall i :: 0 <= i < |states| ==> A.SameTenant(states[i].tables)
    requires forall i :: j <= i < k ==> !Silent(steps[i])
    ensures Served(states[k], steps[k].tenant, steps[k].readable) == Build(states[k].tables, steps[k].tenant)
  {
    MapKept(states, steps, steps[k].tenant, j, k);
  }

  /** A run without silent steps serves only current maps. */
  lemma {:induction false} NoSilentStepsAlwaysCurrent(states: seq<State>, steps: seq<Step>, k: nat)
    requires IsRun(states, steps) && k < |steps| && steps[k].Serve?
    requires forall i :: 0 <= i < |states| ==> A.SameTenant(states[i].tables)
    requires forall i :: 0 <= i < |steps| ==> !Silent(steps[i])
    ensures Served(states[k], steps[k].tenant, steps[k].readable) == Build(states[k].tables, steps[k].tenant)
  {
    var j := ServedWasCurrent(states, steps, k);
    CurrentUnlessSilent(states, steps, k, j);
  }

  // ---------------------------------------------------------------------------
  // What the map says, and how a silent step makes it stale
  // ---------------------------------------------------------------------------

  lemma {:induction false} BuildFromSays(rows: map<int, LabelRow>, order: seq<int>, key: string)
    requires forall i :: 0 <= i < |order| ==> order[i] in rows
    ensures key in BuildFrom(rows, order) <==>
            exists i :: 0 <= i < |order| && FullName(rows[order[i]]) != ""
                        && (rows[order[i]].number == key || rows[order[i]].sipUsername == key)
    ensures key in BuildFrom(rows, order) ==>
            exists i :: 0 <= i < |order| && FullName(rows[order[i]]) != ""
                        && (rows[order[i]].number == key || rows[order[i]].sipUsername == key)
                        && BuildFrom(rows, order)[key] == FullName(rows[order[i]]) + " (" + rows[order[i]].number + ")"
  {
    hide FullName;
    if order == [] {
    } else {
      var n := |order| - 1;
      var prefix := order[..n];
      BuildFromSays(rows, prefix, key);
      assert forall i :: 0 <= i < n ==> prefix[i] == order[i];
    }
  }

  /** Every entry of the map is the label of an assigned extension with that number or SIP name. */
  lemma {:induction false} BuildSays(d: A.Directory, tenant: int, key: string)
    requires key in Build(d, tenant)
    ensures exists e :: e in Rows(d, tenant) && FullName(Rows(d, tenant)[e]) != ""
                        && (Rows(d, tenant)[e].number == key || Rows(d, tenant)[e].sipUsername == key)
                        && Build(d, tenant)[key] ==
                            FullName(Rows(d, tenant)[e]) + " (" + Rows(d, tenant)[e].number + ")"
  {
    BuildFromSays(Rows(d, tenant), Order(Rows(d, tenant)), key);
  }

  /** Every assigned extension of a named user is labelled under its number and its SIP name. */
  lemma {:induction false} NamedIsLabelled(d: A.Directory, tenant: int, e: int)
    requires e in Rows(d, tenant) && FullName(Rows(d, tenant)[e]) != ""
    ensures Rows(d, tenant)[e].number in Build(d, tenant)
    ensures Rows(d, tenant)[e].sipUsername in Build(d, tenant)
  {
    hide FullName, Rows;
    var order := Order(Rows(d, tenant));
    BuildFromSays(Rows(d, tenant), order, Rows(d, tenant)[e].number);
    BuildFromSays(Rows(d, tenant), order, Rows(d, tenant)[e].sipUsername);
    var i :| 0 <= i < |order| && order[i] == e;
  }

  // ---------------------------------------------------------------------------
  // Exactly when a served map is stale
  // ---------------------------------------------------------------------------

  /** The name an extension shows: that of its user, or none. */
  function NameOn(d: A.Directory, e: int): string
    requires e in d.extensions
  {
    var user := d.extensions[e].user;
    if user.Some? && user.value in d.users then NameOf(d.users[user.value]) else ""
  }

  function NameOf(u: User): string {
    Text.Strip(u.firstName + " " + u.lastName)
  }

  /** The tenant has the same extensions, with the same numbers and SIP names. */
  ghost predicate SameExtensions(d: A.Directory, d': A.Directory, tenant: int) {
    && (forall e :: A.InTenant(d.extensions, tenant, e) <==> A.InTenant(d'.extensions, tenant, e))
    && forall e :: A.InTenant(d.extensions, tenant, e) ==>
         && d.extensions[e].number == d'.extensions[e].number
         && d.extensions[e].sipUsername == d'.extensions[e].sipUsername
  }

  ghost predicate SameNames(d: A.Directory, d': A.Directory, tenant: int)
    requires SameExtensions(d, d', tenant)
  {
    forall e :: A.InTenant(d.extensions, tenant, e) ==> NameOn(d, e) == NameOn(d', e)
  }

  /** No extension's number is another one's number (a unique constraint) or SIP name. */
  ghost predicate NumbersApart(extensions: map<int, Extension>, tenant: int) {
    forall e, f :: A.InTenant(extensions, tenant, e) && A.InTenant(extensions, tenant, f) && e != f ==>
      extensions[e].number != extensions[f].number && extensions[e].number != extensions[f].sipUsername
  }

  predicate Shown(rows: map<int, LabelRow>, e: int) {
    e in rows && FullName(rows[e]) != ""
  }

  /** The rows that leave a label, in build order. */
  function Listing(rows: map<int, LabelRow>): (order: seq<int>)
    ensures forall i :: 0 <= i < |order| ==> order[i] in rows
    ensures forall e :: e in order <==> Shown(rows, e)
  {
    var order := Ordering.Filter(Order(rows), e => Shown(rows, e));
    assert forall i :: 0 <= i < |order| ==> order[i] in order;
    order
  }

  lemma {:induction false} NextLabel(rows: map<int, LabelRow>, earlier: seq<int>, e: int)
    requires e in rows && forall i :: 0 <= i < |earlier| ==> earlier[i] in rows
    ensures forall i :: 0 <= i < |earlier + [e]| ==> (earlier + [e])[i] in rows
    ensures BuildFrom(rows, earlier + [e]) == Labelled(BuildFrom(rows, earlier), rows[e])
  {
    hide Labelled;
    assert (earlier + [e])[..|earlier|] == earlier;
  }

  lemma {:induction false} BlankRowsSkipped(rows: map<int, LabelRow>, order: seq<int>)
    requires forall i :: 0 <= i < |order| ==> order[i] in rows
    ensures var shown := Ordering.Filter(order, e => Shown(rows, e));
            && (forall i :: 0 <= i < |shown| ==> shown[i] in rows)
            && BuildFrom(rows, shown) == BuildFrom(rows, order)
  {
    hide FullName;
    var keep := e => Shown(rows, e);
    if order == [] {
      assert Ordering.Filter(order, keep) == [];
    } else {
      var n := |order| - 1;
      var earlier := Ordering.Filter(order[..n], keep);
      BlankRowsSkipped(rows, order[..n]);
      Ordering.FilterLast(order, keep);
      Ordering.LastApart(order);
      NextLabel(rows, order[..n], order[n]);
      if keep(order[n]) {
        NextLabel(rows, earlier, order[n]);
      } else {
        assert earlier + [] == earlier;
      }
    }
  }

  /** The position of an extension in the query, ties excluded. */
  function Before(rows: map<int, LabelRow>): (int, int) -> bool {
    (a: int, b: int) => a != b && ByNumber(rows)(a, b)
  }

  lemma {:induction false} ListingAscends(rows: map<int, LabelRow>)
    ensures Ordering.SortedBy(Listing(rows), Before(rows))
    ensures Ordering.Asymmetric(Before(rows))
  {
    ByNumberIsTotalOrder(rows);
    Ordering.AscendingIsStrict(rows.Keys, ByNumber(rows));
    hide FullName, ByNumber;
    assert Ordering.SortedBy(Order(rows), Before(rows));
    Ordering.FilterSorted(Order(rows), e => Shown(rows, e), Before(rows));
  }

  /** Two row tables that label the same extensions alike. */
  ghost predicate SameLabels(rows: map<int, LabelRow>, rows': map<int, LabelRow>) {
    && (forall e :: Shown(rows, e) <==> Shown(rows', e))
    && (forall e :: Shown(rows, e) ==>
          && rows[e].number == rows'[e].number
          && rows[e].sipUsername == rows'[e].sipUsername
          && FullName(rows[e]) == FullName(rows'[e]))
  }

  lemma {:induction false} SameListing(rows: map<int, LabelRow>, rows': map<int, LabelRow>)
    requires SameLabels(rows, rows')
    ensures Listing(rows) == Listing(rows')
  {
    hide FullName, ByNumber, Listing, Shown, SameLabels;
    ListingAscends(rows);
    ListingAscends(rows');
    var a, b := Listing(rows), Listing(rows');
    forall e
      ensures e in a <==> e in b
    {
      LabelledBoth(rows, rows', e);
    }
    forall i, j | 0 <= i < j < |b|
      ensures Before(rows)(b[i], b[j])
    {
      assert b[i] in b && b[j] in b;
      SamePosition(rows, rows', b[i], b[j]);
    }
    assert Ordering.Within(a, b) by {
      assert forall i :: 0 <= i < |a| ==> a[i] in a;
    }
    assert Ordering.Within(b, a) by {
      assert forall i :: 0 <= i < |b| ==> b[i] in b;
    }
    Ordering.ListingUnique(a, b, Before(rows));
  }

  lemma {:induction false} LabelledBoth(rows: map<int, LabelRow>, rows': map<int, LabelRow>, e: int)
    requires SameLabels(rows, rows')
    ensures Shown(rows, e) <==> Shown(rows', e)
  {
  }

  lemma {:induction false} SamePosition(rows: map<int, LabelRow>, rows': map<int, LabelRow>, x: int, y: int)
    requires SameLabels(rows, rows') && Shown(rows', x) && Shown(rows', y)
    ensures Before(rows)(x, y) <==> Before(rows')(x, y)
  {
    hide FullName;
    assert Shown(rows, x) && Shown(rows, y);
    assert NumberOf(rows, x) == NumberOf(rows', x) && NumberOf(rows, y) == NumberOf(rows', y);
    assert ByNumber(rows)(x, y) <==> ByNumber(rows')(x, y);
  }

  lemma {:induction false} SameBuild(rows: map<int, LabelRow>, rows': map<int, LabelRow>, order: seq<int>)
    requires SameLabels(rows, rows')
    requires forall i :: 0 <= i < |order| ==> Shown(rows, order[i])
    ensures BuildFrom(rows, order) == BuildFrom(rows', order)
  {
    hide FullName;
    if order == [] {
      assert BuildFrom(rows, order) == map[];
    } else {
      SameBuild(rows, rows', order[..|order| - 1]);
    }
  }

  lemma {:induction false} SameLabelsSameMap(d: A.Directory, d': A.Directory, tenant: int)
    requires SameLabels(Rows(d, tenant), Rows(d', tenant))
    ensures Build(d, tenant) == Build(d', tenant)
  {
    hide FullName, Rows, Order, Listing, Shown, SameLabels;
    var rows, rows' := Rows(d, tenant), Rows(d', tenant);
    ListingBuilds(rows);
    ListingBuilds(rows');
    SameListing(rows, rows');
    assert forall i :: 0 <= i < |Listing(rows)| ==> Listing(rows)[i] in Listing(rows);
    SameBuild(rows, rows', Listing(rows));
  }

  lemma {:induction false} ListingBuilds(rows: map<int, LabelRow>)
    ensures BuildFrom(rows, Listing(rows)) == BuildFrom(rows, Order(rows))
  {
    BlankRowsSkipped(rows, Order(rows));
  }

  lemma {:induction false} ShownIsNamed(d: A.Directory, tenant: int, e: int)
    ensures var rows := Rows(d, tenant);
            && (Shown(rows, e) <==> A.InTenant(d.extensions, tenant, e) && NameOn(d, e) != "")
            && (Shown(rows, e) ==>
                  && e in rows
                  && rows[e].number == d.extensions[e].number && rows[e].sipUsername == d.extensions[e].sipUsername
                  && FullName(rows[e]) == NameOn(d, e))
  {
    hide Text.Strip;
  }

  lemma {:induction false} SameNamesSameMap(d: A.Directory, d': A.Directory, tenant: int)
    requires SameExtensions(d, d', tenant) && SameNames(d, d', tenant)
    ensures Build(d, tenant) == Build(d', tenant)
  {
    hide Build, Rows, NameOn, Shown, FullName;
    var rows, rows' := Rows(d, tenant), Rows(d', tenant);
    forall e
      ensures Shown(rows, e) <==> Shown(rows', e)
      ensures Shown(rows, e) ==>
                && e in rows && e in rows'
                && rows[e].number == rows'[e].number
                && rows[e].sipUsername == rows'[e].sipUsername
                && FullName(rows[e]) == FullName(rows'[e])
    {
      ShownIsNamed(d, tenant, e);
      ShownIsNamed(d', tenant, e);
    }
    SameLabelsSameMap(d, d', tenant);
  }

  /** Under its own number an extension has its own label, exactly when it shows a name. */
  lemma {:induction false} OwnLabel(d: A.Directory, tenant: int, e: int)
    requires NumbersApart(d.extensions, tenant) && A.InTenant(d.extensions, tenant, e)
    ensures var number := d.extensions[e].number;
            && (number in Build(d, tenant) <==> NameOn(d, e) != "")
            && (NameOn(d, e) != "" ==> Build(d, tenant)[number] == NameOn(d, e) + " (" + number + ")")
  {
    hide Build, NameOn, FullName;
    var number := d.extensions[e].number;
    ShownIsNamed(d, tenant, e);
    if NameOn(d, e) != "" {
      NamedIsLabelled(d, tenant, e);
    }
    if number in Build(d, tenant) {
      BuildSays(d, tenant, number);
      var f :| f in Rows(d, tenant) && FullName(Rows(d, tenant)[f]) != ""
               && (Rows(d, tenant)[f].number == number || Rows(d, tenant)[f].sipUsername == number)
               && Build(d, tenant)[number] == FullName(Rows(d, tenant)[f]) + " (" + Rows(d, tenant)[f].number + ")";
      assert f == e;
    }
  }

  lemma {:induction false} SuffixCancels(a: string, b: string, suffix: string)
    requires a + suffix == b + suffix
    ensures a == b
  {
    assert |a + suffix| == |b + suffix|;
    assert (a + suffix)[..|a|] == a && (b + suffix)[..|b|] == b;
  }

  lemma {:induction false} SameMapSameName(d: A.Directory, d': A.Directory, tenant: int, e: int)
    requires SameExtensions(d, d', tenant) && NumbersApart(d.extensions, tenant)
    requires A.InTenant(d.extensions, tenant, e) && Build(d, tenant) == Build(d', tenant)
    ensures NameOn(d, e) == NameOn(d', e)
  {
    hide Build, NameOn;
    OwnLabel(d, tenant, e);
    OwnLabel(d', tenant, e);
    if NameOn(d, e) != "" {
      var suffix := " (" + d.extensions[e].number + ")";
      assert NameOn(d, e) + " (" + d.extensions[e].number + ")" == NameOn(d, e) + suffix;
      assert NameOn(d', e) + " (" + d.extensions[e].number + ")" == NameOn(d', e) + suffix;
      SuffixCancels(NameOn(d, e), NameOn(d', e), suffix);
    }
  }

  /** Two states of the tables with the same extensions have the same map exactly when every one shows the same name. */
  lemma {:induction false} SameMapIff(d: A.Directory, d': A.Directory, tenant: int)
    requires SameExtensions(d, d', tenant) && NumbersApart(d.extensions, tenant)
    ensures Build(d, tenant) == Build(d', tenant) <==> SameNames(d, d', tenant)
  {
    hide Build, NameOn, NumbersApart;
    if SameNames(d, d', tenant) {
      SameNamesSameMap(d, d', tenant);
    }
    if Build(d, tenant) == Build(d', tenant) {
      forall e | A.InTenant(d.extensions, tenant, e)
        ensures NameOn(d, e) == NameOn(d', e)
      {
        SameMapSameName(d, d', tenant, e);
      }
    }
  }

  /** A step that fires no signal for the tenant leaves its extensions, numbers and SIP names alone. */
  lemma {:induction false} QuietStepKeepsExtensions(s: State, step: Step, tenant: int)
    requires Possible(s, step) && tenant !in Busted(s, step)
    ensures SameExtensions(s.tables, Apply(s, step).tables, tenant)
  {
  }

  lemma {:induction false} QuietKeepsExtensions(states: seq<State>, steps: seq<Step>, tenant: int, j: nat, k: nat)
    requires IsRun(states, steps) && j <= k < |states| && QuietSince(states, steps, tenant, j, k)
    ensures SameExtensions(states[j].tables, states[k].tables, tenant)
    decreases k
  {
    hide Apply, Busted, Possible;
    if j < k {
      QuietKeepsExtensions(states, steps, tenant, j, k - 1);
      var step := steps[k - 1];
      QuietStepKeepsExtensions(states[k - 1], step, tenant);
    }
  }

  /**
   In every run, silent steps or not: a map built at moment j and served at k is current exactly
   when every extension of the tenant still shows the name it showed when the map was built.
  */
  lemma {:induction false} CurrentIff(states: seq<State>, steps: seq<Step>, k: nat, j: nat)
    requires IsRun(states, steps) && k < |steps| && steps[k].Serve? && BuiltAt(states, steps, k, j)
    requires NumbersApart(states[k].tables.extensions, steps[k].tenant)
    ensures SameExtensions(states[k].tables, states[j].tables, steps[k].tenant)
    ensures Served(states[k], steps[k].tenant, steps[k].readable) == Build(states[k].tables, steps[k].tenant)
            <==> SameNames(states[k].tables, states[j].tables, steps[k].tenant)
  {
    hide Build, NameOn, NumbersApart, Served;
    QuietKeepsExtensions(states, steps, steps[k].tenant, j, k);
    SameMapIff(states[k].tables, states[j].tables, steps[k].tenant);
  }

  /** What can be seen before a silent step: it changes the name some extension of the tenant shows. */
  predicate Touches(s: State, step: Step, tenant: int) {
    match step
    case ClearUser(user) => ShowsName(s.tables, user, tenant)
    case DeleteUser(user) => ShowsName(s.tables, user, tenant)
    case SetUser(id, user) =>
      A.InTenant(s.tables.extensions, tenant, id) &&
      NameOn(s.tables, id) != (if user in s.tables.users then NameOf(s.tables.users[user]) else "")
    case _ => false
  }

  /** The user has a name and holds an extension of the tenant. */
  predicate ShowsName(d: A.Directory, user: int, tenant: int) {
    && user in d.users && NameOf(d.users[user]) != ""
    && exists e :: e in d.extensions && A.InTenant(d.extensions, tenant, e) && d.extensions[e].user == Some(user)
  }

  lemma {:induction false} SilentStepChangesNamesIff(s: State, step: Step, tenant: int)
    requires Silent(step) && Possible(s, step)
    ensures SameExtensions(s.tables, Apply(s, step).tables, tenant)
    ensures SameNames(s.tables, Apply(s, step).tables, tenant) <==> !Touches(s, step, tenant)
  {
    hide NameOf;
    var after := Apply(s, step).tables;
    QuietStepKeepsExtensions(s, step, tenant);
    if step.SetUser? {
      assert A.InTenant(s.tables.extensions, tenant, step.id) ==>
        NameOn(after, step.id) == if step.user in s.tables.users then NameOf(s.tables.users[step.user]) else "";
    } else if e :| A.InTenant(s.tables.extensions, tenant, e) && s.tables.extensions[e].user == Some(step.user) {
      assert NameOn(after, e) == "";
    }
  }

  /** A silent step leaves a current cache entry stale exactly when it touches the tenant. */
  lemma {:induction false} SilentStepStaleIff(s: State, step: Step, tenant: int)
    requires Silent(step) && Possible(s, step) && NumbersApart(s.tables.extensions, tenant)
    requires tenant in s.cache && s.cache[tenant] == Build(s.tables, tenant)
    ensures Served(Apply(s, step), tenant, true) == Build(Apply(s, step).tables, tenant) <==> !Touches(s, step, tenant)
  {
    hide Build, Touches, NumbersApart;
    SilentStepChangesNamesIff(s, step, tenant);
    SameMapIff(s.tables, Apply(s, step).tables, tenant);
  }

  /** In particular, unassigning a named user's extension by `update()` leaves the old label in the cache. */
  lemma {:induction false} SilentStepGoesStale(s: State, tenant: int, user: int)
    requires NumbersApart(s.tables.extensions, tenant) && ShowsName(s.tables, user, tenant)
    requires tenant in s.cache ==> s.cache[tenant] == Build(s.tables, tenant)
    ensures var cleared := Apply(Apply(s, Serve(tenant, true, true)), ClearUser(user));
            Served(cleared, tenant, true) != Build(cleared.tables, tenant)
  {
    hide Build, NumbersApart, ShowsName;
    SilentStepStaleIff(Apply(s, Serve(tenant, true, true)), ClearUser(user), tenant);
  }
}
