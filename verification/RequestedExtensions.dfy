/**
 apps/common/cdr_views.py: `_apply_user_extension_scoping` and `_resolve_requested_extensions`.

 Which extensions a report covers: what the caller asked for, cut down to what the caller may see.
 The caller's scope travels as a comma-joined parameter and is split again on the other side.
*/
module RequestedExtensions {
  import opened Wrappers
  import opened Ordering
  import Text

  /** `teamLead` is the answer of `resolve_tl_extensions`; a missing extension is "". */
  datatype Caller = Caller(superuser: bool, role: string, extensionNumber: string, teamLead: Option<set<string>>)

  /** A missing parameter is "", which the code treats alike. */
  datatype Params = Params(extension: string, extensionIn: string, extensionIds: string)

  datatype Scope = Everything | Own(number: string) | Among(joined: string)

  /** `sorted(...)` on strings */
  function Sorted(s: set<string>): (r: seq<string>)
    ensures |r| == |s|
    ensures forall x :: x in r <==> x in s
  {
    Text.LeIsTotalOrder();
    AscendingMembers(s, Text.Le);
    Ascending(s, Text.Le)
  }

  /** `_apply_user_extension_scoping` */
  function ApplyScoping(caller: Caller): Scope {
    if caller.superuser then Everything
    else if caller.role == "user" then
      if caller.extensionNumber != "" then Own(caller.extensionNumber) else Everything
    else if caller.teamLead.None? then Everything
    else Among(Text.Join(Sorted(caller.teamLead.value), ','))
  }

  function Requested(params: Params): Option<seq<string>> {
    var raw := if params.extensionIn != "" then params.extensionIn else params.extensionIds;
    if raw != "" then Some(Text.CommaList(raw))
    else if params.extension != "" then Some(Text.CommaList(params.extension))
    else None
  }

  function Allowed(scope: Scope): Option<set<string>> {
    match scope
    case Everything => None
    case Own(number) => Some({number})
    case Among(joined) => Some(Members(Text.Split(joined, ',')))
  }

  function Effective(caller: Caller, params: Params): Option<seq<string>> {
    var requested, allowed := Requested(params), Allowed(ApplyScoping(caller));
    if requested.None? then
      if allowed.None? then None else Some(Sorted(allowed.value))
    else
      var kept := if allowed.None? then requested.value else Filter(requested.value, e => e in allowed.value);
      Some(Deduped(kept))
  }

  method Dedup(s: seq<string>) returns (r: seq<string>)
    ensures r == Deduped(s)
  {
    r := [];
    var seen := {};
    for i := 0 to |s|
      invariant r == Deduped(s[..i]) && seen == Members(r)
    {
      assert s[..i + 1][..i] == s[..i];
      if s[i] !in seen {
        seen := seen + {s[i]};
        r := r + [s[i]];
      }
    }
    assert s[..|s|] == s;
  }

  /** `_resolve_requested_extensions` */
  method Resolve(caller: Caller, params: Params) returns (r: Option<seq<string>>)
    ensures r == Effective(caller, params)
  {
    var scope := ApplyScoping(caller);
    var requested := Requested(params);
    var allowed := Allowed(scope);
    if requested.None? {
      if allowed.None? {
        return None;
      }
      return Some(Sorted(allowed.value));
    }
    var result := requested.value;
    if allowed.Some? {
      result := Filter(requested.value, e => e in allowed.value);
    }
    var deduped := Dedup(result);
    r := Some(deduped);
  }

  // ---------------------------------------------------------------------------
  // The scope survives joining and splitting
  // ---------------------------------------------------------------------------

  ghost predicate CommaFree(s: set<string>) {
    forall x :: x in s ==> ',' !in x
  }

  /** What comes out of the joined parameter. */
  function Recovered(s: set<string>): set<string> {
    Members(Text.Split(Text.Join(Sorted(s), ','), ','))
  }

  /** Joining and splitting gives the set back exactly when it has members and no commas. */
  lemma {:induction false} RecoveredIff(s: set<string>)
    ensures Recovered(s) == s <==> s != {} && CommaFree(s)
  {
    var joined := Text.Join(Sorted(s), ',');
    if s == {} {
      assert Text.Split("", ',') == [""];
      assert "" in Members([""]);
    } else if CommaFree(s) {
      Text.SplitJoin(Sorted(s), ',');
      assert Members(Sorted(s)) == s;
    } else {
      var x :| x in s && ',' in x;
      assert x !in Text.Split(joined, ',');
    }
  }

  /** An empty scope turns into the single empty name. */
  lemma {:induction false} EmptyScope()
    ensures Recovered({}) == {""}
  {
  }

  // ---------------------------------------------------------------------------
  // What a report covers
  // ---------------------------------------------------------------------------

  /** What the caller may see: None is everything. */
  function Granted(caller: Caller): Option<set<string>> {
    if caller.superuser then None
    else if caller.role == "user" then
      if caller.extensionNumber != "" then Some({caller.extensionNumber}) else None
    else caller.teamLead
  }

  /** The scope is one the parameter can carry. */
  ghost predicate Carried(caller: Caller) {
    caller.superuser || caller.role == "user" || caller.teamLead.None? ||
    (caller.teamLead.value != {} && CommaFree(caller.teamLead.value))
  }

  /** The allowed set is the granted one exactly for the scopes the parameter can carry. */
  lemma {:induction false} AllowedIsGranted(caller: Caller)
    ensures Allowed(ApplyScoping(caller)).Some? <==> Granted(caller).Some?
    ensures Allowed(ApplyScoping(caller)) == Granted(caller) <==> Carried(caller)
  {
    if !caller.superuser && caller.role != "user" && caller.teamLead.Some? {
      RecoveredIff(caller.teamLead.value);
    }
  }

  /** Only a caller without a scope who names nothing gets the unfiltered report. */
  lemma {:induction false} UnfilteredIff(caller: Caller, params: Params)
    ensures Effective(caller, params).None? <==>
            Granted(caller).None? && params.extension == "" && params.extensionIn == "" && params.extensionIds == ""
  {
  }

  /** Naming nothing covers the whole scope, sorted. */
  lemma {:induction false} NothingNamed(caller: Caller, params: Params)
    requires Carried(caller) && Granted(caller).Some? && Requested(params).None?
    ensures Effective(caller, params) == Some(Sorted(Granted(caller).value))
  {
    AllowedIsGranted(caller);
  }

  ghost predicate Covers(caller: Caller, e: string) {
    Granted(caller).Some? ==> e in Granted(caller).value
  }

  /** Naming extensions covers exactly the named ones in scope, each once. */
  lemma {:induction false} NamedExactly(caller: Caller, params: Params)
    requires Carried(caller) && Requested(params).Some?
    ensures Effective(caller, params).Some?
    ensures var r := Effective(caller, params).value;
            && (forall e :: e in r <==> e in Requested(params).value && Covers(caller, e))
            && (forall i, j :: 0 <= i < j < |r| ==> r[i] != r[j])
  {
    AllowedIsGranted(caller);
    var requested, allowed := Requested(params).value, Allowed(ApplyScoping(caller));
    DedupedMembers(if allowed.None? then requested else Filter(requested, e => e in allowed.value));
  }

  lemma {:induction false} FilterPrefix(s: seq<string>, keep: string -> bool, b: nat)
    requires b < |s| && keep(s[b])
    ensures |Filter(s[..b], keep)| < |Filter(s, keep)|
    ensures Filter(s, keep)[|Filter(s[..b], keep)|] == s[b]
    ensures Filter(s, keep)[..|Filter(s[..b], keep)|] == Filter(s[..b], keep)
  {
    assert s == s[..b] + ([s[b]] + s[b + 1..]);
    FilterConcat(s[..b], [s[b]] + s[b + 1..], keep);
    FilterCons(s[b], s[b + 1..], keep);
  }

  /** The order is that of the request: an earlier entry is named before a later one. */
  lemma {:induction false} RequestOrder(caller: Caller, params: Params, i: nat, j: nat, b: nat)
    requires Requested(params).Some? && i < j < |Effective(caller, params).value|
    requires b < |Requested(params).value| && Requested(params).value[b] == Effective(caller, params).value[j]
    ensures Effective(caller, params).value[i] in Requested(params).value[..b]
  {
    var requested, allowed := Requested(params).value, Allowed(ApplyScoping(caller));
    var r := Effective(caller, params).value;
    if allowed.None? {
      DedupedOrder(requested, i, j, b);
    } else {
      var keep := e => e in allowed.value;
      var kept := Filter(requested, keep);
      DedupedMembers(kept);
      assert r[j] in r && keep(r[j]);
      FilterPrefix(requested, keep, b);
      DedupedOrder(kept, i, j, |Filter(requested[..b], keep)|);
    }
  }

  // ---------------------------------------------------------------------------
  // The three parameters
  // ---------------------------------------------------------------------------

  /** One parameter decides, and which one it came in does not matter: extension__in, extension_ids, extension. */
  lemma {:induction false} OneParameterDecides(caller: Caller, params: Params)
    ensures var decisive := if params.extensionIn != "" then params.extensionIn
                            else if params.extensionIds != "" then params.extensionIds
                            else params.extension;
            && Effective(caller, params) == Effective(caller, Params(decisive, "", ""))
            && Effective(caller, params) == Effective(caller, Params("", decisive, ""))
            && Effective(caller, params) == Effective(caller, Params("", "", decisive))
  {
    hide Sorted, Deduped, Filter, Allowed, ApplyScoping, Text.CommaList;
  }

  /**
   A parameter that lists names between commas gives, each once, the names among them that the caller's
   scope holds, without surrounding blanks and without empty ones.
  */
  lemma {:induction false} ListedNames(caller: Caller, pieces: seq<string>, e: string)
    requires Carried(caller) && pieces != [] && (forall p :: p in pieces ==> ',' !in p)
    requires Text.Join(pieces, ',') != ""
    ensures Effective(caller, Params(Text.Join(pieces, ','), "", "")).Some?
    ensures e in Effective(caller, Params(Text.Join(pieces, ','), "", "")).value <==>
            && e != "" && (exists i :: 0 <= i < |pieces| && Text.Strip(pieces[i]) == e)
            && Covers(caller, e)
  {
    var joined := Text.Join(pieces, ',');
    assert Requested(Params(joined, "", "")) == Some(Text.CommaList(joined));
    Text.CommaListIs(pieces);
    hide Text.Strip, Text.Join, Covers, Effective, Requested, Carried;
    NamedExactly(caller, Params(joined, "", ""));
  }

  /** Naming nothing lists every extension of the scope once, in dictionary order. */
  lemma {:induction false} ScopeListed(caller: Caller)
    requires Carried(caller) && Granted(caller).Some?
    ensures Effective(caller, Params("", "", "")).Some?
    ensures var r := Effective(caller, Params("", "", "")).value;
            && (forall e :: e in r <==> e in Granted(caller).value)
            && (forall i, j :: 0 <= i < j < |r| ==> Text.Le(r[i], r[j]) && r[i] != r[j])
  {
    AllowedIsGranted(caller);
    Text.LeIsTotalOrder();
    AscendingMembers(Granted(caller).value, Text.Le);
    AscendingIsStrict(Granted(caller).value, Text.Le);
    hide Ascending, Text.Le;
  }
}
