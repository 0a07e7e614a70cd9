/**
 apps/common/cdr_views.py: what the extension label map says, read off the users and extensions it is
 built from.
*/
module LabelTexts {
  import opened Wrappers
  import opened Tables
  import opened LabelCache
  import A = Assignments
  import Ordering
  import Text

  // ---------------------------------------------------------------------------
  // Names
  // ---------------------------------------------------------------------------

  ghost predicate Solid(s: string) {
    s != "" && s[0] !in Text.BLANKS && s[|s| - 1] !in Text.BLANKS
  }

  /** First and last name with a blank between them; a missing one leaves the other; blanks around are dropped. */
  lemma {:induction false} NameShown(u: User, left: string, first: string, last: string, right: string)
    requires Text.Blank(left) && Text.Blank(right)
    ensures Solid(first) && Solid(last) && u.firstName == left + first && u.lastName == last + right ==>
              NameOf(u) == first + " " + last
    ensures Solid(first) && u.firstName == left + first + right && u.lastName == "" ==> NameOf(u) == first
    ensures Solid(last) && u.firstName == "" && u.lastName == left + last + right ==> NameOf(u) == last
    ensures u.firstName == left && u.lastName == right ==> NameOf(u) == ""
  {
    if Solid(first) && Solid(last) && u.firstName == left + first && u.lastName == last + right {
      var core := first + " " + last;
      assert core[0] == first[0] && core[|core| - 1] == last[|last| - 1];
      assert u.firstName + " " + u.lastName == left + core + right;
      Text.StripIs(left, core, right);
    }
    if Solid(first) && u.firstName == left + first + right && u.lastName == "" {
      assert u.firstName + " " + u.lastName == left + first + (right + " ");
      Text.StripIs(left, first, right + " ");
    }
    if Solid(last) && u.firstName == "" && u.lastName == left + last + right {
      assert u.firstName + " " + u.lastName == (" " + left) + last + right;
      Text.StripIs(" " + left, last, right);
    }
    if u.firstName == left && u.lastName == right {
      assert u.firstName + " " + u.lastName == left + "" + (" " + right);
      Text.StripIs(left, "", " " + right);
    }
  }

  // ---------------------------------------------------------------------------
  // Labels
  // ---------------------------------------------------------------------------

  /** An extension of the tenant whose user has a name, with this number or SIP name. */
  ghost predicate Claims(d: A.Directory, tenant: int, e: int, key: string) {
    && e in d.extensions && d.extensions[e].tenant == tenant
    && d.extensions[e].user.Some? && d.extensions[e].user.value in d.users
    && NameOf(d.users[d.extensions[e].user.value]) != ""
    && (d.extensions[e].number == key || d.extensions[e].sipUsername == key)
  }

  ghost predicate RowClaims(rows: map<int, LabelRow>, e: int, key: string) {
    e in rows && FullName(rows[e]) != "" && (rows[e].number == key || rows[e].sipUsername == key)
  }

  /** The last row of the order that claims a key labels it. */
  lemma {:induction false} LastClaimWins(rows: map<int, LabelRow>, order: seq<int>, key: string, i: nat)
    requires forall j :: 0 <= j < |order| ==> order[j] in rows
    requires i < |order| && RowClaims(rows, order[i], key)
    requires forall j :: i < j < |order| ==> !RowClaims(rows, order[j], key)
    ensures key in BuildFrom(rows, order)
    ensures BuildFrom(rows, order)[key] == FullName(rows[order[i]]) + " (" + rows[order[i]].number + ")"
  {
    hide FullName;
    var n := |order| - 1;
    if i < n {
      var prefix := order[..n];
      assert forall j :: 0 <= j < n ==> prefix[j] == order[j];
      LastClaimWins(rows, prefix, key, i);
      assert !RowClaims(rows, order[n], key);
    }
  }

  lemma {:induction false} NoClaimNoLabel(rows: map<int, LabelRow>, order: seq<int>, key: string)
    requires forall j :: 0 <= j < |order| ==> order[j] in rows && !RowClaims(rows, order[j], key)
    ensures key !in BuildFrom(rows, order)
  {
    hide FullName;
    if order == [] {
    } else {
      NoClaimNoLabel(rows, order[..|order| - 1], key);
    }
  }

  lemma {:induction false} ClaimsAreRows(d: A.Directory, tenant: int, e: int, key: string)
    ensures Claims(d, tenant, e, key) <==> RowClaims(Rows(d, tenant), e, key)
    ensures Claims(d, tenant, e, key) ==>
              && Rows(d, tenant)[e].number == d.extensions[e].number
              && FullName(Rows(d, tenant)[e]) == NameOf(d.users[d.extensions[e].user.value])
  {
    hide Text.Strip;
  }

  lemma {:induction false} LastClaim(rows: map<int, LabelRow>, order: seq<int>, key: string) returns (i: nat)
    requires exists j :: 0 <= j < |order| && RowClaims(rows, order[j], key)
    ensures i < |order| && RowClaims(rows, order[i], key)
    ensures forall j :: i < j < |order| ==> !RowClaims(rows, order[j], key)
  {
    hide RowClaims;
    var n := |order| - 1;
    if RowClaims(rows, order[n], key) {
      i := n;
    } else {
      var j :| 0 <= j < |order| && RowClaims(rows, order[j], key);
      assert order[..n][j] == order[j];
      i := LastClaim(rows, order[..n], key);
    }
  }

  /**
   The map labels a key if and only if an extension claims it, with the name of its user and its number;
   of several that claim it the one with the greatest number, in dictionary order, does.
  */
  lemma {:induction false} LabelSays(d: A.Directory, tenant: int, key: string)
    ensures key in Build(d, tenant) <==> exists e :: Claims(d, tenant, e, key)
    ensures key in Build(d, tenant) ==>
              exists e :: && Claims(d, tenant, e, key)
                          && Build(d, tenant)[key] ==
                             NameOf(d.users[d.extensions[e].user.value]) + " (" + d.extensions[e].number + ")"
                          && forall f :: Claims(d, tenant, f, key) ==>
                               Text.Le(d.extensions[f].number, d.extensions[e].number)
  {
    var rows, order := Rows(d, tenant), Order(Rows(d, tenant));
    forall e
      ensures Claims(d, tenant, e, key) <==> RowClaims(rows, e, key)
      ensures Claims(d, tenant, e, key) ==>
                && rows[e].number == d.extensions[e].number
                && FullName(rows[e]) == NameOf(d.users[d.extensions[e].user.value])
    {
      ClaimsAreRows(d, tenant, e, key);
    }
    if exists e :: Claims(d, tenant, e, key) {
      var c :| Claims(d, tenant, c, key);
      assert c in order;
      var i := LastClaim(rows, order, key);
      LastClaimWins(rows, order, key, i);
      var e := order[i];
      forall f | Claims(d, tenant, f, key)
        ensures Text.Le(d.extensions[f].number, d.extensions[e].number)
      {
        assert f in order;
        var j :| 0 <= j < |order| && order[j] == f;
        OrderByNumber(rows, j, i);
      }
    } else {
      NoClaimNoLabel(rows, order, key);
    }
  }

  lemma {:induction false} OrderByNumber(rows: map<int, LabelRow>, j: nat, i: nat)
    requires j <= i < |Order(rows)|
    ensures Text.Le(rows[Order(rows)[j]].number, rows[Order(rows)[i]].number)
  {
    ByNumberIsTotalOrder(rows);
    Ordering.AscendingIsStrict(rows.Keys, ByNumber(rows));
    var order := Order(rows);
    assert order == Ordering.Ascending(rows.Keys, ByNumber(rows));
    hide Ordering.Ascending, Order, Text.Le;
    Text.LeTotal(rows[order[j]].number, rows[order[i]].number);
    if j < i {
      assert ByNumber(rows)(order[j], order[i]);
    }
  }
}
