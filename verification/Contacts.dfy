/**
 apps/contacts/services.py: matching phone numbers against saved contacts through an index of
 formatting-tolerant keys.
*/
module Contacts {
  import opened Wrappers
  import Ordering
  import Text

  /** A row of ContactNumber of the tenant, in query order. */
  datatype Stored = Stored(number: string, contact: int)

  /** `_match_key`: the last ten digits. */
  function MatchKey(number: string): string {
    var digits := Text.DigitsOf(number);
    if |digits| >= 10 then digits[|digits| - 10..] else digits
  }

  /** What one stored number after another says about a number: the first match counts. */
  function FirstMatch(stored: seq<Stored>, number: string): Option<int> {
    if stored == [] || MatchKey(number) == "" then None
    else
      var n := |stored| - 1;
      var earlier := FirstMatch(stored[..n], number);
      if earlier.Some? then earlier
      else if MatchKey(stored[n].number) == MatchKey(number) then Some(stored[n].contact)
      else None
  }

  function Keyed(numbers: set<string>, key: string): set<string> {
    set n | n in numbers && MatchKey(n) == key
  }

  ghost predicate Index(keys: map<string, set<string>>, numbers: set<string>) {
    && (forall key :: key in keys <==> key != "" && Keyed(numbers, key) != {})
    && (forall key :: key in keys ==> keys[key] == Keyed(numbers, key))
  }

  /** The numbers under their match keys. */
  method BuildKeys(numbers: seq<string>) returns (keys: map<string, set<string>>)
    ensures Index(keys, Ordering.Members(numbers))
  {
    hide MatchKey;
    keys := map[];
    ghost var done: set<string> := {};
    for i := 0 to |numbers|
      invariant done == Ordering.Members(numbers[..i])
      invariant Index(keys, done)
    {
      var number := numbers[i];
      var key := MatchKey(number);
      KeyedNext(done, number);
      assert numbers[..i + 1] == numbers[..i] + [number];
      if key != "" {
        keys := keys[key := (if key in keys then keys[key] else {}) + {number}];
      }
      done := done + {number};
    }
    assert numbers[..|numbers|] == numbers;
  }

  lemma {:induction false} KeyedNext(numbers: set<string>, number: string)
    ensures forall key ::
            Keyed(numbers + {number}, key) == Keyed(numbers, key) + (if MatchKey(number) == key then {number} else {})
  {
  }

  ghost predicate Looks(lookup: map<string, int>, numbers: set<string>, stored: seq<Stored>) {
    && (forall n :: n in lookup <==> n in numbers && FirstMatch(stored, n).Some?)
    && (forall n :: n in lookup ==> Some(lookup[n]) == FirstMatch(stored, n))
  }

  /** `result.setdefault(raw, contact)` for every number of one key */
  function SetDefaults(lookup: map<string, int>, numbers: set<string>, contact: int): map<string, int> {
    map n | n in lookup.Keys + numbers :: if n in lookup then lookup[n] else contact
  }

  /** `build_contact_lookup` */
  method BuildLookup(numbers: seq<string>, stored: seq<Stored>) returns (lookup: map<string, int>)
    ensures Looks(lookup, Ordering.Members(numbers), stored)
  {
    hide MatchKey;
    var keys := BuildKeys(numbers);
    lookup := map[];
    ghost var all := Ordering.Members(numbers);
    for i := 0 to |stored|
      invariant Looks(lookup, all, stored[..i])
    {
      var row := stored[i];
      var key := MatchKey(row.number);
      assert stored[..i + 1] == stored[..i] + [row];
      FirstMatchNext(stored[..i], row);
      if key in keys {
        lookup := SetDefaults(lookup, keys[key], row.contact);
      } else {
        NoneKeyed(keys, all, key);
      }
    }
    assert stored[..|stored|] == stored;
  }

  lemma {:induction false} NoneKeyed(keys: map<string, set<string>>, numbers: set<string>, key: string)
    requires Index(keys, numbers) && key !in keys
    ensures forall n :: n in numbers && MatchKey(n) == key ==> key == ""
  {
    hide MatchKey;
    forall n | n in numbers && MatchKey(n) == key
      ensures key == ""
    {
      assert n in Keyed(numbers, key);
    }
  }

  lemma {:induction false} FirstMatchNext(stored: seq<Stored>, row: Stored)
    ensures forall n :: FirstMatch(stored + [row], n) ==
              if FirstMatch(stored, n).Some? then FirstMatch(stored, n)
              else if MatchKey(n) != "" && MatchKey(row.number) == MatchKey(n) then Some(row.contact)
              else None
  {
  }

  // ---------------------------------------------------------------------------
  // Records
  // ---------------------------------------------------------------------------

  /** The counterparty number of a record, and the two flags the annotation writes. */
  datatype Record = Record(number: Option<string>, saved: bool, contact: Option<int>)

  function Flagged(r: Record, stored: seq<Stored>): Record {
    var found := if r.number.Some? then FirstMatch(stored, r.number.value) else None;
    r.(saved := found.Some?, contact := found)
  }

  function NumbersOf(records: seq<Record>): seq<string> {
    if records == [] then []
    else
      var last := records[|records| - 1];
      NumbersOf(records[..|records| - 1]) + (if last.number.Some? then [last.number.value] else [])
  }

  lemma {:induction false} NumbersListed(records: seq<Record>, i: nat)
    requires i < |records| && records[i].number.Some?
    ensures records[i].number.value in NumbersOf(records)
  {
    if i < |records| - 1 {
      NumbersListed(records[..|records| - 1], i);
    }
  }

  /** `annotate_contact_flags`: the index answers like a scan of all stored numbers per record. */
  method Annotate(records: array<Record>, stored: seq<Stored>)
    modifies records
    ensures forall i :: 0 <= i < records.Length ==> records[i] == Flagged(old(records[i]), stored)
  {
    hide FirstMatch;
    ghost var before := records[..];
    var lookup := BuildLookup(NumbersOf(records[..]), stored);
    for i := 0 to records.Length
      invariant forall j :: 0 <= j < i ==> records[j] == Flagged(before[j], stored)
      invariant forall j :: i <= j < records.Length ==> records[j] == before[j]
    {
      var r := records[i];
      if r.number.Some? {
        NumbersListed(before, i);
      }
      if r.number.Some? && r.number.value in lookup {
        records[i] := r.(saved := true, contact := Some(lookup[r.number.value]));
      } else {
        records[i] := r.(saved := false, contact := None);
      }
    }
  }

  /** A number is flagged exactly when some stored number has the same non-empty key. */
  lemma {:induction false} MatchIff(stored: seq<Stored>, number: string)
    ensures FirstMatch(stored, number).Some? <==>
            MatchKey(number) != "" && exists i :: 0 <= i < |stored| && MatchKey(stored[i].number) == MatchKey(number)
  {
    hide MatchKey;
    if stored == [] {
    } else {
      var n := |stored| - 1;
      MatchIff(stored[..n], number);
      assert forall i :: 0 <= i < n ==> stored[..n][i] == stored[i];
    }
  }

  /** The contact is that of the first such stored number. */
  lemma {:induction false} MatchIsFirst(stored: seq<Stored>, number: string, i: nat)
    requires i < |stored| && MatchKey(number) != "" && MatchKey(stored[i].number) == MatchKey(number)
    requires forall j :: 0 <= j < i ==> MatchKey(stored[j].number) != MatchKey(number)
    ensures FirstMatch(stored, number) == Some(stored[i].contact)
  {
    hide MatchKey;
    var n := |stored| - 1;
    assert forall j :: 0 <= j < n ==> stored[..n][j] == stored[j];
    if i < n {
      MatchIsFirst(stored[..n], number, i);
    } else {
      MatchIff(stored[..n], number);
    }
  }

  /** Numbers with the same last ten digits are one number to the index. */
  lemma {:induction false} SameKeySameMatch(stored: seq<Stored>, a: string, b: string)
    requires MatchKey(a) == MatchKey(b)
    ensures FirstMatch(stored, a) == FirstMatch(stored, b)
  {
    hide MatchKey;
    if stored == [] {
    } else {
      SameKeySameMatch(stored[..|stored| - 1], a, b);
    }
  }

  // ---------------------------------------------------------------------------
  // Which numbers match, as they are written
  // ---------------------------------------------------------------------------

  /** Formatting does not matter: a character that is no digit may come or go, on either side. */
  lemma {:induction false} FormattingIgnored(stored: seq<Stored>, i: nat, a: string, c: char, b: string)
    requires !('0' <= c <= '9')
    ensures FirstMatch(stored, a + [c] + b) == FirstMatch(stored, a + b)
    ensures i < |stored| && stored[i].number == a + [c] + b ==>
              forall number :: FirstMatch(stored[i := Stored(a + b, stored[i].contact)], number)
                               == FirstMatch(stored, number)
  {
    Text.DigitsAlone(a, c, b);
    SameKeySameMatch(stored, a + [c] + b, a + b);
    if i < |stored| && stored[i].number == a + [c] + b {
      forall number
        ensures FirstMatch(stored[i := Stored(a + b, stored[i].contact)], number) == FirstMatch(stored, number)
      {
        SameKeysSameMatch(stored, stored[i := Stored(a + b, stored[i].contact)], number);
      }
    }
  }

  lemma {:induction false} SameKeysSameMatch(some: seq<Stored>, others: seq<Stored>, number: string)
    requires |some| == |others|
    requires forall j :: 0 <= j < |some| ==>
               MatchKey(some[j].number) == MatchKey(others[j].number) && some[j].contact == others[j].contact
    ensures FirstMatch(some, number) == FirstMatch(others, number)
  {
    hide MatchKey;
    if some == [] {
    } else {
      var n := |some| - 1;
      SameKeysSameMatch(some[..n], others[..n], number);
    }
  }

  /** Two numbers of digits only: the same, or both of ten digits or more with the same last ten. */
  ghost predicate SameNumber(a: string, b: string) {
    a == b || (|a| >= 10 && |b| >= 10 && a[|a| - 10..] == b[|b| - 10..])
  }

  ghost predicate Digits(s: string) {
    forall c :: c in s ==> '0' <= c <= '9'
  }

  lemma {:induction false} KeysOfDigits(a: string, b: string)
    requires Digits(a) && Digits(b)
    ensures MatchKey(a) == MatchKey(b) <==> SameNumber(a, b)
    ensures MatchKey(a) == "" <==> a == ""
  {
    KeyOfDigits(a);
    KeyOfDigits(b);
    hide MatchKey, Digits;
    if |a| >= 10 && |b| < 10 {
      assert |a[|a| - 10..]| == 10;
    } else if |a| < 10 && |b| >= 10 {
      assert |b[|b| - 10..]| == 10;
    }
  }

  lemma {:induction false} KeyOfDigits(a: string)
    requires Digits(a)
    ensures MatchKey(a) == if |a| >= 10 then a[|a| - 10..] else a
  {
    Text.DigitsAreDigits(a);
    hide Text.DigitsOf;
  }

  /** Of numbers written in digits the first stored one that is the same number is found, and nothing else. */
  lemma {:induction false} DigitsMatch(stored: seq<Stored>, number: string, i: nat)
    requires Digits(number) && number != "" && forall j :: 0 <= j < |stored| ==> Digits(stored[j].number)
    ensures (forall j :: 0 <= j < |stored| ==> !SameNumber(stored[j].number, number)) ==>
              FirstMatch(stored, number) == None
    ensures i < |stored| && SameNumber(stored[i].number, number)
            && (forall j :: 0 <= j < i ==> !SameNumber(stored[j].number, number)) ==>
              FirstMatch(stored, number) == Some(stored[i].contact)
  {
    forall j | 0 <= j < |stored|
      ensures MatchKey(stored[j].number) == MatchKey(number) <==> SameNumber(stored[j].number, number)
    {
      KeysOfDigits(stored[j].number, number);
    }
    KeysOfDigits(number, number);
    hide MatchKey, SameNumber, Digits;
    MatchIff(stored, number);
    if i < |stored| && SameNumber(stored[i].number, number)
       && (forall j :: 0 <= j < i ==> !SameNumber(stored[j].number, number)) {
      MatchIsFirst(stored, number, i);
    }
  }
}
