/**
 apps/users/management/commands/provision_rcm_data.py: the extension-number counter of
 `_provision_users`.
*/
module Allocator {
  import opened Ordering
  import Text

  /** The first number from `next` on whose text is not taken. */
  function NextFree(taken: set<string>, next: int): (n: int)
    ensures n >= next
    decreases taken
  {
    var text := Text.Decimal(next);
    if text in taken then NextFree(taken - {text}, next + 1) else next
  }

  lemma {:induction false} NextFreeIsFirst(taken: set<string>, next: int)
    ensures Text.Decimal(NextFree(taken, next)) !in taken
    ensures forall m :: next <= m < NextFree(taken, next) ==> Text.Decimal(m) in taken
    decreases taken
  {
    hide Text.Decimal;
    var text := Text.Decimal(next);
    if text in taken {
      NextFreeIsFirst(taken - {text}, next + 1);
      Text.DecimalInjective(NextFree(taken, next), next);
    }
  }

  function Passed(lo: int, hi: int): set<string> {
    set m | lo <= m < hi :: Text.Decimal(m)
  }

  /** `while str(next_ext) in taken_ext_numbers: next_ext += 1` terminates for every finite set. */
  method SkipTaken(taken: set<string>, start: int) returns (next: int)
    ensures next == NextFree(taken, start)
  {
    next := start;
    ghost var rest := taken;
    while Text.Decimal(next) in taken
      invariant next >= start && rest == taken - Passed(start, next)
      invariant NextFree(rest, next) == NextFree(taken, start)
      invariant Text.Decimal(next) in taken <==> Text.Decimal(next) in rest
      decreases rest
    {
      hide Text.Decimal, NextFree;
      PassOne(taken, start, next);
      rest := rest - {Text.Decimal(next)};
      next := next + 1;
    }
  }

  lemma {:induction false} PassOne(taken: set<string>, start: int, next: int)
    requires start <= next && Text.Decimal(next) in taken - Passed(start, next)
    ensures taken - Passed(start, next + 1) == taken - Passed(start, next) - {Text.Decimal(next)}
    ensures NextFree(taken - Passed(start, next), next) == NextFree(taken - Passed(start, next + 1), next + 1)
    ensures Text.Decimal(next + 1) in taken <==> Text.Decimal(next + 1) in taken - Passed(start, next + 1)
  {
    hide Text.Decimal;
    assert Passed(start, next + 1) == Passed(start, next) + {Text.Decimal(next)};
    forall m | start <= m < next + 1
      ensures Text.Decimal(m) != Text.Decimal(next + 1)
    {
      Text.DecimalInjective(m, next + 1);
    }
  }

  /** The numbers handed to k new users in turn; each becomes taken. */
  function Allocate(taken: set<string>, next: int, k: nat): (numbers: seq<int>)
    ensures |numbers| == k
    decreases k
  {
    if k == 0 then []
    else
      var n := NextFree(taken, next);
      [n] + Allocate(taken + {Text.Decimal(n)}, n + 1, k - 1)
  }

  ghost predicate Untaken(taken: set<string>, next: int, numbers: seq<int>) {
    forall i :: 0 <= i < |numbers| ==> numbers[i] >= next && Text.Decimal(numbers[i]) !in taken
  }

  ghost predicate Rising(numbers: seq<int>) {
    forall i, j :: 0 <= i < j < |numbers| ==> numbers[i] < numbers[j]
  }

  /** Every number passed over was taken or has just been handed out. */
  ghost predicate NoGap(taken: set<string>, next: int, numbers: seq<int>) {
    forall i, m :: 0 <= i < |numbers| && next <= m < numbers[i] ==>
      Text.Decimal(m) in taken || exists j :: 0 <= j < i && numbers[j] == m
  }

  lemma {:induction false} NoGapCons(taken: set<string>, next: int, n: int, rest: seq<int>)
    requires forall m :: next <= m < n ==> Text.Decimal(m) in taken
    requires NoGap(taken + {Text.Decimal(n)}, n + 1, rest)
    ensures NoGap(taken, next, [n] + rest)
  {
    hide Text.Decimal;
    var numbers := [n] + rest;
    forall i, m | 0 <= i < |numbers| && next <= m < numbers[i]
      ensures Text.Decimal(m) in taken || exists j :: 0 <= j < i && numbers[j] == m
    {
      if m == n {
        assert numbers[0] == m;
      } else if m > n && Text.Decimal(m) !in taken {
        Text.DecimalInjective(m, n);
        assert m < rest[i - 1];
        var j :| 0 <= j < i - 1 && rest[j] == m;
        assert numbers[j + 1] == m;
      }
    }
  }

  /**
   The counter hands out, in ascending order, exactly the smallest numbers from the start that are
   not taken.
  */
  lemma {:induction false} AllocatesSmallest(taken: set<string>, next: int, k: nat)
    ensures Untaken(taken, next, Allocate(taken, next, k))
    ensures Rising(Allocate(taken, next, k))
    ensures NoGap(taken, next, Allocate(taken, next, k))
    decreases k
  {
    hide Text.Decimal, NextFree, NoGap, Untaken, Rising;
    if k == 0 {
      NothingHanded(taken, next);
    } else {
      var n := NextFree(taken, next);
      var rest := Allocate(taken + {Text.Decimal(n)}, n + 1, k - 1);
      assert Allocate(taken, next, k) == [n] + rest;
      hide Allocate;
      NextFreeIsFirst(taken, next);
      AllocatesSmallest(taken + {Text.Decimal(n)}, n + 1, k - 1);
      NoGapCons(taken, next, n, rest);
      UntakenCons(taken, next, n, rest);
    }
  }

  lemma {:induction false} UntakenCons(taken: set<string>, next: int, n: int, rest: seq<int>)
    requires n >= next && Text.Decimal(n) !in taken
    requires Untaken(taken + {Text.Decimal(n)}, n + 1, rest) && Rising(rest)
    ensures Untaken(taken, next, [n] + rest) && Rising([n] + rest)
  {
    hide Text.Decimal;
  }

  lemma {:induction false} NothingHanded(taken: set<string>, next: int)
    ensures Untaken(taken, next, []) && Rising([]) && NoGap(taken, next, [])
  {
  }

  /** No other ascending list of untaken numbers reaches as low at any position. */
  lemma {:induction false} AllocatesLeast(taken: set<string>, next: int, k: nat, other: seq<int>, i: nat)
    requires i < k && i < |other|
    requires Rising(other) && Untaken(taken, next, other)
    ensures Allocate(taken, next, k)[i] <= other[i]
    decreases k
  {
    hide Text.Decimal, NextFree;
    var n := NextFree(taken, next);
    NextFreeIsFirst(taken, next);
    assert other[0] >= n;
    if i == 0 {
    } else {
      forall a | 0 <= a < |other| - 1
        ensures Text.Decimal(other[1..][a]) !in taken + {Text.Decimal(n)}
      {
        assert other[1..][a] == other[a + 1] > other[0];
        Text.DecimalInjective(other[a + 1], n);
      }
      AllocatesLeast(taken + {Text.Decimal(n)}, n + 1, k - 1, other[1..], i - 1);
    }
  }

  /** The taken numbers and the counter after k numbers have been handed out. */
  function Counter(taken: set<string>, next: int, k: nat): (set<string>, int)
    decreases k
  {
    if k == 0 then (taken, next)
    else
      var n := NextFree(taken, next);
      Counter(taken + {Text.Decimal(n)}, n + 1, k - 1)
  }

  lemma {:induction false} AllocateNext(taken: set<string>, next: int, k: nat)
    ensures var (t, m) := Counter(taken, next, k);
            var n := NextFree(t, m);
            && Allocate(taken, next, k + 1) == Allocate(taken, next, k) + [n]
            && Counter(taken, next, k + 1) == (t + {Text.Decimal(n)}, n + 1)
    decreases k
  {
    hide Text.Decimal, NextFree;
    var n := NextFree(taken, next);
    if k == 0 {
      assert Counter(taken, next, 1) == Counter(taken + {Text.Decimal(n)}, n + 1, 0);
      assert Allocate(taken, next, 1) == [n] + Allocate(taken + {Text.Decimal(n)}, n + 1, 0);
    } else {
      AllocateNext(taken + {Text.Decimal(n)}, n + 1, k - 1);
    }
  }
}
