/** `calculateTotals`, identical in the manager (yönetici) and the admin
    `ExpenseDetailsScreen`: one pass over the residents that adds each
    `amountDue` to the paid or the unpaid total according to `hasPaid`. */
module Ledger {
  import opened Types
  import Seqs

  /** Reference definition: the sum of `amountDue` over the residents whose
      `hasPaid` equals `paid`. */
  function SideTotal(rs: seq<Resident>, paid: bool): int {
    if rs == [] then 0
    else (if rs[0].hasPaid == paid then rs[0].amountDue else 0) + SideTotal(rs[1..], paid)
  }

  /** The sum of `amountDue` over all residents. */
  function TotalDue(rs: seq<Resident>): int {
    if rs == [] then 0 else rs[0].amountDue + TotalDue(rs[1..])
  }

  predicate HasPaid(r: Resident) {
    r.hasPaid
  }

  predicate HasNotPaid(r: Resident) {
    !r.hasPaid
  }

  lemma {:induction false} SideTotalConcat(a: seq<Resident>, b: seq<Resident>, paid: bool)
    ensures SideTotal(a + b, paid) == SideTotal(a, paid) + SideTotal(b, paid)
    decreases |a|
  {
    if a == [] {
      assert a + b == b;
    } else {
      assert (a + b)[1..] == a[1..] + b;
      SideTotalConcat(a[1..], b, paid);
    }
  }

  /** The loop of `calculateTotals`: `forEach` resident, add `amountDue` to
      `paid` when `hasPaid`, else to `unpaid`. */
  method CalculateTotals(residents: seq<Resident>) returns (paid: int, unpaid: int)
    ensures paid == SideTotal(residents, true)
    ensures unpaid == SideTotal(residents, false)
    ensures residents == [] ==> paid == 0 && unpaid == 0
  {
    paid, unpaid := 0, 0;
    var i := 0;
    while i < |residents|
      invariant 0 <= i <= |residents|
      invariant paid == SideTotal(residents[..i], true)
      invariant unpaid == SideTotal(residents[..i], false)
    {
      var r := residents[i];
      assert residents[..i + 1] == residents[..i] + [r];
      SideTotalConcat(residents[..i], [r], true);
      SideTotalConcat(residents[..i], [r], false);
      if r.hasPaid {
        paid := paid + r.amountDue;
      } else {
        unpaid := unpaid + r.amountDue;
      }
      i := i + 1;
    }
    assert residents[..i] == residents;
  }

  /** The two totals partition the whole amount due. */
  lemma {:induction false} TotalsPartition(rs: seq<Resident>)
    ensures SideTotal(rs, true) + SideTotal(rs, false) == TotalDue(rs)
    decreases |rs|
  {
    if rs != [] {
      TotalsPartition(rs[1..]);
    }
  }

  /** The paid total is the amount due of exactly the `hasPaid` residents, and
      the unpaid total that of exactly the others. */
  lemma {:induction false} TotalsAreFilteredSums(rs: seq<Resident>)
    ensures SideTotal(rs, true) == TotalDue(Seqs.Filter(HasPaid, rs))
    ensures SideTotal(rs, false) == TotalDue(Seqs.Filter(HasNotPaid, rs))
    decreases |rs|
  {
    if rs != [] {
      TotalsAreFilteredSums(rs[1..]);
      var x := rs[0];
      var p := Seqs.Filter(HasPaid, rs[1..]);
      var u := Seqs.Filter(HasNotPaid, rs[1..]);
      if x.hasPaid {
        assert ([x] + p)[1..] == p;
        assert [] + u == u;
      } else {
        assert ([x] + u)[1..] == u;
        assert [] + p == p;
      }
    }
  }

  function Contribution(r: Resident, paid: bool): int {
    if r.hasPaid == paid then r.amountDue else 0
  }

  lemma SideTotalRemove(b: seq<Resident>, i: int, paid: bool)
    requires 0 <= i < |b|
    ensures SideTotal(b, paid) == Contribution(b[i], paid) + SideTotal(b[..i] + b[i + 1..], paid)
  {
    var tail := [b[i]] + b[i + 1..];
    assert b == b[..i] + tail;
    SideTotalConcat(b[..i], tail, paid);
    SideTotalConcat(b[..i], b[i + 1..], paid);
    assert tail[1..] == b[i + 1..];
  }

  lemma MultisetRemove<T>(a: seq<T>, b: seq<T>, i: int)
    requires multiset(a) == multiset(b) && |a| > 0
    requires 0 <= i < |b| && b[i] == a[0]
    ensures multiset(a[1..]) == multiset(b[..i] + b[i + 1..])
  {
    assert b == b[..i] + [b[i]] + b[i + 1..];
    assert multiset(b) == multiset(b[..i]) + multiset{b[i]} + multiset(b[i + 1..]);
    assert a == [a[0]] + a[1..];
    assert multiset(a) == multiset{a[0]} + multiset(a[1..]);
    assert multiset(b[..i] + b[i + 1..]) == multiset(b[..i]) + multiset(b[i + 1..]);
    assert multiset(a[1..]) == multiset(a) - multiset{a[0]};
  }

  /** Reordering the residents leaves both totals unchanged. */
  lemma {:induction false} TotalsPermutationInvariant(a: seq<Resident>, b: seq<Resident>, paid: bool)
    requires multiset(a) == multiset(b)
    ensures SideTotal(a, paid) == SideTotal(b, paid)
    decreases |a|
  {
    if a == [] {
      assert |multiset(b)| == 0;
    } else {
      assert a[0] in multiset(b);
      var i :| 0 <= i < |b| && b[i] == a[0];
      SideTotalRemove(b, i, paid);
      MultisetRemove(a, b, i);
      TotalsPermutationInvariant(a[1..], b[..i] + b[i + 1..], paid);
    }
  }
}
