/** The admin `ExpenseDetailsScreen`: seeded residents and the
    reminder actions, which here only show an alert (no request). Its bulk
    filter is `!hasPaid` alone, unlike the manager variant. */
module AdminExpenseDetails {
  import opened Types
  import Seqs
  import Ledger
  import Yonetici = YoneticiExpenseDetails

  /** The three residents the screen starts with. */
  const SeedResidents: seq<Resident> := [
    Resident("1", "Ahmet", "Yılmaz", "A", "Aytur Sitesi", 12, "05001112233", 300, false, "2024-02-01"),
    Resident("2", "Ayşe", "Demir", "B", "Aytur Sitesi", 8, "05002223344", 300, true, "2024-01-15"),
    Resident("3", "Mehmet", "Kaya", "C", "Aytur Sitesi", 20, "05003334455", 300, false, "2024-02-10")
  ]

  /** For the seeded residents the summary shows 300 paid and 600 unpaid. */
  lemma SeedTotals()
    ensures Ledger.SideTotal(SeedResidents, true) == 300
    ensures Ledger.SideTotal(SeedResidents, false) == 600
  {
    assert SeedResidents[1..][1..][1..] == [];
  }

  /** The alert a reminder action ends with. */
  datatype Notice = NoNotice | AlreadyPaid | ReminderSent

  predicate Unpaid(r: Resident) {
    !r.hasPaid
  }

  /** `residents.filter(resident => !resident.hasPaid)`. */
  function BulkSelection(rs: seq<Resident>): (sel: seq<Resident>)
    ensures |sel| <= |rs|
    ensures forall i :: 0 <= i < |sel| ==> sel[i] in rs && !sel[i].hasPaid
    ensures forall i :: 0 <= i < |rs| && !rs[i].hasPaid ==> rs[i] in sel
  {
    Seqs.Filter(Unpaid, rs)
  }

  /** `requestPaymentReminder`: refused for a resident who has paid; otherwise
      confirmation leads to the "sent" alert of `sendPaymentReminder`. */
  function RequestPaymentReminder(r: Resident, choice: Choice): (n: Notice)
    ensures r.hasPaid ==> n == AlreadyPaid
    ensures n == ReminderSent <==> !r.hasPaid && choice.Confirm?
    ensures !r.hasPaid && choice.Cancel? ==> n == NoNotice
  {
    if r.hasPaid then AlreadyPaid
    else match choice
      case Confirm => ReminderSent
      case Cancel => NoNotice
  }

  datatype BulkResult = NothingToRemind | BulkCancelled | Reminded(residents: seq<Resident>)

  /** `sendBulkReminders`: nothing is sent for an empty selection; after
      confirmation every selected resident is reminded exactly once, in order. */
  function SendBulkReminders(rs: seq<Resident>, choice: Choice): (res: BulkResult)
    ensures res.NothingToRemind? <==> forall i :: 0 <= i < |rs| ==> rs[i].hasPaid
    ensures res.BulkCancelled? ==> choice.Cancel?
    ensures res.Reminded? ==> choice.Confirm? && res.residents == BulkSelection(rs) != []
  {
    var sel := BulkSelection(rs);
    if sel == [] then NothingToRemind
    else
      assert sel[0] in rs;
      match choice
      case Confirm => Reminded(sel)
      case Cancel => BulkCancelled
  }

  predicate PositiveDue(r: Resident) {
    r.amountDue > 0
  }

  /** The manager selection is the admin selection narrowed to positive dues. */
  lemma {:induction false} ManagerSelectionNarrowsAdmin(rs: seq<Resident>)
    ensures Yonetici.BulkSelection(rs) == Seqs.Filter(PositiveDue, BulkSelection(rs))
    decreases |rs|
  {
    if rs != [] {
      ManagerSelectionNarrowsAdmin(rs[1..]);
      var rest := BulkSelection(rs[1..]);
      var narrowed := Yonetici.BulkSelection(rs[1..]);
      if !rs[0].hasPaid {
        assert BulkSelection(rs) == [rs[0]] + rest;
        Seqs.FilterConcat(PositiveDue, [rs[0]], rest);
        assert [rs[0]][1..] == [];
        if rs[0].amountDue > 0 {
          assert Yonetici.BulkSelection(rs) == [rs[0]] + narrowed;
        } else {
          assert Yonetici.BulkSelection(rs) == [] + narrowed;
          assert Seqs.Filter(PositiveDue, [rs[0]]) == [];
        }
      } else {
        assert BulkSelection(rs) == [] + rest == rest;
        assert Yonetici.BulkSelection(rs) == [] + narrowed == narrowed;
      }
    }
  }

  /** The two variants select the same residents exactly when no unpaid
      resident owes zero or less. */
  lemma SelectionsAgreeIff(rs: seq<Resident>)
    ensures Yonetici.BulkSelection(rs) == BulkSelection(rs)
        <==> forall i :: 0 <= i < |rs| && !rs[i].hasPaid ==> rs[i].amountDue > 0
  {
    ManagerSelectionNarrowsAdmin(rs);
    var sel := BulkSelection(rs);
    if forall i :: 0 <= i < |rs| && !rs[i].hasPaid ==> rs[i].amountDue > 0 {
      forall i | 0 <= i < |sel| ensures PositiveDue(sel[i]) {
        var j :| 0 <= j < |rs| && rs[j] == sel[i];
      }
      Seqs.FilterAll(PositiveDue, sel);
    } else {
      var i :| 0 <= i < |rs| && !rs[i].hasPaid && rs[i].amountDue <= 0;
      assert rs[i] in sel;
      assert rs[i] !in Yonetici.BulkSelection(rs);
    }
  }

  /** An unpaid resident who owes 0 is reminded by the admin screen but not by
      the manager screen. */
  lemma ZeroDueDiffers(r: Resident)
    requires !r.hasPaid && r.amountDue == 0
    ensures BulkSelection([r]) == [r]
    ensures Yonetici.BulkSelection([r]) == []
    ensures SendBulkReminders([r], Confirm) == Reminded([r])
    ensures Yonetici.SendBulkReminders([r], Confirm, _ => Reply(true)) == Yonetici.NothingToRemind
  {
    assert [r][1..] == [];
  }
}
