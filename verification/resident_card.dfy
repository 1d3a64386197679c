/** `ResidentCard`: what a card shows for a resident and what its two
    confirmation dialogs hand to the screen's callbacks. */
module ResidentCard {
  import opened Types
  import Yonetici = YoneticiExpenseDetails

  /** The optional parts of a card. */
  datatype CardView = CardView(paidLabel: bool, requestButton: bool, callButton: bool, amountDue: int)

  function Render(r: Resident): (v: CardView)
    ensures v.paidLabel <==> r.hasPaid
    ensures v.requestButton <==> Yonetici.OwesReminder(r)
    ensures v.callButton
    ensures v.amountDue == r.amountDue
  {
    CardView(r.hasPaid, !r.hasPaid && r.amountDue > 0, true, r.amountDue)
  }

  /** A card in a list offers the request button exactly when the manager's bulk
      reminder would select that resident. */
  lemma RequestButtonIffBulkSelected(rs: seq<Resident>, i: int)
    requires 0 <= i < |rs|
    ensures Render(rs[i]).requestButton <==> rs[i] in Yonetici.BulkSelection(rs)
  {
    var sel := Yonetici.BulkSelection(rs);
    if rs[i] in sel {
      var k :| 0 <= k < |sel| && sel[k] == rs[i];
    }
  }

  /** `handleRequestPayment`: `onRequestPayment` receives the unchanged
      resident on "Onayla" and nothing happens on "İptal". */
  function HandleRequestPayment(r: Resident, choice: Choice): (forwarded: Option<Resident>)
    ensures forwarded.Some? <==> choice == Confirm
    ensures forwarded.Some? ==> forwarded.value == r
  {
    if choice == Confirm then Some(r) else None
  }

  /** `handleCall`: `onCall` receives the contact number on "Ara". */
  function HandleCall(r: Resident, choice: Choice): (dialled: Option<string>)
    ensures dialled.Some? <==> choice == Confirm
    ensures dialled.Some? ==> dialled.value == r.contactNumber
  {
    if choice == Confirm then Some(r.contactNumber) else None
  }

  /** On the manager screen, a confirmed request from a card that shows the
      button always reaches the reminder endpoint of that resident. */
  lemma ConfirmedCardRequestPosts(r: Resident, screenChoice: Choice, reply: HttpReply)
    requires Render(r).requestButton
    requires screenChoice == Confirm
    ensures HandleRequestPayment(r, Confirm) == Some(r)
    ensures Yonetici.RequestPaymentReminder(HandleRequestPayment(r, Confirm).value, screenChoice, reply).post == Some(r.id)
  {
  }
}
