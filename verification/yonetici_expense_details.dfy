/** The manager (yönetici) `ExpenseDetailsScreen`: single and bulk dues
    reminders. A reminder is a `POST /api/residents/{id}/reminder`; the reply
    of the backend is an input. */
module YoneticiExpenseDetails {
  import opened Types
  import Seqs

  /** The alert a reminder action ends with (`NoNotice`: the dialog was dismissed). */
  datatype Notice =
    | NoNotice
    | AlreadyPaid
    | NoDebt
    | ReminderSent
    | ReminderFailed
    | ServerUnreachable

  /** What one reminder attempt does: the id whose reminder endpoint is posted
      to, if any, and the alert shown. */
  datatype ReminderResult = ReminderResult(post: Option<string>, notice: Notice)

  /** The bulk filter: not paid and something owed. */
  predicate OwesReminder(r: Resident) {
    !r.hasPaid && r.amountDue > 0
  }

  /** `residents.filter(resident => !resident.hasPaid && resident.amountDue > 0)`. */
  function BulkSelection(rs: seq<Resident>): (sel: seq<Resident>)
    ensures |sel| <= |rs|
    ensures forall i :: 0 <= i < |sel| ==> sel[i] in rs && !sel[i].hasPaid && sel[i].amountDue > 0
    ensures forall i :: 0 <= i < |rs| && !rs[i].hasPaid && rs[i].amountDue > 0 ==> rs[i] in sel
  {
    Seqs.Filter(OwesReminder, rs)
  }

  /** The bulk selection keeps the residents in their original order. */
  lemma BulkSelectionKeepsOrder(a: seq<Resident>, b: seq<Resident>)
    ensures BulkSelection(a + b) == BulkSelection(a) + BulkSelection(b)
  {
    Seqs.FilterConcat(OwesReminder, a, b);
  }

  /** `sendPaymentReminder`: a resident who owes exactly 0 gets a "no debt"
      notice and no request; anyone else gets one POST whose reply picks the alert. */
  function SendPaymentReminder(r: Resident, reply: HttpReply): (res: ReminderResult)
    ensures res.post.Some? <==> r.amountDue != 0
    ensures res.post.Some? ==> res.post.value == r.id
    ensures res.notice == NoDebt <==> r.amountDue == 0
    ensures res.notice == ReminderSent <==> r.amountDue != 0 && reply == Reply(true)
  {
    if r.amountDue == 0 then ReminderResult(None, NoDebt)
    else
      var notice := match reply
        case Unreachable => ServerUnreachable
        case Reply(ok) => if ok then ReminderSent else ReminderFailed;
      ReminderResult(Some(r.id), notice)
  }

  /** `requestPaymentReminder`: refused for a resident who has paid; otherwise a
      confirmation dialog, and on "Evet" the reminder is sent. */
  function RequestPaymentReminder(r: Resident, choice: Choice, reply: HttpReply): (res: ReminderResult)
    ensures r.hasPaid ==> res == ReminderResult(None, AlreadyPaid)
    ensures res.post.Some? <==> !r.hasPaid && choice.Confirm? && r.amountDue != 0
    ensures !r.hasPaid && choice.Cancel? ==> res == ReminderResult(None, NoNotice)
  {
    if r.hasPaid then ReminderResult(None, AlreadyPaid)
    else match choice
      case Cancel => ReminderResult(None, NoNotice)
      case Confirm => SendPaymentReminder(r, reply)
  }

  datatype BulkResult =
    | NothingToRemind
    | BulkCancelled
    | BulkSent(results: seq<ReminderResult>)

  /** `sendBulkReminders`: an empty selection only informs; otherwise, after
      confirmation, `sendPaymentReminder` runs once per selected resident, in
      order. The reply for each resident's endpoint is given by `replyFor`. */
  function SendBulkReminders(rs: seq<Resident>, choice: Choice, replyFor: string -> HttpReply): (res: BulkResult)
    ensures res.NothingToRemind? <==> BulkSelection(rs) == []
    ensures res.BulkCancelled? <==> BulkSelection(rs) != [] && choice.Cancel?
    ensures res.BulkSent? ==>
      var sel := BulkSelection(rs);
      && |res.results| == |sel|
      && forall i :: 0 <= i < |sel| ==>
        && res.results[i].post == Some(sel[i].id)
        && res.results[i] == SendPaymentReminder(sel[i], replyFor(sel[i].id))
  {
    var sel := BulkSelection(rs);
    if sel == [] then NothingToRemind
    else if choice.Cancel? then BulkCancelled
    else
      var results := seq(|sel|, i requires 0 <= i < |sel| => SendPaymentReminder(sel[i], replyFor(sel[i].id)));
      assert forall i :: 0 <= i < |sel| ==> results[i].post == Some(sel[i].id) by {
        forall i | 0 <= i < |sel| ensures results[i].post == Some(sel[i].id) {
          assert sel[i].amountDue > 0;
          var one := SendPaymentReminder(sel[i], replyFor(sel[i].id));
          assert results[i] == one;
          assert one.post.Some?;
        }
      }
      BulkSent(results)
  }
}
