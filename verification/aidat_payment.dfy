/** The resident `AidatPaymentScreen`: the dues record fetched for the stored
    resident id becomes one payment entry, and "Öde" pays it. */
module AidatPayment {
  import opened Types

  const StatusPaid := "Ödendi"
  const StatusUnpaid := "Ödenmedi"

  datatype Payment = Payment(id: string, amount: int, status: string, dueDate: string)

  /** The fields of the fetched resident document that the screen reads; the
      due date is taken as already rendered for the `tr-TR` locale. */
  datatype DuesRecord = DuesRecord(id: string, amountDue: int, hasPaid: bool, dueDate: string)

  /** `AsyncStorage.getItem('residentId')`: it may reject, or yield a value or null. */
  datatype StorageRead = StorageFailed | Stored(value: Option<string>)

  /** The payments request: no answer, or an answer whose body parses to a
      record (`None`: `response.json()` rejected). */
  datatype FetchReply = FetchUnreachable | FetchAnswer(ok: bool, body: Option<DuesRecord>)

  datatype Alert = NoAlert | MissingResidentId | FetchFailed | FetchCrashed | PaySucceeded | PayFailed | PayCrashed

  /** `!residentId`: absent or empty. */
  predicate HasResidentId(read: StorageRead) {
    read.Stored? && read.value.Some? && read.value.value != ""
  }

  /** The mapping of a fetched record to a list entry. */
  function ToPayment(d: DuesRecord): (p: Payment)
    ensures p.id == d.id && p.amount == d.amountDue && p.dueDate == d.dueDate
    ensures p.status == StatusPaid <==> d.hasPaid
    ensures p.status == StatusUnpaid <==> !d.hasPaid
  {
    Payment(d.id, d.amountDue, if d.hasPaid then StatusPaid else StatusUnpaid, d.dueDate)
  }

  datatype FetchResult = FetchResult(payments: seq<Payment>, loading: bool, alert: Alert)

  /** `fetchPayments`, starting from the initial empty list. */
  function FetchPayments(read: StorageRead, reply: FetchReply): (r: FetchResult)
    ensures !r.loading
    ensures |r.payments| <= 1
    ensures r.payments != [] <==>
      HasResidentId(read) && reply.FetchAnswer? && reply.ok && reply.body.Some?
    ensures r.payments != [] ==> r.payments == [ToPayment(reply.body.value)] && r.alert == NoAlert
    ensures r.alert == MissingResidentId <==> read.Stored? && !HasResidentId(read)
    ensures r.alert == FetchFailed <==> HasResidentId(read) && reply.FetchAnswer? && !reply.ok
    ensures r.alert == FetchCrashed <==>
      || read.StorageFailed?
      || (HasResidentId(read) && (reply.FetchUnreachable? || (reply.ok && reply.body.None?)))
    ensures r.alert in {NoAlert, MissingResidentId, FetchFailed, FetchCrashed}
  {
    match read
    case StorageFailed => FetchResult([], false, FetchCrashed)
    case Stored(id) =>
      if id.None? || id.value == "" then FetchResult([], false, MissingResidentId)
      else match reply
        case FetchUnreachable => FetchResult([], false, FetchCrashed)
        case FetchAnswer(ok, body) =>
          if !ok then FetchResult([], false, FetchFailed)
          else if body.None? then FetchResult([], false, FetchCrashed)
          else FetchResult([ToPayment(body.value)], false, NoAlert)
  }

  /** The "Öde" button is shown for an unpaid entry only. */
  predicate PayOffered(p: Payment) {
    p.status == StatusUnpaid
  }

  /** Every load ends in exactly one of two ways: the entry is shown and no
      alert is raised, or the list stays empty and one of the three error
      alerts is raised. */
  lemma FetchShowsIffNoAlert(read: StorageRead, reply: FetchReply)
    ensures var r := FetchPayments(read, reply);
      (r.payments != [] <==> r.alert == NoAlert)
  {
  }

  /** The fetched entry offers "Öde" exactly when the record is unpaid. */
  lemma FetchedEntryOffersPayIffUnpaid(id: string, d: DuesRecord)
    requires id != ""
    ensures var r := FetchPayments(Stored(Some(id)), FetchAnswer(true, Some(d)));
      && |r.payments| == 1
      && (PayOffered(r.payments[0]) <==> !d.hasPaid)
  {
  }

  /** `markAsPaid`: the entries with the id get status 'Ödendi'. */
  function MarkAsPaid(ps: seq<Payment>, id: string): (r: seq<Payment>)
    ensures |r| == |ps|
    ensures forall i :: 0 <= i < |ps| && ps[i].id != id ==> r[i] == ps[i]
    ensures forall i :: 0 <= i < |ps| && ps[i].id == id ==>
      r[i] == Payment(ps[i].id, ps[i].amount, StatusPaid, ps[i].dueDate)
  {
    seq(|ps|, i requires 0 <= i < |ps| => if ps[i].id == id then ps[i].(status := StatusPaid) else ps[i])
  }

  /** Marking twice is marking once. */
  lemma MarkAsPaidIdempotent(ps: seq<Payment>, id: string)
    ensures MarkAsPaid(MarkAsPaid(ps, id), id) == MarkAsPaid(ps, id)
  {
  }

  /** After marking, the marked entries no longer offer "Öde"; the others keep
      their button exactly as before. */
  lemma MarkAsPaidClosesPay(ps: seq<Payment>, id: string)
    ensures var r := MarkAsPaid(ps, id);
      forall i :: 0 <= i < |ps| ==> (PayOffered(r[i]) <==> ps[i].id != id && PayOffered(ps[i]))
  {
  }

  /** The body of the pay request. */
  datatype PayRequest = PayRequest(residentId: string, amount: int)

  datatype PayResult = PayResult(payments: seq<Payment>, request: Option<PayRequest>, alert: Alert)

  /** `handlePay(id, amount)`: the list changes only when the request is made
      and answered with `ok`. */
  function HandlePay(ps: seq<Payment>, id: string, amount: int, read: StorageRead, reply: HttpReply): (r: PayResult)
    ensures r.request.Some? <==> HasResidentId(read)
    ensures r.request.Some? ==> r.request.value == PayRequest(read.value.value, amount)
    ensures r.payments == (if HasResidentId(read) && reply == Reply(true) then MarkAsPaid(ps, id) else ps)
    ensures r.alert == PaySucceeded <==> HasResidentId(read) && reply == Reply(true)
  {
    match read
    case StorageFailed => PayResult(ps, None, PayCrashed)
    case Stored(rid) =>
      if rid.None? || rid.value == "" then PayResult(ps, None, MissingResidentId)
      else
        var req := Some(PayRequest(rid.value, amount));
        match reply
        case Unreachable => PayResult(ps, req, PayCrashed)
        case Reply(ok) =>
          if ok then PayResult(MarkAsPaid(ps, id), req, PaySucceeded)
          else PayResult(ps, req, PayFailed)
  }
}
