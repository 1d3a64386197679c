/** The shared record shapes of `types.ts`. Amounts are whole currency units. */
module Types {

  datatype Resident = Resident(
    id: string,
    firstName: string,
    lastName: string,
    block: string,
    siteName: string,
    apartmentNumber: int,
    contactNumber: string,
    amountDue: int,
    hasPaid: bool,
    dueDate: string)

  datatype Option<T> = None | Some(value: T)

  /** The user answer to a two-button confirmation dialog. */
  datatype Choice = Confirm | Cancel

  /** How a `fetch` to the backend ends: no answer (the promise rejects), or an
      HTTP answer whose `response.ok` is `ok`. */
  datatype HttpReply = Unreachable | Reply(ok: bool)
}
