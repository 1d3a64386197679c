/** `ResidentForm`, the resident registration form: the site-name lookup by
    manager id and the checks and normalisation of `handleSubmit`. */
module ResidentForm {
  import opened Types
  import Text

  datatype State = State(
    firstName: string,
    lastName: string,
    siteName: string,
    block: string,
    apartmentNumber: string,
    contactNumber: string,
    yoneticiId: string,
    loading: bool)

  /** The lookup `GET /api/users/{yoneticiId}`: no answer (or a body that is
      not JSON), or an answer whose `siteName` field is read; a missing field
      reads as the empty string, which every later check treats the same way.
      An ok answer whose body is `null` makes `data.siteName` throw into the
      catch, so it is expressed as `LookupCrashed`. */
  datatype LookupReply = LookupCrashed | LookupAnswer(ok: bool, siteName: string)

  datatype LookupAlert = EmptyManagerId | SiteNameFound | InvalidManagerId | LookupError

  datatype LookupResult = LookupResult(state: State, request: bool, alert: LookupAlert)

  /** `fetchSiteName`. */
  function FetchSiteName(s: State, reply: LookupReply): (r: LookupResult)
    ensures !r.request <==> Text.Trim(s.yoneticiId) == ""
    ensures !r.request ==> r.state == s
    ensures r.request ==> !r.state.loading
    ensures r.request ==> r.state == s.(siteName := r.state.siteName, loading := false)
    ensures r.request ==>
      r.state.siteName == (if reply.LookupAnswer? && reply.ok then reply.siteName else "")
  {
    if Text.Trim(s.yoneticiId) == "" then LookupResult(s, false, EmptyManagerId)
    else match reply
      case LookupCrashed => LookupResult(s.(siteName := "", loading := false), true, LookupError)
      case LookupAnswer(ok, name) =>
        if ok then LookupResult(s.(siteName := name, loading := false), true, SiteNameFound)
        else LookupResult(s.(siteName := "", loading := false), true, InvalidManagerId)
  }

  /** The data handed to `onSubmit`; `block: None` is `undefined`. */
  datatype Submission = Submission(
    firstName: string,
    lastName: string,
    siteName: string,
    block: Option<string>,
    apartmentNumber: string,
    contactNumber: string,
    yoneticiId: string)

  /** The six required fields, compared with the empty string without trimming. */
  predicate Complete(s: State) {
    && s.firstName != "" && s.lastName != "" && s.siteName != ""
    && s.apartmentNumber != "" && s.contactNumber != "" && s.yoneticiId != ""
  }

  /** `handleSubmit`: `None` when the alert is shown and nothing is submitted. */
  function HandleSubmit(s: State): (r: Option<Submission>)
    ensures r.Some? <==> Complete(s)
    ensures r.Some? ==>
      && r.value.firstName == s.firstName && r.value.lastName == s.lastName
      && r.value.siteName == s.siteName && r.value.apartmentNumber == s.apartmentNumber
      && r.value.contactNumber == s.contactNumber && r.value.yoneticiId == s.yoneticiId
    ensures r.Some? ==> (r.value.block.None? <==> Text.Blank(s.block))
    ensures r.Some? && r.value.block.Some? ==> r.value.block.value == s.block
  {
    Text.TrimEmptyIffBlank(s.block);
    if !Complete(s) then None
    else
      var block := if Text.Trim(s.block) == "" then None else Some(s.block);
      Some(Submission(s.firstName, s.lastName, s.siteName, block, s.apartmentNumber, s.contactNumber, s.yoneticiId))
  }

  /** After a failed lookup the site name is empty, so submitting is refused. */
  lemma FailedLookupBlocksSubmit(s: State, reply: LookupReply)
    requires Text.Trim(s.yoneticiId) != ""
    requires !(reply.LookupAnswer? && reply.ok)
    ensures FetchSiteName(s, reply).state.siteName == ""
    ensures HandleSubmit(FetchSiteName(s, reply).state).None?
  {
  }

  /** White-space-only values pass the required check, which does not trim. */
  lemma WhitespaceValuesAccepted(s: State)
    requires s.firstName == " " && s.lastName == " " && s.siteName == " "
    requires s.apartmentNumber == " " && s.contactNumber == " " && s.yoneticiId == " "
    ensures HandleSubmit(s).Some?
  {
  }
}
