/** `QRCodeResultModal`: what the modal shows for a scanned code, and how
    `handleConfirm` moves its `isLoading` and `alreadyEntered` flags. */
module QRCodeResultModal {
  import opened Types
  import Js

  const RegisteredStatus := "Kayıtlı Ziyaretçi"
  const UnknownStatus := "Bilinmeyen Ziyaretçi"

  datatype ModalState = ModalState(isLoading: bool, alreadyEntered: bool)

  const Initial := ModalState(false, false)

  /** What is on screen: the status line, the payload line, the confirm button
      (with whether it is pressable and whether it shows the spinner), and the
      close button. */
  datatype View = View(showQrData: bool, confirmShown: bool, confirmEnabled: bool, spinner: bool, closeShown: bool)

  function Render(status: Option<string>, m: ModalState): (v: View)
    ensures v.confirmShown <==> status == Some(RegisteredStatus) && !m.alreadyEntered
    ensures v.showQrData <==> status == Some(RegisteredStatus)
    ensures v.confirmShown ==> (v.confirmEnabled <==> !m.isLoading) && (v.spinner <==> m.isLoading)
    ensures v.closeShown
  {
    var registered := status == Some(RegisteredStatus);
    var confirm := registered && !m.alreadyEntered;
    View(registered, confirm, confirm && !m.isLoading, confirm && m.isLoading, true)
  }

  /** How the `visitor-entry` request ends: it throws, or the server answers
      with `response.data`. */
  datatype EntryReply = EntryThrew | EntryAnswer(data: Js.Value)

  /** The alert shown: a warning that the visitor already entered, the
      delayed success notice, or the failure notice. The first two close the
      modal when dismissed. */
  datatype Alert = AlreadyEnteredWarning | EntryRecorded | EntryFailed

  datatype ConfirmResult = ConfirmResult(state: ModalState, alert: Alert)

  /** The state while the request is in flight. */
  function BeginConfirm(m: ModalState): (r: ModalState)
    ensures r.isLoading && r.alreadyEntered == m.alreadyEntered
  {
    m.(isLoading := true)
  }

  /** The end of `handleConfirm`; reading `alreadyEntered` off a `null` body
      throws into the failure branch. */
  function FinishConfirm(m: ModalState, reply: EntryReply): (r: ConfirmResult)
    ensures !r.state.isLoading
    ensures r.state.alreadyEntered <==> m.alreadyEntered || r.alert == AlreadyEnteredWarning
    ensures r.alert == AlreadyEnteredWarning <==>
      reply.EntryAnswer? && Js.Member(reply.data, "alreadyEntered").Got? && Js.Truthy(Js.Member(reply.data, "alreadyEntered").value)
    ensures r.alert == EntryFailed <==> reply.EntryThrew? || reply.data.Undefined? || reply.data.Null?
  {
    match reply
    case EntryThrew => ConfirmResult(m.(isLoading := false), EntryFailed)
    case EntryAnswer(data) =>
      match Js.Member(data, "alreadyEntered")
      case Threw => ConfirmResult(m.(isLoading := false), EntryFailed)
      case Got(flag) =>
        if Js.Truthy(flag) then ConfirmResult(ModalState(false, true), AlreadyEnteredWarning)
        else ConfirmResult(m.(isLoading := false), EntryRecorded)
  }

  /** A press on the confirm button: ignored unless the button is shown and enabled. */
  function PressConfirm(status: Option<string>, m: ModalState, reply: EntryReply): (r: Option<ConfirmResult>)
    ensures r.Some? <==> Render(status, m).confirmEnabled
    ensures r.Some? ==> r.value == FinishConfirm(BeginConfirm(m), reply)
  {
    if Render(status, m).confirmEnabled then Some(FinishConfirm(BeginConfirm(m), reply)) else None
  }

  /** `alreadyEntered` is never reset: once set, it survives every reply. */
  lemma AlreadyEnteredLatches(m: ModalState, reply: EntryReply)
    requires m.alreadyEntered
    ensures FinishConfirm(BeginConfirm(m), reply).state.alreadyEntered
  {
  }

  /** Once the server reports a prior entry, the confirm button disappears
      for good, whatever the status. */
  lemma PriorEntryHidesConfirm(status: Option<string>, m: ModalState, reply: EntryReply)
    requires FinishConfirm(BeginConfirm(m), reply).alert == AlreadyEnteredWarning
    ensures !Render(status, FinishConfirm(BeginConfirm(m), reply).state).confirmShown
  {
  }
}
