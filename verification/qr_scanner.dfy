/** `QRCodeScannerScreen`: a scanned code is checked against the server,
    classified as a registered or unknown visitor, and shown in the result
    modal. The camera hands over scans only until the first one is handled. */
module QRCodeScanner {
  import opened Types
  import Js
  import Modal = QRCodeResultModal

  datatype State = State(scanned: bool, qrData: string, visitorStatus: Option<string>, modalVisible: bool)

  const Initial := State(false, "", None, false)

  /** How the `check-qr` request ends: it throws, or the server answers with
      `response.data`. */
  datatype CheckReply = CheckThrew | CheckAnswer(data: Js.Value)

  /** `checkQRCode`: the answer's `isRegistered`, or `false` when the request
      or the field read throws. */
  function CheckQRCode(reply: CheckReply): (v: Js.Value)
    ensures reply.CheckThrew? ==> v == Js.Bool(false)
    ensures reply.CheckAnswer? && (reply.data.Null? || reply.data.Undefined?) ==> v == Js.Bool(false)
    ensures reply.CheckAnswer? && reply.data.Obj? ==>
      v == (if "isRegistered" in reply.data.fields then reply.data.fields["isRegistered"] else Js.Undefined)
    ensures reply.CheckAnswer? && !reply.data.Null? && !reply.data.Undefined? ==>
      v == Js.Field(reply.data, "isRegistered")
    ensures reply.CheckAnswer? && !reply.data.Null? && !reply.data.Undefined? && !reply.data.Obj? ==>
      v == Js.Undefined
  {
    match reply
    case CheckThrew => Js.Bool(false)
    case CheckAnswer(data) =>
      match Js.Member(data, "isRegistered")
      case Threw => Js.Bool(false)
      case Got(v) => v
  }

  /** The status line chosen from the truthiness of the check's result. */
  function Classify(isRegistered: Js.Value): (status: string)
    ensures status == Modal.RegisteredStatus <==> Js.Truthy(isRegistered)
    ensures status == Modal.UnknownStatus <==> !Js.Truthy(isRegistered)
  {
    if Js.Truthy(isRegistered) then Modal.RegisteredStatus else Modal.UnknownStatus
  }

  /** The camera delivering a code with payload `data`: `handleBarCodeScanned`
      while `scanned` is false; afterwards the camera has no handler. */
  function Deliver(s: State, data: string, reply: CheckReply): (t: State)
    ensures t.scanned
    ensures s.scanned ==> t == s
    ensures !s.scanned ==> t.qrData == data && t.modalVisible
    ensures !s.scanned ==>
      (t.visitorStatus == Some(Modal.RegisteredStatus) <==> reply.CheckAnswer? && Js.Truthy(Js.Field(reply.data, "isRegistered")))
  {
    if s.scanned then s
    else State(true, data, Some(Classify(CheckQRCode(reply))), true)
  }

  /** The modal's `onClose`. */
  function Close(s: State): (t: State)
    ensures !t.modalVisible
    ensures t.scanned == s.scanned && t.qrData == s.qrData && t.visitorStatus == s.visitorStatus
  {
    s.(modalVisible := false)
  }

  datatype Event = Scan(data: string, reply: CheckReply) | CloseModal

  function Step(s: State, e: Event): State {
    match e
    case Scan(data, reply) => Deliver(s, data, reply)
    case CloseModal => Close(s)
  }

  function Run(s: State, es: seq<Event>): State
    decreases |es|
  {
    if es == [] then s else Run(Step(s, es[0]), es[1..])
  }

  /** Nothing resets `scanned`: after the first handled scan, the payload and
      the status stay those of that scan whatever happens next. */
  lemma {:induction false} FirstScanSticks(s: State, es: seq<Event>)
    requires s.scanned
    ensures Run(s, es).scanned
    ensures Run(s, es).qrData == s.qrData && Run(s, es).visitorStatus == s.visitorStatus
    decreases |es|
  {
    if es != [] {
      FirstScanSticks(Step(s, es[0]), es[1..]);
    }
  }

  /** A failed check never offers the entry confirmation. */
  lemma FailedCheckOffersNoConfirm(data: string, m: Modal.ModalState)
    ensures !Modal.Render(Deliver(Initial, data, CheckThrew).visitorStatus, m).confirmShown
  {
  }

  /** A string `isRegistered` such as `"false"` is truthy and reads as registered. */
  lemma TruthyStringCountsAsRegistered(data: string)
    ensures Deliver(Initial, data, CheckAnswer(Js.Obj(map["isRegistered" := Js.Str("false")]))).visitorStatus
      == Some(Modal.RegisteredStatus)
  {
  }
}
