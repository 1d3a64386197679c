/** The admin `AnnouncementScreen`: `handleSendAnnouncement` validates the
    message and block, hands the message to the app, then posts it. */
module AnnouncementScreen {
  import opened Types
  import Text

  datatype PickedFile = PickedFile(name: string, uri: string)

  datatype State = State(message: string, block: string, file: Option<PickedFile>)

  /** The JSON body of `POST /api/announcements`; `mediaUrl: None` is `null`. */
  datatype AnnouncementBody = AnnouncementBody(message: string, block: string, scheduledAt: string, mediaUrl: Option<string>)

  /** What the handler does, in order. */
  datatype Effect = AddToApp(message: string) | Post(body: AnnouncementBody)

  datatype Alert = EmptyMessage | EmptyBlock | Sent | ServerRejected | ServerUnreachable

  datatype SendResult = SendResult(state: State, effects: seq<Effect>, alert: Alert)

  /** How the document picker ends: cancelled, or a picked file whose name
      may be missing. A picker that throws leaves the state as cancelling does. */
  datatype PickerResult = PickCancelled | Picked(name: Option<string>, uri: string)

  const DefaultFileName := "Seçilen dosya"

  /** `handleFilePick`: a picked file replaces the selection, its name falling
      back to a default when missing or empty (`res.name || ...`). */
  function PickFile(s: State, res: PickerResult): (r: State)
    ensures r.message == s.message && r.block == s.block
    ensures res.PickCancelled? ==> r == s
    ensures res.Picked? ==> r.file.Some? && r.file.value.uri == res.uri
    ensures res.Picked? ==> r.file.value.name != ""
    ensures res.Picked? && !(res.name.Some? && res.name.value != "") ==> r.file.value.name == DefaultFileName
    ensures res.Picked? && res.name.Some? && res.name.value != "" ==> r.file.value.name == res.name.value
  {
    match res
    case PickCancelled => s
    case Picked(name, uri) =>
      var shown := if name.Some? && name.value != "" then name.value else DefaultFileName;
      s.(file := Some(PickedFile(shown, uri)))
  }

  /** `selectedFile?.uri || null`: the uri when a file with a non-empty uri is picked. */
  function MediaUrl(file: Option<PickedFile>): (m: Option<string>)
    ensures m.Some? <==> file.Some? && file.value.uri != ""
    ensures m.Some? ==> m.value == file.value.uri
  {
    if file.Some? && file.value.uri != "" then Some(file.value.uri) else None
  }

  /** `handleSendAnnouncement`. `scheduledAt` stands for `date.toISOString()`. */
  function Send(s: State, scheduledAt: string, reply: HttpReply): (r: SendResult)
    ensures r.alert == EmptyMessage <==> Text.Trim(s.message) == ""
    ensures r.alert == EmptyBlock <==> Text.Trim(s.message) != "" && Text.Trim(s.block) == ""
    ensures r.alert in {EmptyMessage, EmptyBlock} ==> r.state == s && r.effects == []
    ensures r.alert !in {EmptyMessage, EmptyBlock} ==>
      r.effects == [AddToApp(s.message), Post(AnnouncementBody(s.message, s.block, scheduledAt, MediaUrl(s.file)))]
    ensures r.alert == Sent <==>
      Text.Trim(s.message) != "" && Text.Trim(s.block) != "" && reply == Reply(true)
    ensures r.alert == Sent ==> r.state == State("", "", None)
    ensures r.alert != Sent ==> r.state == s
  {
    if Text.Trim(s.message) == "" then SendResult(s, [], EmptyMessage)
    else if Text.Trim(s.block) == "" then SendResult(s, [], EmptyBlock)
    else
      var effects := [AddToApp(s.message), Post(AnnouncementBody(s.message, s.block, scheduledAt, MediaUrl(s.file)))];
      match reply
      case Unreachable => SendResult(s, effects, ServerUnreachable)
      case Reply(ok) =>
        if ok then SendResult(State("", "", None), effects, Sent)
        else SendResult(s, effects, ServerRejected)
  }

  /** The two validation alerts fire exactly when the message or the block is
      white space only; otherwise the request carries the picked file's uri. */
  lemma SendRejectsIffBlank(s: State, scheduledAt: string, reply: HttpReply)
    ensures var r := Send(s, scheduledAt, reply);
      r.alert in {EmptyMessage, EmptyBlock} <==> Text.Blank(s.message) || Text.Blank(s.block)
  {
    Text.TrimEmptyIffBlank(s.message);
    Text.TrimEmptyIffBlank(s.block);
  }

  /** A picked file's uri reaches the request. */
  lemma PickedUriIsSent(s: State, res: PickerResult, scheduledAt: string, reply: HttpReply)
    requires res.Picked? && res.uri != ""
    requires !Text.Blank(s.message) && !Text.Blank(s.block)
    ensures Send(PickFile(s, res), scheduledAt, reply).effects[1] ==
      Post(AnnouncementBody(s.message, s.block, scheduledAt, Some(res.uri)))
  {
    Text.TrimEmptyIffBlank(s.message);
    Text.TrimEmptyIffBlank(s.block);
  }

  /** For valid input the app callback always runs, before the request and
      whatever the request's fate. */
  lemma CallbackPrecedesPost(s: State, scheduledAt: string, reply: HttpReply)
    requires !Text.Blank(s.message) && !Text.Blank(s.block)
    ensures var e := Send(s, scheduledAt, reply).effects;
      |e| == 2 && e[0] == AddToApp(s.message) && e[1].Post?
  {
    Text.TrimEmptyIffBlank(s.message);
    Text.TrimEmptyIffBlank(s.block);
  }
}
