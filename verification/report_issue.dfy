/** The resident `ReportIssueScreen`: `handleReportIssue` checks the
    description and resets the form; nothing is sent over the network. */
module ReportIssue {
  import opened Types

  datatype State = State(description: string, image: Option<string>)

  datatype Outcome = MissingDescription | Reported

  datatype ReportResult = ReportResult(state: State, outcome: Outcome)

  /** `handleReportIssue`. The image is optional. */
  function Report(s: State): (r: ReportResult)
    ensures r.outcome == MissingDescription <==> s.description == ""
    ensures r.outcome == MissingDescription ==> r.state == s
    ensures r.outcome == Reported ==> r.state == State("", None)
  {
    if s.description == "" then ReportResult(s, MissingDescription)
    else ReportResult(State("", None), Reported)
  }

  /** Reporting from the cleared form is refused, so a report is never sent twice. */
  lemma NoRepeatReport(s: State)
    requires Report(s).outcome == Reported
    ensures Report(Report(s).state).outcome == MissingDescription
  {
  }

  /** The check does not trim: a description of spaces only is reported. */
  lemma WhitespaceDescriptionAccepted(image: Option<string>)
    ensures Report(State(" ", image)) == ReportResult(State("", None), Reported)
  {
  }
}
