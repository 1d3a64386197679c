/** The resident `EmergencyReportScreen`: `handleSendEmergencyReport` checks the
    two pickers and builds the report; nothing is sent over the network. */
module EmergencyReport {

  const OtherType := "Diğer"

  datatype Form = Form(emergencyType: string, customEmergency: string, priorityLevel: string, description: string)

  datatype Report = Report(reportType: string, priority: string, description: string)

  datatype Outcome = MissingRequired | Reported(report: Report)

  /** `handleSendEmergencyReport`. */
  function Send(f: Form): (r: Outcome)
    ensures r.MissingRequired? <==> f.emergencyType == "" || f.priorityLevel == ""
    ensures r.Reported? ==> r.report.priority == f.priorityLevel && r.report.description == f.description
    ensures r.Reported? ==>
      r.report.reportType == (if f.emergencyType == OtherType then f.customEmergency else f.emergencyType)
  {
    if f.emergencyType == "" || f.priorityLevel == "" then MissingRequired
    else
      var t := if f.emergencyType == OtherType then f.customEmergency else f.emergencyType;
      Reported(Report(t, f.priorityLevel, f.description))
  }

  /** Across all inputs, a report goes out with an empty type exactly when
      "Diğer" is chosen with no custom text (and a priority is set): the
      custom text is never checked, while a chosen type never reads as empty. */
  lemma EmptyTypeReportedIff(f: Form)
    ensures (Send(f).Reported? && Send(f).report.reportType == "") <==>
      f.emergencyType == OtherType && f.customEmergency == "" && f.priorityLevel != ""
  {
  }

  /** The custom text is read only when "Diğer" is chosen: for any other type
      it changes nothing, and it never decides between rejection and report. */
  lemma CustomTextOnlyForOther(f: Form, text: string)
    ensures Send(f).Reported? == Send(f.(customEmergency := text)).Reported?
    ensures f.emergencyType != OtherType ==> Send(f) == Send(f.(customEmergency := text))
  {
  }

  /** The custom text is not checked: "Diğer" with no text reports an empty type. */
  lemma OtherWithEmptyTextAccepted(priority: string, description: string)
    requires priority != ""
    ensures Send(Form(OtherType, "", priority, description)) == Reported(Report("", priority, description))
  {
  }
}
