/** The resident `VisitorManagementScreen`: an in-memory visitor log with an
    add form and a per-visitor "Çıkışı Kaydet" action. */
module VisitorManagement {
  import Text
  import opened Types

  datatype Visitor = Visitor(
    id: string,
    name: string,
    purpose: string,
    resident: string,
    entryTime: string,
    exitTime: Option<string>)

  datatype Screen = Screen(visitors: seq<Visitor>, visitorName: string, purpose: string, residentName: string)

  datatype Outcome = MissingFields | Registered

  datatype AddResult = AddResult(screen: Screen, outcome: Outcome)

  /** The card shows the exit button while `item.exitTime` is falsy: absent or empty. */
  predicate ExitOffered(v: Visitor) {
    v.exitTime.None? || v.exitTime.value == ""
  }

  /** `addVisitor`. `newId` stands for `Math.random().toString()` and `now` for
      the entry time; both are computed outside the model. */
  function AddVisitor(s: Screen, newId: string, now: string): (r: AddResult)
    ensures r.outcome == MissingFields <==>
      Text.Trim(s.visitorName) == "" || Text.Trim(s.purpose) == "" || Text.Trim(s.residentName) == ""
    ensures r.outcome == MissingFields ==> r.screen == s
    ensures r.outcome == Registered ==>
      && r.screen.visitors == s.visitors + [Visitor(newId, s.visitorName, s.purpose, s.residentName, now, None)]
      && r.screen.visitorName == "" && r.screen.purpose == "" && r.screen.residentName == ""
  {
    if Text.Trim(s.visitorName) == "" || Text.Trim(s.purpose) == "" || Text.Trim(s.residentName) == "" then
      AddResult(s, MissingFields)
    else
      var v := Visitor(newId, s.visitorName, s.purpose, s.residentName, now, None);
      AddResult(Screen(s.visitors + [v], "", "", ""), Registered)
  }

  /** A newly registered visitor is offered the exit action. */
  lemma NewVisitorCanExit(s: Screen, newId: string, now: string)
    requires AddVisitor(s, newId, now).outcome == Registered
    ensures var vs := AddVisitor(s, newId, now).screen.visitors;
      |vs| == |s.visitors| + 1 && ExitOffered(vs[|vs| - 1])
  {
  }

  /** `markExit`: every visitor with the id gets `exitTime := now`. */
  function MarkExit(vs: seq<Visitor>, id: string, now: string): (r: seq<Visitor>)
    ensures |r| == |vs|
    ensures forall i :: 0 <= i < |vs| && vs[i].id != id ==> r[i] == vs[i]
    ensures forall i :: 0 <= i < |vs| && vs[i].id == id ==> r[i] == vs[i].(exitTime := Some(now))
  {
    seq(|vs|, i requires 0 <= i < |vs| => if vs[i].id == id then vs[i].(exitTime := Some(now)) else vs[i])
  }

  /** Marking an unknown id changes nothing. */
  lemma MarkExitUnknownId(vs: seq<Visitor>, id: string, now: string)
    requires forall i :: 0 <= i < |vs| ==> vs[i].id != id
    ensures MarkExit(vs, id, now) == vs
  {
  }

  /** After `markExit` with a real time, the marked visitors no longer offer
      the exit action and all others keep offering it exactly as before. */
  lemma MarkExitClosesAction(vs: seq<Visitor>, id: string, now: string)
    requires now != ""
    ensures var r := MarkExit(vs, id, now);
      forall i :: 0 <= i < |vs| ==> (ExitOffered(r[i]) <==> vs[i].id != id && ExitOffered(vs[i]))
  {
  }
}
