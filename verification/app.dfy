/** The root `App` component: the `userType` state, the set of stack screens
    registered for it, and the announcement list kept for the resident home. */
module App {
  import opened Types
  import Auth = Login

  /** The route names of the navigation stack. */
  datatype ScreenName =
    | Login
    | AdminHome | ManageUsers | ExpenseDetails | Announcement | SendNotification | QRCodeScanner
    | ResidentHome | AidatPayment | ReportIssue | EmergencyReport
    | SecurityHome

  const AdminScreens: set<ScreenName> :=
    {AdminHome, ManageUsers, ExpenseDetails, Announcement, SendNotification, QRCodeScanner}
  const ResidentScreens: set<ScreenName> := {ResidentHome, AidatPayment, ReportIssue, EmergencyReport}
  const SecurityScreens: set<ScreenName> := {SecurityHome, QRCodeScanner}

  /** The screens the stack navigator registers for a `userType`. */
  function Screens(userType: Option<Auth.Role>): (r: set<ScreenName>)
    ensures Login in r <==> userType.None?
    ensures userType.None? ==> r == {Login}
    ensures QRCodeScanner in r <==> userType == Some(Auth.Admin) || userType == Some(Auth.Security)
    ensures Announcement in r <==> userType == Some(Auth.Admin)
    ensures userType == Some(Auth.Admin) ==>
      r == {AdminHome, ManageUsers, ExpenseDetails, Announcement, SendNotification, QRCodeScanner}
    ensures userType == Some(Auth.Role.Resident) ==> r == {ResidentHome, AidatPayment, ReportIssue, EmergencyReport}
    ensures userType == Some(Auth.Security) ==> r == {SecurityHome, QRCodeScanner}
  {
    match userType
    case None => {Login}
    case Some(Admin) => AdminScreens
    case Some(Resident) => ResidentScreens
    case Some(Security) => SecurityScreens
  }

  /** Apart from the shared scanner, no screen is registered for two roles. */
  lemma RoleScreensDisjoint(a: Auth.Role, b: Auth.Role, s: ScreenName)
    requires a != b && s != QRCodeScanner
    ensures !(s in Screens(Some(a)) && s in Screens(Some(b)))
  {
  }

  const SeedAnnouncements: seq<string> := [
    "Yarın saat 10:00’da su kesintisi olacak.",
    "Aidat ödemelerinizi ay sonuna kadar yapmayı unutmayın.",
    "Site genelinde bakım çalışmaları yapılacaktır."
  ]

  datatype State = State(userType: Option<Auth.Role>, announcements: seq<string>)

  const Initial := State(None, SeedAnnouncements)

  /** The two callbacks the root hands down: `setUserType` to the login
      screen and `handleAddAnnouncement` to the announcement screen. */
  datatype Event = LoggedIn(role: Auth.Role) | AnnouncementAdded(text: string)

  /** One callback invocation. A callback whose screen is not registered
      cannot be invoked and leaves the state alone. */
  function Step(s: State, e: Event): (t: State)
    ensures s.userType.Some? ==> t.userType == s.userType
    ensures t.userType.None? ==> s.userType.None?
    ensures e.AnnouncementAdded? && Announcement in Screens(s.userType) ==>
      t.announcements == s.announcements + [e.text]
    ensures !(e.AnnouncementAdded? && Announcement in Screens(s.userType)) ==> t.announcements == s.announcements
  {
    match e
    case LoggedIn(role) =>
      if Login in Screens(s.userType) then s.(userType := Some(role)) else s
    case AnnouncementAdded(text) =>
      if Announcement in Screens(s.userType) then s.(announcements := s.announcements + [text]) else s
  }

  function Run(s: State, es: seq<Event>): State
    decreases |es|
  {
    if es == [] then s else Run(Step(s, es[0]), es[1..])
  }

  /** There is no logout: once set, the user type never changes again. */
  lemma {:induction false} LoginIsPermanent(s: State, es: seq<Event>)
    requires s.userType.Some?
    ensures Run(s, es).userType == s.userType
    decreases |es|
  {
    if es != [] {
      LoginIsPermanent(Step(s, es[0]), es[1..]);
    }
  }

  /** Announcements are only ever appended: the earlier list stays a prefix. */
  lemma {:induction false} AnnouncementsOnlyGrow(s: State, es: seq<Event>)
    ensures s.announcements <= Run(s, es).announcements
    decreases |es|
  {
    if es != [] {
      AnnouncementsOnlyGrow(Step(s, es[0]), es[1..]);
    }
  }

  /** Only an admin session adds announcements, and a session never changes
      role, so whatever a resident's home screen shows is the list it started
      with. */
  lemma {:induction false} NonAdminSessionKeepsAnnouncements(s: State, es: seq<Event>)
    requires s.userType != Some(Auth.Admin)
    requires Run(s, es).userType != Some(Auth.Admin)
    ensures Run(s, es).announcements == s.announcements
    decreases |es|
  {
    if es != [] {
      var t := Step(s, es[0]);
      if t.userType == Some(Auth.Admin) {
        LoginIsPermanent(t, es[1..]);
      } else {
        NonAdminSessionKeepsAnnouncements(t, es[1..]);
      }
    }
  }

  /** Hence a resident session started from the app's first render sees
      exactly the three seeded announcements. */
  lemma ResidentSeesOnlySeeds(es: seq<Event>)
    requires Run(Initial, es).userType == Some(Auth.Resident)
    ensures Run(Initial, es).announcements == SeedAnnouncements
  {
    NonAdminSessionKeepsAnnouncements(Initial, es);
  }
}
