/** Credential to role dispatch, done twice: by `handleLogin` on the
    `LoginScreen` and by the server's `POST /api/login` route. Both compare
    against three username/password pairs read from the environment and take
    the first pair that matches, in the order admin, resident, security. */
module Login {
  import opened Types

  datatype Role = Admin | Resident | Security

  /** The six environment variables; `None` is an unset variable (`undefined`). */
  datatype Env = Env(
    adminUsername: Option<string>, adminPassword: Option<string>,
    residentUsername: Option<string>, residentPassword: Option<string>,
    securityUsername: Option<string>, securityPassword: Option<string>)

  function UsernameOf(env: Env, role: Role): Option<string> {
    match role
    case Admin => env.adminUsername
    case Resident => env.residentUsername
    case Security => env.securityUsername
  }

  function PasswordOf(env: Env, role: Role): Option<string> {
    match role
    case Admin => env.adminPassword
    case Resident => env.residentPassword
    case Security => env.securityPassword
  }

  /** The position of a role's clause in the if/else-if chain. */
  function Rank(role: Role): nat {
    match role
    case Admin => 0
    case Resident => 1
    case Security => 2
  }

  /** Both `===` comparisons of a role's clause hold; `None` on either side is
      `undefined`, and `undefined === undefined`. */
  predicate PairMatches(env: Env, role: Role, username: Option<string>, password: Option<string>) {
    UsernameOf(env, role) == username && PasswordOf(env, role) == password
  }

  /** The role the first matching clause selects, or `None` when no clause
      matches. */
  function Dispatch(env: Env, username: Option<string>, password: Option<string>): (r: Option<Role>)
    ensures r.None? <==> forall role :: !PairMatches(env, role, username, password)
    ensures r.Some? ==> PairMatches(env, r.value, username, password)
    ensures r.Some? ==> forall role :: Rank(role) < Rank(r.value) ==> !PairMatches(env, role, username, password)
  {
    if PairMatches(env, Admin, username, password) then Some(Admin)
    else if PairMatches(env, Role.Resident, username, password) then Some(Role.Resident)
    else if PairMatches(env, Security, username, password) then Some(Security)
    else None
  }

  /** What the screen does: sets the user type, or shows 'Hatalı giriş'. */
  datatype ClientOutcome = SetUserType(role: Role) | InvalidLogin

  /** `handleLogin`: the typed username and password are always strings. */
  function ClientLogin(env: Env, username: string, password: string): (r: ClientOutcome)
    ensures r.InvalidLogin? <==> forall role :: !PairMatches(env, role, Some(username), Some(password))
    ensures r.SetUserType? ==> UsernameOf(env, r.role) == Some(username) && PasswordOf(env, r.role) == Some(password)
    ensures r.SetUserType? ==>
      forall role :: Rank(role) < Rank(r.role) ==> !PairMatches(env, role, Some(username), Some(password))
  {
    match Dispatch(env, Some(username), Some(password))
    case Some(role) => SetUserType(role)
    case None => InvalidLogin
  }

  /** The `userType` strings the server sends and `setUserType` receives. */
  function UserTypeName(role: Role): (s: string)
    ensures s in {"admin", "resident", "security"}
  {
    match role
    case Admin => "admin"
    case Resident => "resident"
    case Security => "security"
  }

  /** Reads a `userType` string back. */
  function ParseUserType(s: string): (r: Option<Role>)
    ensures r.Some? <==> s in {"admin", "resident", "security"}
  {
    if s == "admin" then Some(Admin)
    else if s == "resident" then Some(Role.Resident)
    else if s == "security" then Some(Security)
    else None
  }

  lemma UserTypeRoundTrip(role: Role)
    ensures ParseUserType(UserTypeName(role)) == Some(role)
  {
  }

  const UnauthorizedMessage := "Hatalı kullanıcı adı veya şifre"

  /** The request body; a missing field is `undefined`. */
  datatype LoginBody = LoginBody(username: Option<string>, password: Option<string>)

  /** `res.json({ userType })` with status 200, or status 401 with a message. */
  datatype ServerReply = Ok(userType: string) | Unauthorized(status: int, message: string)

  /** The `POST /api/login` handler. */
  function ServerLogin(env: Env, body: LoginBody): (r: ServerReply)
    ensures r.Unauthorized? <==> forall role :: !PairMatches(env, role, body.username, body.password)
    ensures r.Unauthorized? ==> r.status == 401 && r.message == UnauthorizedMessage
    ensures r.Ok? ==> exists role ::
      && PairMatches(env, role, body.username, body.password)
      && r.userType == UserTypeName(role)
      && (forall earlier :: Rank(earlier) < Rank(role) ==> !PairMatches(env, earlier, body.username, body.password))
  {
    match Dispatch(env, body.username, body.password)
    case Some(role) => Ok(UserTypeName(role))
    case None => Unauthorized(401, UnauthorizedMessage)
  }

  /** For a body carrying both fields, the server decides as the screen does. */
  lemma ServerAgreesWithClient(env: Env, username: string, password: string)
    ensures match ClientLogin(env, username, password)
      case SetUserType(role) => ServerLogin(env, LoginBody(Some(username), Some(password))) == Ok(UserTypeName(role))
      case InvalidLogin => ServerLogin(env, LoginBody(Some(username), Some(password))).Unauthorized?
  {
  }

  /** When two roles share a credential pair, the later role can never log in. */
  lemma EarlierClauseShadows(env: Env, first: Role, later: Role, username: string, password: string)
    requires Rank(first) < Rank(later)
    requires UsernameOf(env, first) == UsernameOf(env, later) && PasswordOf(env, first) == PasswordOf(env, later)
    ensures ClientLogin(env, username, password) != SetUserType(later)
    ensures ServerLogin(env, LoginBody(Some(username), Some(password))) != Ok(UserTypeName(later))
  {
    var d := Dispatch(env, Some(username), Some(password));
    assert d != Some(later);
    if d.Some? {
      UserTypeRoundTrip(d.value);
      UserTypeRoundTrip(later);
    }
  }

  /** A role whose variables are unset never logs in on the screen, but the
      server admits a body that leaves out both fields, as the first such role. */
  lemma UnsetPairAdmitsEmptyBody(env: Env, role: Role, username: string, password: string)
    requires UsernameOf(env, role).None? && PasswordOf(env, role).None?
    ensures ClientLogin(env, username, password) != SetUserType(role)
    ensures ServerLogin(env, LoginBody(None, None)).Ok?
  {
    assert PairMatches(env, role, None, None);
  }
}
