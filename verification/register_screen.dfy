/** `RegisterScreen`: common-field validation, endpoint choice by role, the
    merged request payload, and how the reply is read. */
module RegisterScreen {
  import opened Types
  import Js

  const ManagerEndpoint := "https://aparthus-api.vercel.app/api/users/register"
  const ResidentEndpoint := "https://aparthus-api.vercel.app/api/residents/register"
  const DefaultFailure := "Kayıt işlemi başarısız."

  datatype ValidationError = MissingRequired | InvalidEmail | ShortPassword

  datatype CommonFields = CommonFields(username: string, email: string, password: string, phoneNumber: string)

  /** `validateForm`: the first failing check, in the order required fields,
      email shape, password length (`None`: valid). */
  function ValidateForm(c: CommonFields): (r: Option<ValidationError>)
    ensures r == Some(MissingRequired) <==> c.username == "" || c.email == "" || c.password == ""
    ensures r == Some(InvalidEmail) <==>
      c.username != "" && c.email != "" && c.password != "" && !('@' in c.email && '.' in c.email)
    ensures r == Some(ShortPassword) <==>
      c.username != "" && c.email != "" && c.password != "" && '@' in c.email && '.' in c.email && |c.password| < 6
    ensures r == None <==>
      c.username != "" && c.password != "" && '@' in c.email && '.' in c.email && |c.password| >= 6
  {
    if c.username == "" || c.email == "" || c.password == "" then Some(MissingRequired)
    else if !('@' in c.email) || !('.' in c.email) then Some(InvalidEmail)
    else if |c.password| < 6 then Some(ShortPassword)
    else None
  }

  /** The email check looks at neither order nor position: ".@" passes it. */
  lemma EmailCheckIgnoresOrder()
    ensures ValidateForm(CommonFields("u", ".@", "secret", "")) == None
  {
    assert '@' in ".@" && '.' in ".@";
  }

  /** Only the role 'yonetici' selects the manager endpoint. */
  function Endpoint(role: string): (e: string)
    ensures e == ManagerEndpoint <==> role == "yonetici"
    ensures e == ManagerEndpoint || e == ResidentEndpoint
  {
    if role == "yonetici" then ManagerEndpoint else ResidentEndpoint
  }

  function CommonPayload(c: CommonFields, role: string): map<string, Js.Value> {
    map[
      "username" := Js.Str(c.username),
      "email" := Js.Str(c.email),
      "password" := Js.Str(c.password),
      "phoneNumber" := Js.Str(c.phoneNumber),
      "role" := Js.Str(role)]
  }

  /** `{ username, email, password, phoneNumber, role, ...roleSpecificData }`:
      a role-specific field overrides the common field of the same name. */
  function Payload(c: CommonFields, role: string, specific: map<string, Js.Value>): (p: map<string, Js.Value>)
    ensures p.Keys == CommonPayload(c, role).Keys + specific.Keys
    ensures forall k :: k in specific ==> p[k] == specific[k]
    ensures forall k :: k in CommonPayload(c, role) && k !in specific ==> p[k] == CommonPayload(c, role)[k]
  {
    CommonPayload(c, role) + specific
  }

  /** The registration reply: none, or a status with a body that parsed
      (`None`: `response.json()` rejected). */
  datatype RegisterReply = NoReply | Answer(status: int, body: Option<Js.Value>)

  datatype Request = Request(endpoint: string, payload: map<string, Js.Value>)

  datatype Outcome =
    | Registered(notice: string, navigateTo: string)
    | Refused(shown: Js.Value)
    | ConnectionError

  datatype RegisterResult =
    | Invalid(error: ValidationError)
    | Submitted(request: Request, outcome: Outcome)

  /** `handleRegister(roleSpecificData)`. */
  function HandleRegister(c: CommonFields, role: string, specific: map<string, Js.Value>, reply: RegisterReply): (r: RegisterResult)
    ensures r.Invalid? <==> ValidateForm(c).Some?
    ensures r.Submitted? ==> r.request == Request(Endpoint(role), Payload(c, role, specific))
    ensures r.Submitted? && r.outcome.Registered? <==>
      ValidateForm(c).None? && reply.Answer? && reply.status == 201 && reply.body.Some?
    ensures r.Submitted? && r.outcome.Registered? ==>
      r.outcome.navigateTo == (if role == "yonetici" then "YoneticiHome" else "ResidentHome")
    ensures r.Submitted? && r.outcome.ConnectionError? <==>
      && ValidateForm(c).None?
      && (|| reply.NoReply?
          || reply.body.None?
          || (reply.status != 201 && (reply.body.value.Null? || reply.body.value.Undefined?)))
  {
    match ValidateForm(c)
    case Some(e) => Invalid(e)
    case None =>
      var request := Request(Endpoint(role), Payload(c, role, specific));
      var outcome :=
        match reply
        case NoReply => ConnectionError
        case Answer(status, body) =>
          if body.None? then ConnectionError
          else if status == 201 then
            Registered((if role == "yonetici" then "Yönetici" else "Sakin") + " başarıyla kaydedildi.",
                       if role == "yonetici" then "YoneticiHome" else "ResidentHome")
          else
            match Js.Member(body.value, "message")
            case Threw => ConnectionError
            case Got(m) => Refused(if Js.Truthy(m) then m else Js.Str(DefaultFailure));
      Submitted(request, outcome)
  }

  /** A non-201 answer shows the server's message when it is truthy, else the
      fixed text; a `null` body makes `responseData.message` throw, and the
      catch shows the connection error instead. */
  lemma RefusalMessage(c: CommonFields, role: string, specific: map<string, Js.Value>, status: int, body: Js.Value)
    requires ValidateForm(c).None? && status != 201
    ensures var r := HandleRegister(c, role, specific, Answer(status, Some(body)));
      && r.Submitted?
      && (r.outcome.ConnectionError? <==> body.Null? || body.Undefined?)
      && (r.outcome.Refused? <==> !body.Null? && !body.Undefined?)
      && (r.outcome.Refused? ==> Js.Truthy(r.outcome.shown))
      && (r.outcome.Refused? && Js.Truthy(Js.Field(body, "message")) ==> r.outcome.shown == Js.Field(body, "message"))
      && (r.outcome.Refused? && !Js.Truthy(Js.Field(body, "message")) ==> r.outcome.shown == Js.Str(DefaultFailure))
  {
  }

  /** The concrete case: a 400 answer whose body is `null`. */
  lemma NullBodyIsConnectionError()
    ensures HandleRegister(CommonFields("u", "a@b.c", "secret", ""), "sakin", map[], Answer(400, Some(Js.Null))).outcome
      == ConnectionError
  {
    assert ValidateForm(CommonFields("u", "a@b.c", "secret", "")).None? by {
      assert '@' in "a@b.c" && '.' in "a@b.c";
    }
  }
}
