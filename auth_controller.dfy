/** The handler of POST /api/login: a presence check of its own, then the login service, then the reply. */
module AuthController {
  import opened Js
  import opened Http
  import opened Sql
  import opened Errors
  import opened Jwt
  import UserModel
  import AuthService

  const MissingFields: string := "Faltan campos obligatorios: Email y/o contraseña."
  const LoggedIn: string := "✅ Inicio de sesión exitoso. Token generado."
  const AuthFailed: string := "Error de autenticación: Credenciales inválidas o usuario inactivo."
  const LoginInternal: string := "Error interno del servidor durante el login."

  /** The object handed to the service: `{ email, password }` taken from the body. */
  function Credentials(body: Obj): (c: Obj)
    ensures c.Keys == {"email", "password"}
    ensures Get(c, "email") == Get(body, "email") && Get(c, "password") == Get(body, "password")
  {
    map["email" := Get(body, "email"), "password" := Get(body, "password")]
  }

  /**
   * What the service's outcome becomes: 200 with the token and the user; otherwise the error's status (500 when it has
   * none), a fixed message for a 401, the service's message for a 400 and a generic one for anything else, and the
   * service's message in `error` every time.
   */
  function Answer(o: Outcome<AuthService.Session>): (r: Response)
    ensures o.Returned? ==>
              r == Response(200, map["message" := Str(LoggedIn), "token" := Str(o.value.token), "user" := Object(o.value.user)])
    ensures o.Threw? ==> r.status == StatusOr500(o.error) && r.body.Keys == {"message", "error"} &&
                         Get(r.body, "error") == Str(o.error.message)
    ensures o.Threw? ==>
              Get(r.body, "message") ==
                Str(if r.status == 401 then AuthFailed else if r.status == 400 then o.error.message else LoginInternal)
  {
    match o
    case Returned(s) =>
      Response(200, map["message" := Str(LoggedIn), "token" := Str(s.token), "user" := Object(s.user)])
    case Threw(e) =>
      var status := StatusOr500(e);
      var message := if status == 401 then AuthFailed else if status == 400 then e.message else LoginInternal;
      Envelope(status, Str(message), Str(e.message))
  }

  /** `login` as written, over the service as written. */
  function Login(cat: UserModel.Catalog, t: Table, body: Obj, env: Option<string>, compare: AuthService.Comparer,
                 sign: Signer): (r: Response)
    reads t
    requires t.Valid()
    ensures !Truthy(Get(body, "email")) || !Truthy(Get(body, "password")) ==> r == Message(400, MissingFields)
  {
    if !Truthy(Get(body, "email")) || !Truthy(Get(body, "password")) then Message(400, MissingFields)
    else Answer(AuthService.Login(cat, t, Credentials(body), env, compare, sign))
  }

  /** `login` over the service with the 401 its unknown-email branch means. */
  function LoginIntended(cat: UserModel.Catalog, t: Table, body: Obj, env: Option<string>, compare: AuthService.Comparer,
                         sign: Signer): (r: Response)
    reads t
    requires t.Valid()
    ensures !Truthy(Get(body, "email")) || !Truthy(Get(body, "password")) ==> r == Message(400, MissingFields)
    ensures r.status in {200, 400, 401, 500}
    ensures r.status == 500 <==>
              Truthy(Get(body, "email")) && Truthy(Get(body, "password")) &&
              AuthService.CompareRejects(cat, t, Credentials(body), compare)
  {
    if !Truthy(Get(body, "email")) || !Truthy(Get(body, "password")) then Message(400, MissingFields)
    else
      var c := Credentials(body);
      var o := AuthService.LoginIntended(cat, t, c, env, compare, sign);
      AuthService.IntendedCauses(cat, t, c, env, compare, sign);
      Answer(o)
  }

  /**
   * The only statuses are 200, 400, 401 and 500, and every 400 is the controller's own: the service's presence check
   * can never answer, because the controller has already refused the same bodies.
   */
  lemma LoginStatuses(cat: UserModel.Catalog, t: Table, body: Obj, env: Option<string>, compare: AuthService.Comparer,
                      sign: Signer)
    requires t.Valid()
    ensures var r := Login(cat, t, body, env, compare, sign);
            r.status in {200, 400, 401, 500} && (r.status == 400 ==> r == Message(400, MissingFields))
  {
    if Truthy(Get(body, "email")) && Truthy(Get(body, "password")) {
      var c := Credentials(body);
      match UserModel.FindByEmailForAuth(cat, t, Get(c, "email"))
      case None =>
        assert AuthService.Login(cat, t, c, env, compare, sign).error.cause == None;
      case Some(u) =>
        assert AuthService.Login(cat, t, c, env, compare, sign) == AuthService.Admit(u, Get(c, "password"), env, compare, sign);
    }
  }

  /** As written, an unknown email is answered as a server fault: 500, the generic message, and V8's TypeError text. */
  lemma UnknownEmailIs500(cat: UserModel.Catalog, t: Table, body: Obj, env: Option<string>, compare: AuthService.Comparer,
                          sign: Signer)
    requires t.Valid() && Truthy(Get(body, "email")) && Truthy(Get(body, "password"))
    requires AuthService.Unknown(cat, t, Get(body, "email"))
    ensures Login(cat, t, body, env, compare, sign) ==
              Envelope(500, Str(LoginInternal), Str(AuthService.NotAConstructor))
  {
    AuthService.UnknownEmailThrowsTypeError(cat, t, Credentials(body), env, compare, sign);
  }

  /**
   * A blocked account and a wrong password share the 401 and its message, but the `error` field still tells them apart:
   * it carries the service's own message.
   */
  lemma RefusalsShareMessage(cat: UserModel.Catalog, t: Table, body: Obj, env: Option<string>,
                             compare: AuthService.Comparer, sign: Signer)
    requires t.Valid() && Truthy(Get(body, "email")) && Truthy(Get(body, "password"))
    requires UserModel.FindByEmailForAuth(cat, t, Get(body, "email")).Some?
    ensures var u := UserModel.FindByEmailForAuth(cat, t, Get(body, "email")).value;
            var r := Login(cat, t, body, env, compare, sign);
            (AuthService.Blocked(u) ==> r == Envelope(401, Str(AuthFailed), Str(AuthService.Inactive))) &&
            (!AuthService.Blocked(u) && compare(Get(body, "password"), Get(u, "PasswordHash")) == AuthService.Mismatch ==>
               r == Envelope(401, Str(AuthFailed), Str(AuthService.InvalidCredentials)))
  {
    assert AuthService.Inactive != AuthService.InvalidCredentials by {
      assert |AuthService.Inactive| != |AuthService.InvalidCredentials|;
    }
  }

  /** A 200 carries exactly the token and the user of the service's session, and happens only when the service returned. */
  lemma LoginSucceeds(cat: UserModel.Catalog, t: Table, body: Obj, env: Option<string>, compare: AuthService.Comparer,
                      sign: Signer)
    requires t.Valid()
    ensures var r := Login(cat, t, body, env, compare, sign);
            var o := AuthService.Login(cat, t, Credentials(body), env, compare, sign);
            (r.status == 200 <==> Truthy(Get(body, "email")) && Truthy(Get(body, "password")) && o.Returned?) &&
            (r.status == 200 ==> Get(r.body, "token") == Str(o.value.token) && Get(r.body, "user") == Object(o.value.user))
  {
    LoginStatuses(cat, t, body, env, compare, sign);
    if Truthy(Get(body, "email")) && Truthy(Get(body, "password")) {
      var o := AuthService.Login(cat, t, Credentials(body), env, compare, sign);
      if o.Threw? {
        match UserModel.FindByEmailForAuth(cat, t, Get(body, "email"))
        case None =>
        case Some(u) =>
          assert o.error.cause in {Some(401), None};
      }
    }
  }

  /** Corrected: an unknown email gets the very reply a wrong password gets, so the two cannot be told apart. */
  lemma IntendedRefusalsAlike(cat: UserModel.Catalog, t1: Table, t2: Table, body: Obj, env: Option<string>,
                              compare: AuthService.Comparer, sign: Signer)
    requires t1.Valid() && t2.Valid() && Truthy(Get(body, "email")) && Truthy(Get(body, "password"))
    requires AuthService.Unknown(cat, t1, Get(body, "email"))
    requires var f := UserModel.FindByEmailForAuth(cat, t2, Get(body, "email"));
             f.Some? && !AuthService.Blocked(f.value) &&
             compare(Get(body, "password"), Get(f.value, "PasswordHash")) == AuthService.Mismatch
    ensures LoginIntended(cat, t1, body, env, compare, sign) == LoginIntended(cat, t2, body, env, compare, sign)
    ensures LoginIntended(cat, t1, body, env, compare, sign) ==
              Envelope(401, Str(AuthFailed), Str(AuthService.InvalidCredentials))
  {
    AuthService.FailuresIndistinguishable(cat, t1, t2, Credentials(body), env, compare, sign);
  }
}
