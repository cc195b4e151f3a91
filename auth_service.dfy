/**
 * The login decision sequence: presence check, lookup by email, inactive check, hash comparison, token signing.
 * The lookup is the user model's query; the hash comparison and the signer are oracles.
 */
module AuthService {
  import opened Js
  import opened Sql
  import opened Jwt
  import UserModel

  const MissingCredentials: string := "Email y contraseña son obligatorios."
  const InvalidCredentials: string := "Credenciales inválidas."
  const Inactive: string := "Usuario inactivo. Contacte al administrador."
  /** What `new (new Error(...))` throws: the error object is not a constructor. */
  const NotAConstructor: string := "(intermediate value) is not a constructor"
  const ExpiresIn: string := "1h"

  /**
   * What `await bcrypt.compare(password, hash)` settles to: true, false, or a rejection with bcrypt's message (the
   * password is not a string, the hash is NULL). A rejection carries no `cause`.
   */
  datatype Comparison = Match | Mismatch | Rejected(message: string)

  /** `bcrypt.compare(password, hash)` */
  type Comparer = (Value, Value) -> Comparison

  /** What `login` returns: the signed token and the public view of the user. */
  datatype Session = Session(token: string, user: Obj)

  /** The token payload: exactly the id, the email and the role name. */
  function Claims(u: Obj): (c: Obj)
    ensures c.Keys == {"id", "email", "rol"}
    ensures c["id"] == Get(u, "ID_Usuario") && c["email"] == Get(u, "Email") && c["rol"] == Get(u, "NombreRol")
  {
    map["id" := Get(u, "ID_Usuario"), "email" := Get(u, "Email"), "rol" := Get(u, "NombreRol")]
  }

  /** The `user` part of the reply. */
  function PublicView(u: Obj): (v: Obj)
    ensures v.Keys == {"id", "nombre", "apellido", "rol", "email", "activo"}
  {
    map["id" := Get(u, "ID_Usuario"), "nombre" := Get(u, "Nombre"), "apellido" := Get(u, "Apellido"),
        "rol" := Get(u, "NombreRol"), "email" := Get(u, "Email"), "activo" := Get(u, "Activo")]
  }

  /** `user.Activo === false || user.Activo === 0` */
  predicate Blocked(u: Obj) {
    Get(u, "Activo") == Bool(false) || Get(u, "Activo") == Num(0)
  }

  /** Steps 2 to 5 for the user row the lookup found. */
  function Admit(u: Obj, password: Value, env: Option<string>, compare: Comparer, sign: Signer): (r: Outcome<Session>)
    ensures r.Returned? <==> !Blocked(u) && compare(password, Get(u, "PasswordHash")) == Match
    ensures Blocked(u) ==> r == Threw(Fail(Inactive, 401))
    ensures !Blocked(u) && compare(password, Get(u, "PasswordHash")) == Mismatch ==> r == Threw(Fail(InvalidCredentials, 401))
    ensures !Blocked(u) && compare(password, Get(u, "PasswordHash")).Rejected? ==>
              r == Threw(Raise(compare(password, Get(u, "PasswordHash")).message)) && r.error.cause.None?
    ensures r.Returned? ==> r.value == Session(sign(Claims(u), Secret(env), ExpiresIn), PublicView(u))
  {
    if Blocked(u) then Threw(Fail(Inactive, 401))
    else
      match compare(password, Get(u, "PasswordHash"))
      case Rejected(m) => Threw(Raise(m))
      case Mismatch => Threw(Fail(InvalidCredentials, 401))
      case Match => Returned(Session(sign(Claims(u), Secret(env), ExpiresIn), PublicView(u)))
  }

  /** The comparison rejects for the row the lookup finds, after the inactive check let it through. */
  predicate CompareRejects(cat: UserModel.Catalog, t: Table, data: Obj, compare: Comparer)
    reads t
    requires t.Valid()
  {
    var f := UserModel.FindByEmailForAuth(cat, t, Get(data, "email"));
    f.Some? && !Blocked(f.value) && compare(Get(data, "password"), Get(f.value, "PasswordHash")).Rejected?
  }

  /**
   * `login` as written: an unknown email reaches `throw new new Error(...)`, which throws a TypeError without a
   * cause instead of the intended 401.
   */
  function Login(cat: UserModel.Catalog, t: Table, data: Obj, env: Option<string>, compare: Comparer, sign: Signer)
    : (r: Outcome<Session>)
    reads t
    requires t.Valid()
    ensures !Truthy(Get(data, "email")) || !Truthy(Get(data, "password")) ==> r == Threw(Fail(MissingCredentials, 400))
  {
    var email, password := Get(data, "email"), Get(data, "password");
    if !Truthy(email) || !Truthy(password) then Threw(Fail(MissingCredentials, 400))
    else
      match UserModel.FindByEmailForAuth(cat, t, email)
      case None => Threw(Exception(TypeError, NotAConstructor, None))
      case Some(u) => Admit(u, password, env, compare, sign)
  }

  /** `login` with the 401 the unknown-email branch evidently means. */
  function LoginIntended(cat: UserModel.Catalog, t: Table, data: Obj, env: Option<string>, compare: Comparer, sign: Signer)
    : (r: Outcome<Session>)
    reads t
    requires t.Valid()
    ensures !Truthy(Get(data, "email")) || !Truthy(Get(data, "password")) ==> r == Threw(Fail(MissingCredentials, 400))
    ensures r.Threw? && r.error.cause.None? ==>
              Truthy(Get(data, "email")) && Truthy(Get(data, "password")) && CompareRejects(cat, t, data, compare)
  {
    var email, password := Get(data, "email"), Get(data, "password");
    if !Truthy(email) || !Truthy(password) then Threw(Fail(MissingCredentials, 400))
    else
      match UserModel.FindByEmailForAuth(cat, t, email)
      case None => Threw(Fail(InvalidCredentials, 401))
      case Some(u) => Admit(u, password, env, compare, sign)
  }

  /**
   * Once the presence check passes, the corrected login fails only with a 401 or with a rejected comparison, which has
   * no cause; a comparison that rejects always ends the login that way.
   */
  lemma IntendedCauses(cat: UserModel.Catalog, t: Table, data: Obj, env: Option<string>, compare: Comparer, sign: Signer)
    requires t.Valid() && Truthy(Get(data, "email")) && Truthy(Get(data, "password"))
    ensures var r := LoginIntended(cat, t, data, env, compare, sign);
            (r.Threw? ==> r.error.cause in {Some(401), None}) &&
            (CompareRejects(cat, t, data, compare) ==> r.Threw? && r.error.cause.None?)
  {
    match UserModel.FindByEmailForAuth(cat, t, Get(data, "email"))
    case None =>
    case Some(u) =>
  }

  /** No row matches the email (or none joins a role). */
  predicate Unknown(cat: UserModel.Catalog, t: Table, email: Value)
    reads t
  {
    forall k :: k in t.rows ==> !UserModel.AuthMatch(cat, t.rows[k], email)
  }

  /** As written, an unknown email throws a TypeError with no cause, whatever the password and the oracles. */
  lemma UnknownEmailThrowsTypeError(cat: UserModel.Catalog, t: Table, data: Obj, env: Option<string>, compare: Comparer,
                                    sign: Signer)
    requires t.Valid() && Truthy(Get(data, "email")) && Truthy(Get(data, "password"))
    requires Unknown(cat, t, Get(data, "email"))
    ensures Login(cat, t, data, env, compare, sign) == Threw(Exception(TypeError, NotAConstructor, None))
  {
  }

  /**
   * A successful login found the first row with that email that joins a role, not blocked, whose hash the password
   * matches, and answers with the token signed for one hour over that row's claims and with its public view.
   */
  lemma LoginSucceeds(cat: UserModel.Catalog, t: Table, data: Obj, env: Option<string>, compare: Comparer, sign: Signer)
    requires t.Valid()
    ensures var r := Login(cat, t, data, env, compare, sign);
            r.Returned? ==>
              Truthy(Get(data, "email")) && Truthy(Get(data, "password")) &&
              exists k :: k in t.rows && UserModel.AuthMatch(cat, t.rows[k], Get(data, "email")) &&
                (forall j :: j in t.rows && j < k ==> !UserModel.AuthMatch(cat, t.rows[j], Get(data, "email"))) &&
                var u := UserModel.AuthView(cat, k, t.rows[k]);
                !Blocked(u) && compare(Get(data, "password"), Get(t.rows[k], "PasswordHash")) == Match &&
                r.value == Session(sign(Claims(u), Secret(env), "1h"), PublicView(u))
  {
  }

  /** What the session shows of a looked-up row: the claims name its key, email and role; the view has no hash and no apellido. */
  lemma SessionOfRow(cat: UserModel.Catalog, k: int, row: Obj)
    requires UserModel.RoleOf(cat, row).Some?
    ensures var u := UserModel.AuthView(cat, k, row);
            Claims(u) == map["id" := Num(k), "email" := Get(row, "Email"), "rol" := Str(UserModel.RoleOf(cat, row).value)] &&
            "PasswordHash" !in PublicView(u) && PublicView(u)["apellido"] == Undefined
  {
  }

  /** A blocked account is refused before the password is compared: the comparison cannot change the outcome. */
  lemma InactiveBeforeCompare(cat: UserModel.Catalog, t: Table, data: Obj, env: Option<string>, c1: Comparer, c2: Comparer,
                              sign: Signer)
    requires t.Valid() && Truthy(Get(data, "email")) && Truthy(Get(data, "password"))
    requires var f := UserModel.FindByEmailForAuth(cat, t, Get(data, "email")); f.Some? && Blocked(f.value)
    ensures Login(cat, t, data, env, c1, sign) == Login(cat, t, data, env, c2, sign) == Threw(Fail(Inactive, 401))
  {
  }

  /** A BIT column reads back as a boolean: a user the model soft-deleted is blocked, one it created is not. */
  lemma StoredActivoBlocks(cat: UserModel.Catalog, k: int, row: Obj)
    requires UserModel.RoleOf(cat, row).Some?
    ensures Blocked(UserModel.AuthView(cat, k, row["Activo" := Bool(false)]))
    ensures Get(row, "Activo") == Bool(true) ==> !Blocked(UserModel.AuthView(cat, k, row))
  {
    assert UserModel.RoleOf(cat, row["Activo" := Bool(false)]) == UserModel.RoleOf(cat, row);
  }

  /** Corrected: an unknown email and a wrong password for an active user give the very same outcome. */
  lemma FailuresIndistinguishable(cat: UserModel.Catalog, t1: Table, t2: Table, data: Obj, env: Option<string>,
                                  compare: Comparer, sign: Signer)
    requires t1.Valid() && t2.Valid() && Truthy(Get(data, "email")) && Truthy(Get(data, "password"))
    requires Unknown(cat, t1, Get(data, "email"))
    requires var f := UserModel.FindByEmailForAuth(cat, t2, Get(data, "email"));
             f.Some? && !Blocked(f.value) && compare(Get(data, "password"), Get(f.value, "PasswordHash")) == Mismatch
    ensures LoginIntended(cat, t1, data, env, compare, sign) == LoginIntended(cat, t2, data, env, compare, sign)
    ensures LoginIntended(cat, t1, data, env, compare, sign) == Threw(Fail(InvalidCredentials, 401))
  {
  }

  /** As written the two failures differ: the unknown email is a causeless TypeError, the wrong password a 401. */
  lemma FailuresDistinguishable(cat: UserModel.Catalog, t1: Table, t2: Table, data: Obj, env: Option<string>,
                                compare: Comparer, sign: Signer)
    requires t1.Valid() && t2.Valid() && Truthy(Get(data, "email")) && Truthy(Get(data, "password"))
    requires Unknown(cat, t1, Get(data, "email"))
    requires var f := UserModel.FindByEmailForAuth(cat, t2, Get(data, "email"));
             f.Some? && !Blocked(f.value) && compare(Get(data, "password"), Get(f.value, "PasswordHash")) == Mismatch
    ensures Login(cat, t1, data, env, compare, sign).error.cause.None?
    ensures Login(cat, t2, data, env, compare, sign) == Threw(Fail(InvalidCredentials, 401))
  {
  }

  /** Both versions agree whenever the email is known. */
  lemma IntendedAgreesOnKnownEmail(cat: UserModel.Catalog, t: Table, data: Obj, env: Option<string>, compare: Comparer,
                                   sign: Signer)
    requires t.Valid() && !Unknown(cat, t, Get(data, "email"))
    ensures Login(cat, t, data, env, compare, sign) == LoginIntended(cat, t, data, env, compare, sign)
  {
    var k :| k in t.rows && UserModel.AuthMatch(cat, t.rows[k], Get(data, "email"));
  }
}
