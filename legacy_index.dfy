/**
 * The first, single-file version of the server: its own `verifyToken`, the register and login routes, and the PUT and
 * DELETE routes on users. Every handler answers directly; store errors all become 500.
 */
module LegacyIndex {
  import opened Js
  import opened Http
  import opened Sql
  import opened Jwt
  import opened UpdateBuilder
  import opened Errors
  import AuthMiddleware
  import UserModel
  import AuthService

  // ---------------------------------------------------------------------
  // verifyToken
  // ---------------------------------------------------------------------

  const NoToken: string := "Acceso denegado. No se proporcionó un token de autenticación."
  const InvalidToken: string := "Token de autenticación inválido o expirado."

  /** This version's `verifyToken`: only a missing second field is 401; any string, even empty, goes to the verifier, and a refusal is 403. */
  function Verify(header: Option<string>, verify: Verifier): (g: AuthMiddleware.Gate)
    ensures AuthMiddleware.Token(header) == Undefined ==> g == AuthMiddleware.Reject(Message(401, NoToken))
    ensures g.Pass? <==> AuthMiddleware.Token(header).Str? && verify(AuthMiddleware.Token(header).s, DefaultSecret).Some?
    ensures g.Pass? ==> g.user == verify(AuthMiddleware.Token(header).s, DefaultSecret).value
    ensures AuthMiddleware.Token(header).Str? && verify(AuthMiddleware.Token(header).s, DefaultSecret).None? ==>
              g == AuthMiddleware.Reject(Message(403, InvalidToken))
  {
    var token := AuthMiddleware.Token(header);
    if token == Undefined || token == Null then AuthMiddleware.Reject(Message(401, NoToken))
    else
      match verify(token.s, DefaultSecret)
      case None => AuthMiddleware.Reject(Message(403, InvalidToken))
      case Some(decoded) => AuthMiddleware.Pass(decoded)
  }

  method VerifyToken(req: Request, verify: Verifier)
    modifies req
    ensures var g := Verify(req.authorization, verify);
            (g.Pass? ==> req.user == g.user && req.nextCalls == old(req.nextCalls) + 1 && req.responses == old(req.responses)) &&
            (g.Reject? ==> req.user == old(req.user) && req.nextCalls == old(req.nextCalls) &&
                           req.responses == old(req.responses) + [g.response])
  {
    AuthMiddleware.Apply(req, Verify(req.authorization, verify), true);
  }

  /**
   * The two `verifyToken`s part ways on 'Bearer ': the routers' answers 401 without asking the verifier, this one hands
   * the empty string to the verifier and answers 403 when it refuses.
   */
  lemma EmptyTokenVariants(scheme: string, verify: Verifier, env: Option<string>)
    requires ' ' !in scheme && verify("", DefaultSecret).None?
    ensures AuthMiddleware.Verify(Some(scheme + " "), Secret(env), verify) == AuthMiddleware.Reject(Message(401, AuthMiddleware.MissingToken))
    ensures Verify(Some(scheme + " "), verify) == AuthMiddleware.Reject(Message(403, InvalidToken))
  {
    AuthMiddleware.EmptySecondField(scheme, "");
  }

  /** With JWT_SECRET unset both variants verify against the same secret and let the same tokens through with the same user. */
  lemma VariantsAgreeOnUsableTokens(header: Option<string>, verify: Verifier)
    requires Truthy(AuthMiddleware.Token(header))
    ensures var a := AuthMiddleware.Verify(header, Secret(None), verify);
            var b := Verify(header, verify);
            (a.Pass? <==> b.Pass?) && (a.Pass? ==> a.user == b.user) &&
            (!a.Pass? ==> a.response.status == 401 && b.response.status == 403)
  {
  }

  // ---------------------------------------------------------------------
  // POST /api/register
  // ---------------------------------------------------------------------

  const RegisterMissing: string := "Faltan campos obligatorios."
  const Registered: string := "✅ Usuario registrado exitosamente."
  const RegisterInternal: string := "Error interno del servidor al registrar el usuario."
  const EmailTaken: string := "El email ya se encuentra registrado."
  const BadSectorOrRole: string := "El ID de Sector o Rol no es válido. (Verifique que existan en la DB)."

  /** Here idSector is required too, unlike in the service. */
  predicate RegisterComplete(body: Obj) {
    Truthy(Get(body, "nombre")) && Truthy(Get(body, "email")) && Truthy(Get(body, "password")) &&
    Truthy(Get(body, "idSector")) && Truthy(Get(body, "idRol"))
  }

  /** The inserted row, with the password replaced by its hash and Activo = 1. */
  function RegisteredRow(body: Obj, passwordHash: Value): (row: Obj)
    ensures Get(row, "PasswordHash") == passwordHash && Get(row, "Activo") == Bool(true)
    ensures Get(row, "Email") == Get(body, "email") && "password" !in row
  {
    UserModel.NewRow(map["nombre" := Get(body, "nombre"), "email" := Get(body, "email"),
                         "passwordHash" := passwordHash, "telefono" := Get(body, "telefono"),
                         "idSector" := Get(body, "idSector"), "idRol" := Get(body, "idRol")])
  }

  /** The catch block: the message is picked by substring, the status is always 500. */
  function RegisterFailure(m: string): (r: Response)
    ensures r.status == 500 && Get(r.body, "error") == Str(m)
    ensures Contains(m, UniqueKey) ==> Get(r.body, "message") == Str(EmailTaken)
    ensures !Contains(m, UniqueKey) && Contains(m, ForeignKey) ==> Get(r.body, "message") == Str(BadSectorOrRole)
    ensures !Contains(m, UniqueKey) && !Contains(m, ForeignKey) ==> Get(r.body, "message") == Str(RegisterInternal)
  {
    var message := if Contains(m, UniqueKey) then EmailTaken else if Contains(m, ForeignKey) then BadSectorOrRole
                   else RegisterInternal;
    Envelope(500, Str(message), Str(m))
  }

  /**
   * What the route answers when `await bcrypt.hash(password, SALT_ROUNDS)` settles to `hashed` (it rejects a password
   * that is not a string) and the insert raises `fault`, if anything.
   */
  function RegisterReply(nextId: int, body: Obj, hashed: Outcome<Value>, fault: Option<string>): (r: Response)
    ensures !RegisterComplete(body) ==> r == Message(400, RegisterMissing)
    ensures RegisterComplete(body) && hashed.Threw? ==> r == RegisterFailure(hashed.error.message)
    ensures RegisterComplete(body) && hashed.Returned? && fault.Some? ==> r == RegisterFailure(fault.value)
    ensures r.status == 201 <==> RegisterComplete(body) && hashed.Returned? && fault.None?
    ensures r.status == 201 ==>
              r.body == map["message" := Str(Registered),
                            "usuario" := Object(map["id" := Num(nextId), "nombre" := Get(body, "nombre"),
                                                    "email" := Get(body, "email")])]
  {
    if !RegisterComplete(body) then Message(400, RegisterMissing)
    else if hashed.Threw? then RegisterFailure(hashed.error.message)
    else if fault.Some? then RegisterFailure(fault.value)
    else
      var row := RegisteredRow(body, hashed.value);
      Response(201, map["message" := Str(Registered),
                        "usuario" := Object(map["id" := Num(nextId), "nombre" := Get(row, "Nombre"), "email" := Get(row, "Email")])])
  }

  method Register(t: Table, body: Obj, hashed: Outcome<Value>, fault: Option<string>) returns (res: Response)
    requires t.Valid()
    modifies t
    ensures t.Valid()
    ensures res == RegisterReply(old(t.nextId), body, hashed, fault)
    ensures res.status == 201 ==> hashed.Returned? && t.rows == old(t.rows)[old(t.nextId) := RegisteredRow(body, hashed.value)]
    ensures res.status != 201 ==> t.rows == old(t.rows)
  {
    if !RegisterComplete(body) {
      return Message(400, RegisterMissing);
    }
    if hashed.Threw? {
      return RegisterFailure(hashed.error.message);
    }
    var row := RegisteredRow(body, hashed.value);
    var inserted := t.Insert(row, fault);
    match inserted
    case Threw(e) => res := RegisterFailure(e.message);
    case Returned(k) =>
      res := Response(201, map["message" := Str(Registered),
                               "usuario" := Object(map["id" := Num(k), "nombre" := Get(row, "Nombre"), "email" := Get(row, "Email")])]);
  }

  // ---------------------------------------------------------------------
  // POST /api/login
  // ---------------------------------------------------------------------

  const LoginMissing: string := "Faltan email y/o contraseña."
  const InvalidCredentials: string := "Credenciales inválidas."
  const Inactive: string := "Usuario inactivo. Contacte al administrador."
  const LoggedIn: string := "✅ Inicio de sesión exitoso."
  const LoginInternal: string := "Error interno del servidor durante el login."

  /** The `user` part of the 200 reply: no apellido in this version. */
  function LoginView(u: Obj): Obj {
    map["id" := Get(u, "ID_Usuario"), "nombre" := Get(u, "Nombre"), "rol" := Get(u, "NombreRol"),
        "email" := Get(u, "Email"), "activo" := Get(u, "Activo")]
  }

  /** Only `Activo === false` blocks here. */
  /**
   * Only `Activo === false` blocks here. A rejected comparison (a password that is not a string, a NULL hash) lands in
   * the route's catch block: 500 with bcrypt's message in `error`.
   */
  function Admit(u: Obj, password: Value, compare: AuthService.Comparer, sign: Signer): (r: Response)
    ensures r.status == 200 <==> Get(u, "Activo") != Bool(false) && compare(password, Get(u, "PasswordHash")) == AuthService.Match
    ensures r.status == 500 <==> Get(u, "Activo") != Bool(false) && compare(password, Get(u, "PasswordHash")).Rejected?
    ensures r.status == 500 ==>
              r == Envelope(500, Str(LoginInternal), Str(compare(password, Get(u, "PasswordHash")).message))
    ensures r.status != 200 && r.status != 500 ==> r.status == 401
    ensures Get(u, "Activo") == Bool(false) ==> r == Message(401, Inactive)
  {
    if Get(u, "Activo") == Bool(false) then Message(401, Inactive)
    else
      match compare(password, Get(u, "PasswordHash"))
      case Rejected(m) => Envelope(500, Str(LoginInternal), Str(m))
      case Mismatch => Message(401, InvalidCredentials)
      case Match =>
        var claims := map["id" := Get(u, "ID_Usuario"), "email" := Get(u, "Email"), "rol" := Get(u, "NombreRol")];
        Response(200, map["message" := Str(LoggedIn), "token" := Str(sign(claims, DefaultSecret, "1h")),
                          "user" := Object(LoginView(u))])
  }

  /** The login route; `fault` is an error of the lookup query, if any. */
  function Login(cat: UserModel.Catalog, t: Table, body: Obj, compare: AuthService.Comparer, sign: Signer,
                 fault: Option<string>): (r: Response)
    reads t
    requires t.Valid()
    ensures !Truthy(Get(body, "email")) || !Truthy(Get(body, "password")) ==> r == Message(400, LoginMissing)
    ensures r.status in {200, 400, 401, 500}
  {
    var email, password := Get(body, "email"), Get(body, "password");
    if !Truthy(email) || !Truthy(password) then Message(400, LoginMissing)
    else if fault.Some? then Envelope(500, Str(LoginInternal), Str(fault.value))
    else
      match UserModel.FindByEmailForAuth(cat, t, email)
      case None => Message(401, InvalidCredentials)
      case Some(u) => Admit(u, password, compare, sign)
  }

  /** An unknown email and a wrong password for an active user get the very same reply. */
  lemma UnknownAndWrongPasswordAlike(cat: UserModel.Catalog, t1: Table, t2: Table, body: Obj,
                                     compare: AuthService.Comparer, sign: Signer)
    requires t1.Valid() && t2.Valid() && Truthy(Get(body, "email")) && Truthy(Get(body, "password"))
    requires forall k :: k in t1.rows ==> !UserModel.AuthMatch(cat, t1.rows[k], Get(body, "email"))
    requires var f := UserModel.FindByEmailForAuth(cat, t2, Get(body, "email"));
             f.Some? && Get(f.value, "Activo") != Bool(false) && compare(Get(body, "password"), Get(f.value, "PasswordHash")) == AuthService.Mismatch
    ensures Login(cat, t1, body, compare, sign, None) == Login(cat, t2, body, compare, sign, None) ==
            Message(401, InvalidCredentials)
  {
  }

  /**
   * A row whose Activo reads back as the number 0 is not blocked here: with the right password this version logs it
   * in, whereas the service refuses it with 401.
   */
  lemma NumericZeroNotBlocked(u: Obj, password: Value, compare: AuthService.Comparer, sign: Signer, env: Option<string>,
                              serviceSign: Signer)
    requires Get(u, "Activo") == Num(0) && compare(password, Get(u, "PasswordHash")) == AuthService.Match
    ensures Admit(u, password, compare, sign).status == 200
    ensures AuthService.Admit(u, password, env, compare, serviceSign) == Threw(Fail(AuthService.Inactive, 401))
  {
  }

  /** The inactive check comes before the comparison: a blocked row gets 401 whatever the comparer says. */
  lemma InactiveBeforeCompare(u: Obj, password: Value, c1: AuthService.Comparer, c2: AuthService.Comparer, sign: Signer)
    requires Get(u, "Activo") == Bool(false)
    ensures Admit(u, password, c1, sign) == Admit(u, password, c2, sign) == Message(401, Inactive)
  {
  }

  // ---------------------------------------------------------------------
  // PUT /api/users/:id
  // ---------------------------------------------------------------------

  const BadId: string := "El ID de usuario debe ser un número válido."
  const PutNoFields: string := "Se requiere al menos un campo para actualizar (nombre, telefono, idSector, idRol)."
  const PutNoValidFields: string := "No hay campos válidos para actualizar."
  const PutNotFound: string := "Usuario no encontrado para actualizar."
  const PutInternal: string := "Error interno del servidor al intentar actualizar el usuario."
  const PutBadReference: string := "El ID de Sector o Rol proporcionado no existe."

  const PutRules: seq<Rule> := [
    Rule("nombre", "Nombre", IfTruthy, None),
    Rule("telefono", "Telefono", IfTruthy, None),
    Rule("idSector", "ID_Sector", IfTruthy, None),
    Rule("idRol", "ID_Rol", IfTruthy, None)
  ]

  /** The four pushes of the PUT handler, one rule at a time. */
  method BuildPut(data: Obj) returns (b: Built)
    ensures Build(PutRules, data) == Returned(b)
  {
    var updates: seq<string> := [];
    var params: seq<Value> := [];
    ghost var u0, p0 := updates, params;
    assert Fragment("Nombre") == "Nombre = ?";
    if Truthy(Get(data, "nombre")) {
      updates := updates + ["Nombre = ?"];
      params := params + [Get(data, "nombre")];
    }
    Advance(PutRules, 0, data, u0, p0, updates, params);
    ghost var u1, p1 := updates, params;
    assert Fragment("Telefono") == "Telefono = ?";
    if Truthy(Get(data, "telefono")) {
      updates := updates + ["Telefono = ?"];
      params := params + [Get(data, "telefono")];
    }
    Advance(PutRules, 1, data, u1, p1, updates, params);
    ghost var u2, p2 := updates, params;
    assert Fragment("ID_Sector") == "ID_Sector = ?";
    if Truthy(Get(data, "idSector")) {
      updates := updates + ["ID_Sector = ?"];
      params := params + [Get(data, "idSector")];
    }
    Advance(PutRules, 2, data, u2, p2, updates, params);
    ghost var u3, p3 := updates, params;
    assert Fragment("ID_Rol") == "ID_Rol = ?";
    if Truthy(Get(data, "idRol")) {
      updates := updates + ["ID_Rol = ?"];
      params := params + [Get(data, "idRol")];
    }
    Advance(PutRules, 3, data, u3, p3, updates, params);
    Finish(PutRules, data, updates, params);
    b := Built(updates, params);
  }

  /** `if (!nombre && !telefono && !idSector && !idRol)` */
  predicate NothingToSet(body: Obj) {
    !Truthy(Get(body, "nombre")) && !Truthy(Get(body, "telefono")) && !Truthy(Get(body, "idSector")) &&
    !Truthy(Get(body, "idRol"))
  }

  /** `OUTPUT INSERTED.ID_Usuario, INSERTED.Nombre, INSERTED.Email, INSERTED.Telefono, INSERTED.ID_Sector, INSERTED.ID_Rol` */
  function PutView(c: Change): Obj {
    map["ID_Usuario" := Num(c.key), "Nombre" := Get(c.after, "Nombre"), "Email" := Get(c.after, "Email"),
        "Telefono" := Get(c.after, "Telefono"), "ID_Sector" := Get(c.after, "ID_Sector"), "ID_Rol" := Get(c.after, "ID_Rol")]
  }

  function PutFailure(m: string): (r: Response)
    ensures r.status == 500 && Get(r.body, "error") == Str(m)
    ensures Get(r.body, "message") == Str(if Contains(m, ForeignKey) then PutBadReference else PutInternal)
  {
    Envelope(500, Str(if Contains(m, ForeignKey) then PutBadReference else PutInternal), Str(m))
  }

  /** The statement's outcome as the handler answers it. */
  function PutAnswer(id: string, o: Outcome<Option<Change>>): Response {
    match o
    case Threw(e) => PutFailure(e.message)
    case Returned(None) => Message(404, PutNotFound)
    case Returned(Some(c)) =>
      Response(200, map["message" := Str("✅ Usuario (ID: " + id + ") ha sido actualizado exitosamente."),
                        "usuario" := Object(PutView(c))])
  }

  /** What the PUT route answers, and the table after it. */
  function PutEffect(rows: map<int, Obj>, id: string, body: Obj, fault: Option<string>): (r: (Response, map<int, Obj>)) {
    var updates := Fragments(PutRules, body);
    var params := Params(PutRules, body);
    if ParseIntIsNaN(Str(id)) then (Message(400, BadId), rows)
    else if NothingToSet(body) then (Message(400, PutNoFields), rows)
    else if |updates| == 0 then (Message(400, PutNoValidFields), rows)
    else
      var e := Sql.UpdateEffect(rows, id, Always, Pairs(updates, params), fault);
      (PutAnswer(id, e.reply), e.rows)
  }

  /** The parameters the statement receives are the pushed values followed by the id. */
  method Put(t: Table, id: string, body: Obj, fault: Option<string>) returns (res: Response, sent: seq<Value>)
    requires t.Valid()
    modifies t
    ensures t.Valid() && t.nextId == old(t.nextId)
    ensures (res, t.rows) == PutEffect(old(t.rows), id, body, fault)
    ensures res.status == 200 || 404 == res.status || res.status == 500 ==> sent == Params(PutRules, body) + [Str(id)]
  {
    sent := [];
    if ParseIntIsNaN(Str(id)) {
      return Message(400, BadId), sent;
    }
    if NothingToSet(body) {
      return Message(400, PutNoFields), sent;
    }
    var b := BuildPut(body);
    assert b == Built(Fragments(PutRules, body), Params(PutRules, body));
    if |b.updates| == 0 {
      return Message(400, PutNoValidFields), sent;
    }
    var params := new JsArray(b.params);
    var changed := t.UpdatePositional(id, b.updates, params, fault);
    sent := params.elems;
    res := PutAnswer(id, changed);
  }

  /** Past the first check at least one fragment is built, so the second 400 is unreachable. */
  lemma SecondCheckUnreachable(body: Obj)
    requires !NothingToSet(body)
    ensures |Fragments(PutRules, body)| > 0
  {
    EmptyIffNoneIncluded(PutRules, body);
    if Truthy(Get(body, "nombre")) {
      assert Included(PutRules[0], body);
    } else if Truthy(Get(body, "telefono")) {
      assert Included(PutRules[1], body);
    } else if Truthy(Get(body, "idSector")) {
      assert Included(PutRules[2], body);
    } else {
      assert Included(PutRules[3], body);
    }
  }

  /** The statement receives one parameter per fragment and then the id: one more parameter than fragments, the id last. */
  lemma PutParamsShape(body: Obj, id: string)
    ensures var sent := Params(PutRules, body) + [Str(id)];
            |sent| == |Fragments(PutRules, body)| + 1 && sent[|sent| - 1] == Str(id)
  {
    BuildShape(PutRules, body);
  }

  /** The four rules write four different columns. */
  lemma PutColumnsDistinct()
    ensures DistinctColumns(PutRules)
  {
  }

  /**
   * For a convertible id and a body with something to set: a missing row is 404; an existing one is rewritten by the
   * SET list and shown; a store error is 500 and changes nothing.
   */
  lemma PutSpec(rows: map<int, Obj>, id: string, body: Obj, fault: Option<string>)
    requires ToInt(id).Some? && !NothingToSet(body)
    ensures var k := ToInt(id).value;
            var assigns := Pairs(Fragments(PutRules, body), Params(PutRules, body));
            var (res, after) := PutEffect(rows, id, body, fault);
            (k !in rows ==> res == Message(404, PutNotFound) && after == rows) &&
            (k in rows && fault.Some? ==> res == PutFailure(fault.value) && after == rows) &&
            (k in rows && fault.None? ==> res.status == 200 && after == rows[k := Assign(rows[k], assigns)])
  {
    ConvertibleIdPassesGuard(id);
    SecondCheckUnreachable(body);
    PutColumnsDistinct();
    WellFormedSet(PutRules, body);
  }

  // ---------------------------------------------------------------------
  // DELETE /api/users/:id
  // ---------------------------------------------------------------------

  const DeleteNotFound: string := "Usuario no encontrado o ya estaba inactivo."
  const DeleteInternal: string := "Error interno del servidor al intentar desactivar el usuario."

  /** `OUTPUT DELETED.ID_Usuario, DELETED.Nombre, DELETED.Email, INSERTED.Activo`, as the reply shows it. */
  function DeletedView(c: Change): Obj {
    map["id" := Num(c.key), "nombre" := Get(c.before, "Nombre"), "email" := Get(c.before, "Email"),
        "activo" := Get(c.after, "Activo")]
  }

  function DeleteAnswer(id: string, o: Outcome<Option<Change>>): Response {
    match o
    case Threw(e) => Envelope(500, Str(DeleteInternal), Str(e.message))
    case Returned(None) => Message(404, DeleteNotFound)
    case Returned(Some(c)) =>
      Response(200, map["message" := Str("✅ Usuario (ID: " + id + ") ha sido desactivado (borrado lógico) exitosamente."),
                        "usuario" := Object(DeletedView(c))])
  }

  function DeleteEffect(rows: map<int, Obj>, id: string): (r: (Response, map<int, Obj>)) {
    if ParseIntIsNaN(Str(id)) then (Message(400, BadId), rows)
    else
      var e := Sql.SoftDeleteEffect(rows, id, "Activo");
      (DeleteAnswer(id, e.reply), e.rows)
  }

  method Delete(t: Table, id: string) returns (res: Response)
    requires t.Valid()
    modifies t
    ensures t.Valid() && t.nextId == old(t.nextId)
    ensures (res, t.rows) == DeleteEffect(old(t.rows), id)
  {
    if ParseIntIsNaN(Str(id)) {
      return Message(400, BadId);
    }
    var changed := t.Update(id, IntEquals("Activo", 1), [("Activo", Bool(false))], None);
    res := DeleteAnswer(id, changed);
  }

  /**
   * The DELETE route flips only an existing row with Activo = 1 and shows it with activo false; a missing or inactive
   * user is 404 and nothing changes.
   */
  lemma DeleteSpec(rows: map<int, Obj>, id: string)
    requires ToInt(id).Some?
    ensures var k := ToInt(id).value;
            var (res, after) := DeleteEffect(rows, id);
            if k in rows && UserModel.IsActive(rows[k]) then
              res.status == 200 && Get(res.body, "usuario") == Object(map["id" := Num(k), "nombre" := Get(rows[k], "Nombre"),
                                                                      "email" := Get(rows[k], "Email"), "activo" := Bool(false)]) &&
              after == rows[k := rows[k]["Activo" := Bool(false)]]
            else res == Message(404, DeleteNotFound) && after == rows
  {
    ConvertibleIdPassesGuard(id);
    Sql.SoftDeleteSpec(rows, id, "Activo");
  }

  /** Deleting twice: the second DELETE is 404 and leaves the table as the first left it. */
  lemma DeleteTwice(rows: map<int, Obj>, id: string)
    ensures var (res1, after1) := DeleteEffect(rows, id);
            res1.status == 200 ==> DeleteEffect(after1, id) == (Message(404, DeleteNotFound), after1)
  {
    ConvertibleIdPassesGuard(id);
    Sql.SoftDeleteSpec(rows, id, "Activo");
    Sql.SoftDeleteTwice(rows, id, "Activo");
  }
}
