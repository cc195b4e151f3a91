/** The two middlewares of the routers: bearer-token verification and the role gate. */
module AuthMiddleware {
  import opened Js
  import opened Http
  import opened Jwt

  const MissingToken: string := "Acceso denegado. Se requiere un token de autenticación."
  const InvalidToken: string := "Token de autenticación inválido o expirado."
  const NoRole: string := "Acceso denegado. Rol de usuario no encontrado."
  const NotPermitted: string := "Acceso denegado. No tiene los permisos necesarios."
  /** What calling `toLowerCase` on a role that is not a string throws. */
  const NotAFunction: string := "userRole.toLowerCase is not a function"

  /** The allow-list of the user, abonado and device routers. */
  const GeneralAdminOnly: seq<string> := ["Administrador General"]
  /** The allow-list of the work-order, event and device-model routers. */
  const AdminOnly: seq<string> := ["Administrador"]

  // ---------------------------------------------------------------------
  // authHeader.split(' ')[1]
  // ---------------------------------------------------------------------

  /** The index of the first space of a string that has one. */
  function FirstSpace(s: string): (i: nat)
    requires ' ' in s
    ensures i < |s| && s[i] == ' ' && ' ' !in s[..i]
  {
    if s[0] == ' ' then 0
    else
      assert ' ' in s[1..] by { var j :| 0 <= j < |s| && s[j] == ' '; assert s[1..][j - 1] == ' '; }
      var i := 1 + FirstSpace(s[1..]);
      assert s[..i] == [s[0]] + s[1..][..i - 1];
      i
  }

  /** `s.split(' ')`: the pieces between single spaces, empty ones included. */
  function Fields(s: string): (r: seq<string>)
    ensures |r| >= 1
    ensures forall i :: 0 <= i < |r| ==> ' ' !in r[i]
    decreases |s|
  {
    if ' ' !in s then [s]
    else
      var i := FirstSpace(s);
      [s[..i]] + Fields(s[i + 1..])
  }

  /** `fields.join(' ')` */
  function Join(fields: seq<string>): string
    requires |fields| >= 1
  {
    if |fields| == 1 then fields[0] else fields[0] + " " + Join(fields[1..])
  }

  /** Splitting at spaces loses nothing: joining the pieces again gives back the header. */
  lemma {:induction false} JoinFields(s: string)
    ensures Join(Fields(s)) == s
    decreases |s|
  {
    if ' ' in s {
      var i := FirstSpace(s);
      JoinFields(s[i + 1..]);
      assert Fields(s)[1..] == Fields(s[i + 1..]);
      assert s == s[..i] + " " + s[i + 1..];
    }
  }

  /** The first space after a space-free word is the one right behind it. */
  lemma SpaceAfter(scheme: string, s: string, i: nat)
    requires ' ' !in scheme && |s| > |scheme| && s[..|scheme|] == scheme && s[|scheme|] == ' '
    requires i < |s| && s[i] == ' ' && ' ' !in s[..i]
    ensures i == |scheme|
  {
    assert forall j :: 0 <= j < |scheme| ==> s[j] == scheme[j] && s[j] != ' ';
    assert i >= |scheme|;
    assert forall j :: 0 <= j < i ==> s[..i][j] == s[j] && s[j] != ' ';
    assert i <= |scheme|;
  }

  /** A word, one space and a second word split into exactly those two words. */
  lemma SchemeAndToken(scheme: string, token: string)
    requires ' ' !in scheme && ' ' !in token
    ensures Fields(scheme + " " + token) == [scheme, token]
  {
    var s := scheme + " " + token;
    assert s[|scheme|] == ' ';
    assert s[..|scheme|] == scheme;
    assert s[|scheme| + 1..] == token;
    SpaceAfter(scheme, s, FirstSpace(s));
  }

  /** `const token = authHeader && authHeader.split(' ')[1];` (a missing header reads as undefined) */
  function Token(header: Option<string>): (v: Value)
    ensures v == Undefined || v.Str?
    ensures header == Some("") ==> v == Str("")
    ensures header.Some? && header.value != "" && |Fields(header.value)| >= 2 ==> v == Str(Fields(header.value)[1])
  {
    match header
    case None => Undefined
    case Some(h) =>
      if h == "" then Str("")
      else
        var f := Fields(h);
        if |f| >= 2 then Str(f[1]) else Undefined
  }

  /** The token is the second space-separated field, whatever the first word is. */
  lemma AnySchemeWord(scheme: string, token: string)
    requires ' ' !in scheme && ' ' !in token
    ensures Token(Some(scheme + " " + token)) == Str(token)
  {
    SchemeAndToken(scheme, token);
  }

  /** A non-empty header without a space has no second field. */
  lemma NoSpaceNoToken(h: string)
    requires h != "" && ' ' !in h
    ensures Token(Some(h)) == Undefined
  {
  }

  // ---------------------------------------------------------------------
  // verifyToken
  // ---------------------------------------------------------------------

  /** What a middleware does with a request: let it through (with the value for `req.user`), answer it, or throw. */
  datatype Gate = Pass(user: Value) | Reject(response: Response) | Crash(error: Exception)

  /** `verifyToken` of the routers: no token or an empty one is 401, a token the verifier refuses is 401 too. */
  function Verify(header: Option<string>, secret: string, verify: Verifier): (g: Gate)
    ensures !Truthy(Token(header)) ==> g == Reject(Message(401, MissingToken))
    ensures g.Pass? <==> Truthy(Token(header)) && verify(Token(header).s, secret).Some?
    ensures g.Pass? ==> g.user == verify(Token(header).s, secret).value
    ensures Truthy(Token(header)) && verify(Token(header).s, secret).None? ==> g == Reject(Message(401, InvalidToken))
  {
    var token := Token(header);
    if !Truthy(token) then Reject(Message(401, MissingToken))
    else
      match verify(token.s, secret)
      case None => Reject(Message(401, InvalidToken))
      case Some(decoded) => Pass(decoded)
  }

  /** Apply a gate to a request: `req.user` and `next()` on Pass, one response on Reject, nothing on Crash. */
  method Apply(req: Request, g: Gate, setsUser: bool)
    modifies req
    ensures g.Pass? ==> req.user == (if setsUser then g.user else old(req.user)) && req.nextCalls == old(req.nextCalls) + 1 &&
                        req.responses == old(req.responses)
    ensures g.Reject? ==> req.user == old(req.user) && req.nextCalls == old(req.nextCalls) &&
                          req.responses == old(req.responses) + [g.response]
    ensures g.Crash? ==> req.user == old(req.user) && req.nextCalls == old(req.nextCalls) && req.responses == old(req.responses)
  {
    match g
    case Pass(u) =>
      if setsUser {
        req.user := u;
      }
      req.Next();
    case Reject(r) => req.Send(r);
    case Crash(_) =>
  }

  /** `exports.verifyToken` with the secret of the environment `env`. */
  method VerifyToken(req: Request, env: Option<string>, verify: Verifier)
    modifies req
    ensures var g := Verify(req.authorization, Secret(env), verify);
            (g.Pass? ==> req.user == g.user && req.nextCalls == old(req.nextCalls) + 1 && req.responses == old(req.responses)) &&
            (g.Reject? ==> req.user == old(req.user) && req.nextCalls == old(req.nextCalls) &&
                           req.responses == old(req.responses) + [g.response])
  {
    var g := Verify(req.authorization, Secret(env), verify);
    Apply(req, g, true);
  }

  /** Without a usable token the verifier is never consulted: two verifiers give the same 401. */
  lemma MissingTokenSkipsVerifier(header: Option<string>, secret: string, v1: Verifier, v2: Verifier)
    requires header.None? || header == Some("") || (' ' !in header.value) || Fields(header.value)[1] == ""
    ensures Verify(header, secret, v1) == Verify(header, secret, v2) == Reject(Message(401, MissingToken))
  {
  }

  /** 'Bearer ' and a double space both leave an empty second field, so both are refused as missing. */
  lemma EmptySecondField(scheme: string, rest: string)
    requires ' ' !in scheme
    ensures Token(Some(scheme + " ")) == Str("")
    ensures Token(Some(scheme + "  " + rest)) == Str("")
  {
    assert scheme + " " == scheme + " " + "";
    SchemeAndToken(scheme, "");
    var s2 := scheme + "  " + rest;
    assert s2[|scheme|] == ' ' && s2[..|scheme|] == scheme;
    var i := FirstSpace(s2);
    SpaceAfter(scheme, s2, i);
    var tail := s2[i + 1..];
    assert tail == " " + rest;
    assert FirstSpace(tail) == 0;
    assert Fields(tail)[0] == tail[..0] == "";
    assert Fields(s2) == [s2[..i]] + Fields(tail);
  }

  // ---------------------------------------------------------------------
  // checkRole
  // ---------------------------------------------------------------------

  /** `rolesPermitidos.map(r => r.toLowerCase())` */
  function LowerAll(allowed: seq<string>): (r: seq<string>)
    ensures |r| == |allowed| && forall i :: 0 <= i < |allowed| ==> r[i] == Lower(allowed[i])
  {
    seq(|allowed|, i requires 0 <= i < |allowed| => Lower(allowed[i]))
  }

  /** `checkRole(rolesPermitidos)` applied to `req.user`. */
  function CheckRole(allowed: seq<string>, user: Value): (g: Gate)
    ensures g.Pass? ==> g.user == user
  {
    var rol := Prop(user, "rol");
    if !Truthy(user) || !Truthy(rol) then Reject(Message(403, NoRole))
    else if !rol.Str? then Crash(Exception(TypeError, NotAFunction, None))
    else if Lower(rol.s) !in LowerAll(allowed) then Reject(Message(403, NotPermitted))
    else Pass(user)
  }

  /** The gate admits exactly a user whose role equals, ignoring case, one of the allowed names as a whole string. */
  lemma CheckRoleAdmits(allowed: seq<string>, user: Value)
    ensures CheckRole(allowed, user).Pass? <==>
              Prop(user, "rol").Str? && Prop(user, "rol").s != "" &&
              exists i :: 0 <= i < |allowed| && Lower(allowed[i]) == Lower(Prop(user, "rol").s)
    ensures !Truthy(user) || !Truthy(Prop(user, "rol")) ==> CheckRole(allowed, user) == Reject(Message(403, NoRole))
  {
    var rol := Prop(user, "rol");
    if rol.Str? && rol.s != "" && (exists i :: 0 <= i < |allowed| && Lower(allowed[i]) == Lower(rol.s)) {
      var i :| 0 <= i < |allowed| && Lower(allowed[i]) == Lower(rol.s);
      assert LowerAll(allowed)[i] == Lower(rol.s);
      assert Truthy(user) by { assert user.Object?; }
    }
  }

  /** `checkRole` in a route's chain: `next()` when admitted, a 403 otherwise; it never touches `req.user`. */
  method CheckRoleOn(req: Request, allowed: seq<string>)
    modifies req
    ensures var g := CheckRole(allowed, old(req.user));
            req.user == old(req.user) &&
            (g.Pass? ==> req.nextCalls == old(req.nextCalls) + 1 && req.responses == old(req.responses)) &&
            (g.Reject? ==> req.nextCalls == old(req.nextCalls) && req.responses == old(req.responses) + [g.response])
  {
    Apply(req, CheckRole(allowed, req.user), false);
  }

  /** A user object whose `rol` is `name`. */
  function WithRole(name: string): Value {
    Object(map["rol" := Str(name)])
  }

  /** The two administrator roles lock each other out of the other's routers. */
  lemma AdminRolesDisjoint()
    ensures CheckRole(GeneralAdminOnly, WithRole("Administrador")) == Reject(Message(403, NotPermitted))
    ensures CheckRole(AdminOnly, WithRole("Administrador General")) == Reject(Message(403, NotPermitted))
    ensures CheckRole(GeneralAdminOnly, WithRole("Administrador General")).Pass?
    ensures CheckRole(AdminOnly, WithRole("Administrador")).Pass?
  {
    assert |Lower("Administrador")| == 13 && |Lower("Administrador General")| == 21;
    assert LowerAll(GeneralAdminOnly) == [Lower("Administrador General")];
    assert LowerAll(AdminOnly) == [Lower("Administrador")];
    assert Truthy(WithRole("Administrador")) && Truthy(WithRole("Administrador General"));
    assert Prop(WithRole("Administrador"), "rol") == Str("Administrador");
    assert Prop(WithRole("Administrador General"), "rol") == Str("Administrador General");
  }

  /**
   * A token the login signed, sent as `<scheme> <token>`, passes `verifyToken` with the decoded payload as `req.user`;
   * that payload carries every claim, and the role gate then decides by the `rol` claim alone.
   */
  lemma SignedTokenAdmitted(scheme: string, claims: Obj, env: Option<string>, sign: Signer, verify: Verifier,
                            allowed: seq<string>)
    requires ' ' !in scheme
    requires var token := sign(claims, Secret(env), "1h"); token != "" && ' ' !in token
    requires Accepts(verify, sign, claims, Secret(env), "1h")
    ensures var g := Verify(Some(scheme + " " + sign(claims, Secret(env), "1h")), Secret(env), verify);
            var byRole := CheckRole(allowed, Object(map["rol" := Get(claims, "rol")]));
            g == Pass(verify(sign(claims, Secret(env), "1h"), Secret(env)).value) &&
            (forall k :: k in claims ==> Prop(g.user, k) == claims[k]) &&
            (CheckRole(allowed, g.user).Pass? <==> byRole.Pass?) &&
            (!byRole.Pass? ==> CheckRole(allowed, g.user) == byRole)
  {
    var token := sign(claims, Secret(env), "1h");
    AnySchemeWord(scheme, token);
    var user := verify(token, Secret(env)).value;
    assert "rol" !in AddedClaims;
    assert Prop(user, "rol") == Get(claims, "rol") == Prop(Object(map["rol" := Get(claims, "rol")]), "rol");
  }
}
