/** The handlers of `UserController`: each turns what the user service settles to into a status and a JSON body. */
module UserController {
  import opened Js
  import opened Http
  import opened Sql
  import opened Errors
  import UserModel
  import UserService
  import opened UpdateBuilder

  const RegisteredMessage: string := "✅ Usuario registrado exitosamente."
  const RegisterInternal: string := "Error interno del servidor al registrar el usuario."
  const FoundMessage: string := "✅ Usuario encontrado exitosamente."
  const NotFoundMessage: string := "Usuario no encontrado."
  const NotFoundForUpdate: string := "Usuario no encontrado para actualizar."
  const NotFoundOrInactive: string := "Usuario no encontrado o ya estaba inactivo."

  function UpdatedMessage(id: string): string {
    "✅ Usuario (ID: " + id + ") ha sido actualizado exitosamente."
  }

  function DeactivatedMessage(id: string): string {
    "✅ Usuario (ID: " + id + ") ha sido desactivado (borrado lógico) exitosamente."
  }

  /** The 2xx body every handler sends: a message and the service's object under `usuario`. */
  function Success(status: int, message: string, u: Obj): Response {
    Response(status, map["message" := Str(message), "usuario" := Object(u)])
  }

  // ---------------------------------------------------------------------
  // register
  // ---------------------------------------------------------------------

  /**
   * `register`: 201 with the new user; on an error, 409 or 400 when the error carries that status and 500 otherwise;
   * only a 409 or 400 shows the service's message, but the `error` field always does.
   */
  function Register(o: Outcome<Obj>): (r: Response)
    ensures o.Returned? ==> r.status == 201 && Get(r.body, "usuario") == Object(o.value)
    ensures o.Threw? ==> r.body.Keys == {"message", "error"} && Get(r.body, "error") == Str(o.error.message)
    ensures o.Threw? ==> r.status in {409, 400, 500} &&
                         (r.status == 409 <==> o.error.cause == Some(409)) && (r.status == 400 <==> o.error.cause == Some(400))
    ensures o.Threw? && r.status != 500 ==> Get(r.body, "message") == Str(o.error.message)
    ensures o.Threw? && r.status == 500 ==> Get(r.body, "message") == Str(RegisterInternal)
  {
    match o
    case Returned(u) => Success(201, RegisteredMessage, u)
    case Threw(e) =>
      var status := ConflictOrBadRequest(e);
      var message := if status == 409 then e.message else if status == 400 then e.message else RegisterInternal;
      Envelope(status, Str(message), Str(e.message))
  }

  /**
   * POST /api/register end to end: missing fields are a 400, a taken email a 409, an unknown sector or role a 400, a
   * hash failure or any other store error a 500 with the generic message, and success a 201.
   */
  lemma RegisterAnswers(nextId: int, data: Obj, hashed: Option<Value>, fault: Option<string>)
    ensures var r := Register(UserService.RegisterReply(nextId, data, hashed, fault));
            (!UserService.HasRequired(data) ==> r.status == 400 && Get(r.body, "message") == Str(UserService.MissingFields)) &&
            (UserService.HasRequired(data) && hashed.None? ==>
               r == Envelope(500, Str(RegisterInternal), Str(UserService.HashFailed))) &&
            (UserService.HasRequired(data) && hashed.Some? && fault.None? ==> r.status == 201) &&
            (UserService.HasRequired(data) && hashed.Some? && fault.Some? ==>
               var m := fault.value;
               (Contains(m, UniqueKey) ==> r == Envelope(409, Str(UserService.EmailTaken), Str(UserService.EmailTaken))) &&
               (!Contains(m, UniqueKey) && Contains(m, ForeignKey) ==>
                  r == Envelope(400, Str(UserService.BadReference), Str(UserService.BadReference))) &&
               (!Contains(m, UniqueKey) && !Contains(m, ForeignKey) ==> r == Envelope(500, Str(RegisterInternal), Str(m))))
  {
    if UserService.HasRequired(data) && hashed.Some? && fault.Some? {
      UserService.RegisterErrors(nextId, data, hashed.value, fault.value);
    }
  }

  // ---------------------------------------------------------------------
  // getById
  // ---------------------------------------------------------------------

  /** `getById`: 200 with the user; on an error its status (500 when it has none) and, for a 404, a fixed message. */
  function GetById(o: Outcome<Obj>): (r: Response)
    ensures o.Returned? ==> r.status == 200 && Get(r.body, "usuario") == Object(o.value)
    ensures o.Threw? ==> r.status == StatusOr500(o.error) && r.body.Keys == {"message", "error"} &&
                         Get(r.body, "error") == Str(o.error.message)
    ensures o.Threw? ==> Get(r.body, "message") == Str(if r.status == 404 then NotFoundMessage else o.error.message)
  {
    match o
    case Returned(u) => Success(200, FoundMessage, u)
    case Threw(e) =>
      var status := StatusOr500(e);
      Envelope(status, Str(if status == 404 then NotFoundMessage else e.message), Str(e.message))
  }

  /** GET /api/users/:id end to end: 400 for an id that is not a number, 404 for no such user, else 200 with its profile. */
  lemma GetByIdAnswers(cat: UserModel.Catalog, rows: map<int, Obj>, id: string)
    ensures var r := GetById(UserService.GetUserById(cat, rows, id));
            (ParseIntIsNaN(Str(id)) ==> r == Envelope(400, Str(UserService.BadId), Str(UserService.BadId))) &&
            (ToInt(id).Some? ==>
               var k := ToInt(id).value;
               if k in rows && UserModel.RoleOf(cat, rows[k]).Some? then
                 r.status == 200 && Get(r.body, "usuario").Object? && Get(Get(r.body, "usuario").fields, "id") == Num(k)
               else r == Envelope(404, Str(NotFoundMessage), Str(UserService.NotFound)))
  {
    ConvertibleIdPassesGuard(id);
  }

  // ---------------------------------------------------------------------
  // update
  // ---------------------------------------------------------------------

  /** `update`: 200 naming the id; on an error its status (500 when it has none) and, for a 404, a fixed message. */
  function Update(id: string, o: Outcome<Obj>): (r: Response)
    ensures o.Returned? ==> r == Success(200, UpdatedMessage(id), o.value)
    ensures o.Threw? ==> r.status == StatusOr500(o.error) && r.body.Keys == {"message", "error"} &&
                         Get(r.body, "error") == Str(o.error.message)
    ensures o.Threw? ==> Get(r.body, "message") == Str(if r.status == 404 then NotFoundForUpdate else o.error.message)
  {
    match o
    case Returned(u) => Success(200, UpdatedMessage(id), u)
    case Threw(e) =>
      var status := StatusOr500(e);
      Envelope(status, Str(if status == 404 then NotFoundForUpdate else e.message), Str(e.message))
  }

  /**
   * PUT /api/users/:id end to end: an empty body is a 400 and a body that passes on a missing row a 404, both leaving
   * the table as it was; an id the database cannot convert reaches the client as a 500 carrying the database's text.
   */
  lemma UpdateAnswers(rows: map<int, Obj>, id: string, data: Obj, fault: Option<string>)
    ensures var e := UserService.UpdateEffect(rows, id, data, fault);
            UserService.NothingToUpdate(data) ==>
              e.rows == rows && Update(id, e.reply) == Envelope(400, Str(UserService.NoFields), Str(UserService.NoFields))
    ensures var e := UserService.UpdateEffect(rows, id, data, fault);
            !UserService.NothingToUpdate(data) && FirstInvalid(UserService.UpdateRules, data).None? &&
            ToInt(id).Some? && ToInt(id).value !in rows ==>
              e.rows == rows && Update(id, e.reply) == Envelope(404, Str(NotFoundForUpdate), Str(UserService.NotFoundForUpdate))
    ensures var e := UserService.UpdateEffect(rows, id, data, fault);
            !UserService.NothingToUpdate(data) && FirstInvalid(UserService.UpdateRules, data).None? &&
            ToInt(id).None? && 'K' !in id ==>
              e.rows == rows && Update(id, e.reply) == Envelope(500, Str(ConversionFailed(id)), Str(ConversionFailed(id)))
  {
    UserService.UpdateRejectsEarly(rows, id, data, fault);
    if !UserService.NothingToUpdate(data) && FirstInvalid(UserService.UpdateRules, data).None? {
      if ToInt(id).Some? && ToInt(id).value !in rows {
        UpdateMissingAnswers(rows, id, data, fault);
      } else if ToInt(id).None? && 'K' !in id {
        UpdateUncheckedAnswers(rows, id, data, fault);
      }
    }
  }

  lemma UpdateMissingAnswers(rows: map<int, Obj>, id: string, data: Obj, fault: Option<string>)
    requires !UserService.NothingToUpdate(data) && FirstInvalid(UserService.UpdateRules, data).None?
    requires ToInt(id).Some? && ToInt(id).value !in rows
    ensures var e := UserService.UpdateEffect(rows, id, data, fault);
            e.rows == rows && Update(id, e.reply) == Envelope(404, Str(NotFoundForUpdate), Str(UserService.NotFoundForUpdate))
  {
    UserService.UpdateMissingRow(rows, id, data, fault);
  }

  lemma UpdateUncheckedAnswers(rows: map<int, Obj>, id: string, data: Obj, fault: Option<string>)
    requires !UserService.NothingToUpdate(data) && FirstInvalid(UserService.UpdateRules, data).None?
    requires ToInt(id).None? && 'K' !in id
    ensures var e := UserService.UpdateEffect(rows, id, data, fault);
            e.rows == rows && Update(id, e.reply) == Envelope(500, Str(ConversionFailed(id)), Str(ConversionFailed(id)))
  {
    UserService.UpdateUncheckedId(rows, id, data, fault);
  }

  // ---------------------------------------------------------------------
  // softDelete
  // ---------------------------------------------------------------------

  /** `softDelete`: 200 naming the id; on an error its status (500 when it has none) and, for a 404, a fixed message. */
  function SoftDelete(id: string, o: Outcome<Obj>): (r: Response)
    ensures o.Returned? ==> r == Success(200, DeactivatedMessage(id), o.value)
    ensures o.Threw? ==> r.status == StatusOr500(o.error) && r.body.Keys == {"message", "error"} &&
                         Get(r.body, "error") == Str(o.error.message)
    ensures o.Threw? ==> Get(r.body, "message") == Str(if r.status == 404 then NotFoundOrInactive else o.error.message)
  {
    match o
    case Returned(u) => Success(200, DeactivatedMessage(id), u)
    case Threw(e) =>
      var status := StatusOr500(e);
      Envelope(status, Str(if status == 404 then NotFoundOrInactive else e.message), Str(e.message))
  }

  /**
   * DELETE /api/users/:id end to end: an active user is deactivated with a 200; asking again, or for a missing user,
   * is a 404 that changes nothing.
   */
  lemma SoftDeleteAnswers(rows: map<int, Obj>, id: string)
    requires ToInt(id).Some?
    ensures var e := UserService.DeactivateEffect(rows, id);
            var k := ToInt(id).value;
            if k in rows && UserModel.IsActive(rows[k]) then
              SoftDelete(id, e.reply).status == 200 && e.rows == rows[k := rows[k]["Activo" := Bool(false)]] &&
              SoftDelete(id, UserService.DeactivateEffect(e.rows, id).reply) ==
                Envelope(404, Str(NotFoundOrInactive), Str(UserService.NotFoundOrInactive))
            else
              e.rows == rows && SoftDelete(id, e.reply) ==
                Envelope(404, Str(NotFoundOrInactive), Str(UserService.NotFoundOrInactive))
  {
    UserService.DeactivateSpec(rows, id);
    var e := UserService.DeactivateEffect(rows, id);
    var k := ToInt(id).value;
    if k in rows && UserModel.IsActive(rows[k]) {
      UserService.DeactivateSpec(e.rows, id);
      assert !UserModel.IsActive(e.rows[k]);
    }
  }
}
