/** The handlers of `AbonadoController`: each turns what the subscriber service settles to into a status and a JSON body. */
module AbonadoController {
  import opened Js
  import opened Http
  import opened Sql
  import opened UpdateBuilder
  import opened Errors
  import AbonadoModel
  import AbonadoService

  const CreatedMessage: string := "✅ Abonado creado exitosamente."
  const FoundMessage: string := "✅ Abonado encontrado exitosamente."
  const NotFoundMessage: string := "Abonado no encontrado."
  const NotFoundForUpdate: string := "Abonado no encontrado para actualizar."
  const NotFoundOrInactive: string := "Abonado no encontrado o ya estaba inactivo."

  function UpdatedMessage(id: string): string {
    "✅ Abonado (ID: " + id + ") ha sido actualizado exitosamente."
  }

  function DeactivatedMessage(id: string): string {
    "✅ Abonado (ID: " + id + ") ha sido desactivado (borrado lógico) exitosamente."
  }

  /** The 2xx body every handler sends: a message and the service's object under `abonado`. */
  function Success(status: int, message: string, a: Obj): Response {
    Response(status, map["message" := Str(message), "abonado" := Object(a)])
  }

  // ---------------------------------------------------------------------
  // create
  // ---------------------------------------------------------------------

  /** `create`: 201 with the new subscriber; on an error 409 or 400 when it carries that status, else 500, always with its message. */
  function Create(o: Outcome<Obj>): (r: Response)
    ensures o.Returned? ==> r.status == 201 && Get(r.body, "abonado") == Object(o.value)
    ensures o.Threw? ==> r == Envelope(r.status, Str(o.error.message), Str(o.error.message))
    ensures o.Threw? ==> r.status in {409, 400, 500} &&
                         (r.status == 409 <==> o.error.cause == Some(409)) && (r.status == 400 <==> o.error.cause == Some(400))
  {
    match o
    case Returned(a) => Success(201, CreatedMessage, a)
    case Threw(e) => Envelope(ConflictOrBadRequest(e), Str(e.message), Str(e.message))
  }

  /**
   * POST /api/abonados end to end: missing fields are a 400, a taken DNI a 409, an unknown zone or seller a 400, and any
   * other store error a 500 that shows the database's own text.
   */
  lemma CreateAnswers(nextId: int, data: Obj, fault: Option<string>)
    ensures var r := Create(AbonadoService.CreateReply(nextId, data, fault));
            (!AbonadoService.HasRequired(data) ==>
               r == Envelope(400, Str(AbonadoService.MissingFields), Str(AbonadoService.MissingFields))) &&
            (AbonadoService.HasRequired(data) && fault.None? ==> r.status == 201) &&
            (AbonadoService.HasRequired(data) && fault.Some? ==>
               var m := fault.value;
               (Contains(m, UniqueKey) ==> r == Envelope(409, Str(AbonadoService.DniTaken), Str(AbonadoService.DniTaken))) &&
               (!Contains(m, UniqueKey) && Contains(m, ForeignKey) ==>
                  r == Envelope(400, Str(AbonadoService.BadReference), Str(AbonadoService.BadReference))) &&
               (!Contains(m, UniqueKey) && !Contains(m, ForeignKey) ==> r == Envelope(500, Str(m), Str(m))))
  {
    if AbonadoService.HasRequired(data) && fault.Some? {
      AbonadoService.CreateErrors(nextId, data, fault.value);
    }
  }

  // ---------------------------------------------------------------------
  // getById
  // ---------------------------------------------------------------------

  /** `getById`: 200 with the subscriber; on an error its status (500 when it has none) and, for a 404, a fixed message. */
  function GetById(o: Outcome<Obj>): (r: Response)
    ensures o.Returned? ==> r == Success(200, FoundMessage, o.value)
    ensures o.Threw? ==> r.status == StatusOr500(o.error) && r.body.Keys == {"message", "error"} &&
                         Get(r.body, "error") == Str(o.error.message)
    ensures o.Threw? ==> Get(r.body, "message") == Str(if r.status == 404 then NotFoundMessage else o.error.message)
  {
    match o
    case Returned(a) => Success(200, FoundMessage, a)
    case Threw(e) =>
      var status := StatusOr500(e);
      Envelope(status, Str(if status == 404 then NotFoundMessage else e.message), Str(e.message))
  }

  /** GET /api/abonados/:id end to end: 400 for an id that is not a number, 404 for no such row, else 200 with its details. */
  lemma GetByIdAnswers(rows: map<int, Obj>, id: string)
    ensures var r := GetById(AbonadoService.GetAbonadoById(rows, id));
            (ParseIntIsNaN(Str(id)) ==> r == Envelope(400, Str(AbonadoService.BadId), Str(AbonadoService.BadId))) &&
            (ToInt(id).Some? ==>
               var k := ToInt(id).value;
               if k in rows then r == Success(200, FoundMessage, AbonadoModel.DetailView(k, rows[k]))
               else r == Envelope(404, Str(NotFoundMessage), Str(AbonadoService.NotFound)))
  {
    ConvertibleIdPassesGuard(id);
  }

  // ---------------------------------------------------------------------
  // update
  // ---------------------------------------------------------------------

  /** `update`: 200 naming the id; on an error its status (500 when it has none) and, for a 404, a fixed message. */
  function Update(id: string, o: Outcome<Obj>): (r: Response)
    ensures o.Returned? ==> r == Success(200, UpdatedMessage(id), o.value)
    ensures o.Threw? ==> r.status == StatusOr500(o.error) && r.body.Keys == {"message", "error"} &&
                         Get(r.body, "error") == Str(o.error.message)
    ensures o.Threw? ==> Get(r.body, "message") == Str(if r.status == 404 then NotFoundForUpdate else o.error.message)
  {
    match o
    case Returned(a) => Success(200, UpdatedMessage(id), a)
    case Threw(e) =>
      var status := StatusOr500(e);
      Envelope(status, Str(if status == 404 then NotFoundForUpdate else e.message), Str(e.message))
  }

  /** PUT /api/abonados/:id with a non-numeric id: a 400 that changes nothing. */
  lemma UpdateBadId(rows: map<int, Obj>, id: string, data: Obj, fault: Option<string>)
    requires ParseIntIsNaN(Str(id))
    ensures var e := AbonadoService.UpdateEffect(rows, id, data, fault);
            e.rows == rows && Update(id, e.reply) == Envelope(400, Str(AbonadoService.BadId), Str(AbonadoService.BadId))
  {
    AbonadoService.UpdateRejectsEarly(rows, id, data, fault);
  }

  /**
   * PUT /api/abonados/:id with a column given under both its names: a 500 carrying the database's complaint about the
   * repeated column, and the table unchanged.
   */
  lemma UpdateCollision(rows: map<int, Obj>, id: string, data: Obj, fault: Option<string>)
    requires !ParseIntIsNaN(Str(id)) && AbonadoService.AliasCollision(data)
    ensures FirstDuplicate(Columns(AbonadoService.SetList(data))).Some?
    ensures var e := AbonadoService.UpdateEffect(rows, id, data, fault);
            var m := DuplicateColumnMessage(FirstDuplicate(Columns(AbonadoService.SetList(data))).value);
            e.rows == rows && Update(id, e.reply) == Envelope(500, Str(m), Str(m))
  {
    AbonadoService.AliasesCollide(rows, id, data, fault);
    var e := AbonadoService.UpdateEffect(rows, id, data, fault);
    var m := DuplicateColumnMessage(FirstDuplicate(Columns(AbonadoService.SetList(data))).value);
    assert e.reply == Threw(Raise(m));
  }

  /** PUT /api/abonados/:id on a missing row, once the SET list is accepted: a 404 that changes nothing. */
  lemma UpdateMissing(rows: map<int, Obj>, id: string, data: Obj, fault: Option<string>)
    requires !AbonadoService.AliasCollision(data) && |Fragments(AbonadoService.UpdateRules, data)| > 0
    requires ToInt(id).Some? && ToInt(id).value !in rows
    ensures var e := AbonadoService.UpdateEffect(rows, id, data, fault);
            e.rows == rows &&
            Update(id, e.reply) == Envelope(404, Str(NotFoundForUpdate), Str(AbonadoService.NotFoundForUpdate))
  {
    AbonadoService.UpdateMissingRow(rows, id, data, fault);
  }

  /** On an existing subscriber a RUT clash is a 409; any other store error is a 500 showing the database's text. */
  lemma UpdateFaults(rows: map<int, Obj>, id: string, data: Obj, m: string)
    requires !AbonadoService.AliasCollision(data) && |Fragments(AbonadoService.UpdateRules, data)| > 0
    requires ToInt(id).Some? && ToInt(id).value in rows
    ensures var e := AbonadoService.UpdateEffect(rows, id, data, Some(m));
            e.rows == rows &&
            (Contains(m, UniqueKey) ==>
               Update(id, e.reply) == Envelope(409, Str(AbonadoService.RutInUse), Str(AbonadoService.RutInUse))) &&
            (!Contains(m, UniqueKey) ==> Update(id, e.reply) == Envelope(500, Str(m), Str(m)))
  {
    AbonadoService.UpdateErrors(rows, id, data, m);
  }

  // ---------------------------------------------------------------------
  // softDelete
  // ---------------------------------------------------------------------

  /** `softDelete`: 200 naming the id; on an error its status (500 when it has none) and, for a 404, a fixed message. */
  function SoftDelete(id: string, o: Outcome<Obj>): (r: Response)
    ensures o.Returned? ==> r == Success(200, DeactivatedMessage(id), o.value)
    ensures o.Threw? ==> r.status == StatusOr500(o.error) && r.body.Keys == {"message", "error"} &&
                         Get(r.body, "error") == Str(o.error.message)
    ensures o.Threw? ==> Get(r.body, "message") == Str(if r.status == 404 then NotFoundOrInactive else o.error.message)
  {
    match o
    case Returned(a) => Success(200, DeactivatedMessage(id), a)
    case Threw(e) =>
      var status := StatusOr500(e);
      Envelope(status, Str(if status == 404 then NotFoundOrInactive else e.message), Str(e.message))
  }

  /**
   * DELETE /api/abonados/:id end to end: an active subscriber is deactivated with a 200; asking again, or for a missing
   * one, is a 404 that changes nothing.
   */
  lemma SoftDeleteAnswers(rows: map<int, Obj>, id: string)
    requires ToInt(id).Some?
    ensures var e := AbonadoService.DeactivateEffect(rows, id);
            var k := ToInt(id).value;
            if k in rows && AsInt(Get(rows[k], "Activo")) == Some(1) then
              SoftDelete(id, e.reply).status == 200 && e.rows == rows[k := rows[k]["Activo" := Bool(false)]] &&
              SoftDelete(id, AbonadoService.DeactivateEffect(e.rows, id).reply) ==
                Envelope(404, Str(NotFoundOrInactive), Str(AbonadoService.NotFoundOrInactive))
            else
              e.rows == rows && SoftDelete(id, e.reply) ==
                Envelope(404, Str(NotFoundOrInactive), Str(AbonadoService.NotFoundOrInactive))
  {
    AbonadoService.DeactivateSpec(rows, id);
    var e := AbonadoService.DeactivateEffect(rows, id);
    var k := ToInt(id).value;
    if k in rows && AsInt(Get(rows[k], "Activo")) == Some(1) {
      AbonadoService.DeactivateSpec(e.rows, id);
      assert AsInt(e.rows[k]["Activo"]) != Some(1);
    }
  }
}
