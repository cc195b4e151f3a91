/** The work-order service: creation, lookup by id, partial update and finalization of orders (OT). */
module AsignacionService {
  import opened Js
  import opened Sql
  import opened UpdateBuilder
  import opened Errors
  import AsignacionModel

  const MissingFields: string := "Faltan campos obligatorios: ID_Direccion, ID_Tecnico, TipoOT y FechaProgramada."
  const BadReference: string := "El ID de Dirección o el ID de Técnico no existen."
  const BadId: string := "El ID de asignación debe ser un número válido."
  const NotFound: string := "Asignación/Orden de Trabajo no encontrada."
  const NoFields: string := "Se requiere al menos un campo para actualizar."
  const NotFoundForUpdate: string := "Orden de Trabajo" + " no encontrada para actualizar."
  const NotFoundOrFinished: string := "Orden de Trabajo no encontrada o ya estaba finalizada."

  // ---------------------------------------------------------------------
  // createAsignacion
  // ---------------------------------------------------------------------

  /** `if (!ID_Direccion || !ID_Tecnico || !TipoOT || !FechaProgramada)`: Descripcion and Estado are optional. */
  predicate HasRequired(data: Obj) {
    Truthy(Get(data, "ID_Direccion")) && Truthy(Get(data, "ID_Tecnico")) && Truthy(Get(data, "TipoOT")) &&
    Truthy(Get(data, "FechaProgramada"))
  }

  const CreateClauses: seq<Clause> := [Clause(ForeignKey, BadReference, 400)]

  /** What `createAsignacion` settles to when the next identity value is `nextId` and the insert raises `fault`, if anything. */
  function CreateReply(nextId: int, data: Obj, fault: Option<string>): (r: Outcome<Obj>)
    ensures !HasRequired(data) ==> r == Threw(Fail(MissingFields, 400))
    ensures r.Returned? <==> HasRequired(data) && fault.None?
    ensures r.Returned? ==>
              r.value == map["ID_Asignacion" := Num(nextId), "ID_Direccion" := Get(data, "ID_Direccion"),
                             "ID_Tecnico" := Get(data, "ID_Tecnico"), "TipoOT" := Get(data, "TipoOT"),
                             "FechaProgramada" := Get(data, "FechaProgramada")]
  {
    if !HasRequired(data) then Threw(Fail(MissingFields, 400))
    else
      Catch(CreateClauses,
            if fault.Some? then Threw(Raise(fault.value))
            else Returned(AsignacionModel.CreatedView(nextId, AsignacionModel.NewRow(data))))
  }

  method CreateAsignacion(t: Table, data: Obj, fault: Option<string>) returns (r: Outcome<Obj>)
    requires t.Valid()
    modifies t
    ensures t.Valid()
    ensures r == CreateReply(old(t.nextId), data, fault)
    ensures r.Returned? ==> t.rows == old(t.rows)[old(t.nextId) := AsignacionModel.NewRow(data)]
    ensures r.Threw? ==> t.rows == old(t.rows)
  {
    if !HasRequired(data) {
      return Threw(Fail(MissingFields, 400));
    }
    var created := AsignacionModel.Create(t, data, fault);
    match created
    case Threw(e) => r := Threw(Reclassify(CreateClauses, e));
    case Returned(a) => r := created;
  }

  /** A store error on create becomes 400 on a foreign-key violation and otherwise passes unchanged. */
  lemma CreateErrors(nextId: int, data: Obj, m: string)
    requires HasRequired(data)
    ensures var r := CreateReply(nextId, data, Some(m));
            (Contains(m, ForeignKey) ==> r == Threw(Fail(BadReference, 400))) &&
            (!Contains(m, ForeignKey) ==> r == Threw(Raise(m)))
  {
    ReclassifySpec(CreateClauses, Raise(m));
  }

  /** An order created without an Estado is stored as 'Programada'. */
  lemma CreateSchedules(nextId: int, data: Obj)
    requires HasRequired(data) && Get(data, "Estado") == Undefined
    ensures CreateReply(nextId, data, None).Returned?
    ensures Get(AsignacionModel.NewRow(data), "Estado") == Str(AsignacionModel.Programada)
  {
  }

  // ---------------------------------------------------------------------
  // getAsignacionById
  // ---------------------------------------------------------------------

  function GetAsignacionById(rows: map<int, Obj>, id: string): (r: Outcome<Obj>)
    ensures ParseIntIsNaN(Str(id)) ==> r == Threw(Fail(BadId, 400))
    ensures r.Returned? <==> ToInt(id).Some? && ToInt(id).value in rows
    ensures r.Returned? ==> r.value == AsignacionModel.DetailView(ToInt(id).value, rows[ToInt(id).value])
    ensures ToInt(id).Some? && !r.Returned? ==> r == Threw(Fail(NotFound, 404))
  {
    ConvertibleIdPassesGuard(id);
    if ParseIntIsNaN(Str(id)) then Threw(Fail(BadId, 400))
    else Found(AsignacionModel.FindById(rows, id), NotFound)
  }

  // ---------------------------------------------------------------------
  // updateAsignacion
  // ---------------------------------------------------------------------

  const UpdateRules: seq<Rule> := [
    Rule("ID_Direccion", "ID_Direccion", IfTruthy, None),
    Rule("ID_Tecnico", "ID_Tecnico", IfTruthy, None),
    Rule("TipoOT", "TipoOT", IfTruthy, None),
    Rule("Descripcion", "Descripcion", IfTruthy, None),
    Rule("FechaProgramada", "FechaProgramada", IfTruthy, None),
    Rule("Estado", "Estado", IfTruthy, None)
  ]

  /** The six pushes of `updateAsignacion`, in rule order. */
  method BuildUpdate(data: Obj) returns (b: Built)
    ensures Build(UpdateRules, data) == Returned(b)
  {
    var updates, params := Push0To2(data, [], []);
    updates, params := Push3To5(data, updates, params);
    Finish(UpdateRules, data, updates, params);
    b := Built(updates, params);
  }

  /** The pushes for ID_Direccion, ID_Tecnico and TipoOT. */
  method Push0To2(data: Obj, updates0: seq<string>, params0: seq<Value>) returns (updates: seq<string>, params: seq<Value>)
    requires Upto(UpdateRules, 0, data, updates0, params0)
    ensures Upto(UpdateRules, 3, data, updates, params)
  {
    updates, params := updates0, params0;
    ghost var u0, p0 := updates, params;
    assert Fragment("ID_Direccion") == "ID_Direccion = ?";
    if Truthy(Get(data, "ID_Direccion")) {
      updates := updates + ["ID_Direccion = ?"];
      params := params + [Get(data, "ID_Direccion")];
    }
    Advance(UpdateRules, 0, data, u0, p0, updates, params);
    ghost var u1, p1 := updates, params;
    assert Fragment("ID_Tecnico") == "ID_Tecnico = ?";
    if Truthy(Get(data, "ID_Tecnico")) {
      updates := updates + ["ID_Tecnico = ?"];
      params := params + [Get(data, "ID_Tecnico")];
    }
    Advance(UpdateRules, 1, data, u1, p1, updates, params);
    ghost var u2, p2 := updates, params;
    assert Fragment("TipoOT") == "TipoOT = ?";
    if Truthy(Get(data, "TipoOT")) {
      updates := updates + ["TipoOT = ?"];
      params := params + [Get(data, "TipoOT")];
    }
    Advance(UpdateRules, 2, data, u2, p2, updates, params);
  }

  /** The pushes for Descripcion, FechaProgramada and Estado. */
  method Push3To5(data: Obj, updates0: seq<string>, params0: seq<Value>) returns (updates: seq<string>, params: seq<Value>)
    requires Upto(UpdateRules, 3, data, updates0, params0)
    ensures Upto(UpdateRules, 6, data, updates, params)
  {
    updates, params := updates0, params0;
    ghost var u3, p3 := updates, params;
    assert Fragment("Descripcion") == "Descripcion = ?";
    if Truthy(Get(data, "Descripcion")) {
      updates := updates + ["Descripcion = ?"];
      params := params + [Get(data, "Descripcion")];
    }
    Advance(UpdateRules, 3, data, u3, p3, updates, params);
    ghost var u4, p4 := updates, params;
    assert Fragment("FechaProgramada") == "FechaProgramada = ?";
    if Truthy(Get(data, "FechaProgramada")) {
      updates := updates + ["FechaProgramada = ?"];
      params := params + [Get(data, "FechaProgramada")];
    }
    Advance(UpdateRules, 4, data, u4, p4, updates, params);
    ghost var u5, p5 := updates, params;
    assert Fragment("Estado") == "Estado = ?";
    if Truthy(Get(data, "Estado")) {
      updates := updates + ["Estado = ?"];
      params := params + [Get(data, "Estado")];
    }
    Advance(UpdateRules, 5, data, u5, p5, updates, params);
  }

  /** The catch block of `updateAsignacion`: the same foreign-key reply as on create. */
  const UpdateClauses: seq<Clause> := [Clause(ForeignKey, BadReference, 400)]

  /** What the update settles to, and the table after it. */
  function UpdateEffect(rows: map<int, Obj>, id: string, data: Obj, fault: Option<string>): Effect<Obj> {
    var updates := Fragments(UpdateRules, data);
    var params := Params(UpdateRules, data);
    if ParseIntIsNaN(Str(id)) then Effect(Threw(Fail(BadId, 400)), rows)
    else if |updates| == 0 then Effect(Threw(Fail(NoFields, 400)), rows)
    else
      var e := AsignacionModel.UpdateEffect(rows, id, updates, params, fault);
      Effect(Catch(UpdateClauses, Found(e.reply, NotFoundForUpdate)), e.rows)
  }

  method UpdateAsignacion(t: Table, id: string, data: Obj, fault: Option<string>) returns (r: Outcome<Obj>)
    requires t.Valid()
    modifies t
    ensures t.Valid() && t.nextId == old(t.nextId)
    ensures Effect(r, t.rows) == UpdateEffect(old(t.rows), id, data, fault)
  {
    if ParseIntIsNaN(Str(id)) {
      return Threw(Fail(BadId, 400));
    }
    var b := BuildUpdate(data);
    assert b == Built(Fragments(UpdateRules, data), Params(UpdateRules, data));
    if |b.updates| == 0 {
      return Threw(Fail(NoFields, 400));
    }
    var params := new JsArray(b.params);
    var updated := AsignacionModel.Update(t, id, b.updates, params, fault);
    r := Catch(UpdateClauses, Found(updated, NotFoundForUpdate));
  }

  /** The update fails with 400 before any store call for a non-numeric id, and then when no rule takes part. */
  lemma UpdateRejectsEarly(rows: map<int, Obj>, id: string, data: Obj, fault: Option<string>)
    ensures ParseIntIsNaN(Str(id)) ==> UpdateEffect(rows, id, data, fault) == Effect(Threw(Fail(BadId, 400)), rows)
    ensures !ParseIntIsNaN(Str(id)) && (forall i :: 0 <= i < |UpdateRules| ==> !Included(UpdateRules[i], data)) ==>
              UpdateEffect(rows, id, data, fault) == Effect(Threw(Fail(NoFields, 400)), rows)
  {
    EmptyIffNoneIncluded(UpdateRules, data);
  }

  /** The six rules write six different columns. */
  lemma RuleColumnsDistinct()
    ensures DistinctColumns(UpdateRules)
  {
  }

  /** With at least one rule taking part the SET list is accepted: non-empty, with distinct columns. */
  lemma UpdateSetWellFormed(data: Obj)
    requires |Fragments(UpdateRules, data)| > 0
    ensures var assigns := Pairs(Fragments(UpdateRules, data), Params(UpdateRules, data));
            |assigns| > 0 && Distinct(Columns(assigns))
  {
    RuleColumnsDistinct();
    WellFormedSet(UpdateRules, data);
  }

  /** The 404 of the update passes its catch block unchanged. */
  lemma NotFoundForUpdateKeyFree()
    ensures 'K' !in NotFoundForUpdate
  {
    assert 'K' !in "Orden de Trabajo";
  }

  lemma MessagesKeyFree()
    ensures Reclassify(UpdateClauses, Fail(NotFoundForUpdate, 404)) == Fail(NotFoundForUpdate, 404)
  {
    NotFoundForUpdateKeyFree();
    KeyFreePassesThrough(UpdateClauses, Fail(NotFoundForUpdate, 404));
  }

  /** Once the SET list is non-empty, a missing row gives 404 and leaves the table unchanged. */
  lemma UpdateMissingRow(rows: map<int, Obj>, id: string, data: Obj, fault: Option<string>)
    requires |Fragments(UpdateRules, data)| > 0
    requires ToInt(id).Some? && ToInt(id).value !in rows
    ensures UpdateEffect(rows, id, data, fault) == Effect(Threw(Fail(NotFoundForUpdate, 404)), rows)
  {
    ConvertibleIdPassesGuard(id);
    UpdateSetWellFormed(data);
    MessagesKeyFree();
  }

  /** A store error on an existing order becomes 400 on a foreign-key violation and otherwise passes unchanged. */
  lemma UpdateErrors(rows: map<int, Obj>, id: string, data: Obj, m: string)
    requires |Fragments(UpdateRules, data)| > 0
    requires ToInt(id).Some? && ToInt(id).value in rows
    ensures var r := UpdateEffect(rows, id, data, Some(m));
            r.rows == rows &&
            (Contains(m, ForeignKey) ==> r.reply == Threw(Fail(BadReference, 400))) &&
            (!Contains(m, ForeignKey) ==> r.reply == Threw(Raise(m)))
  {
    ConvertibleIdPassesGuard(id);
    UpdateSetWellFormed(data);
    ReclassifySpec(UpdateClauses, Raise(m));
  }

  /** An existing row is rewritten by the SET list of the body, and the updated view is returned. */
  lemma UpdateRewrites(rows: map<int, Obj>, id: string, data: Obj)
    requires |Fragments(UpdateRules, data)| > 0
    requires ToInt(id).Some? && ToInt(id).value in rows
    ensures var k := ToInt(id).value;
            var e := UpdateEffect(rows, id, data, None);
            var assigns := Pairs(Fragments(UpdateRules, data), Params(UpdateRules, data));
            e.reply == Returned(AsignacionModel.UpdatedView(Change(k, rows[k], Assign(rows[k], assigns)))) &&
            e.rows == rows[k := Assign(rows[k], assigns)]
  {
    ConvertibleIdPassesGuard(id);
    UpdateSetWellFormed(data);
  }

  // ---------------------------------------------------------------------
  // deactivateAsignacion
  // ---------------------------------------------------------------------

  /** What `deactivateAsignacion` settles to at server time `now`, and the table after it. */
  function DeactivateEffect(rows: map<int, Obj>, id: string, now: Value): Effect<Obj> {
    if ParseIntIsNaN(Str(id)) then Effect(Threw(Fail(BadId, 400)), rows)
    else
      var e := AsignacionModel.DeactivateEffect(rows, id, now);
      Effect(Found(e.reply, NotFoundOrFinished), e.rows)
  }

  method DeactivateAsignacion(t: Table, id: string, now: Value) returns (r: Outcome<Obj>)
    requires t.Valid()
    modifies t
    ensures t.Valid() && t.nextId == old(t.nextId)
    ensures Effect(r, t.rows) == DeactivateEffect(old(t.rows), id, now)
  {
    if ParseIntIsNaN(Str(id)) {
      return Threw(Fail(BadId, 400));
    }
    var finalized := AsignacionModel.Deactivate(t, id, now);
    r := Found(finalized, NotFoundOrFinished);
  }

  /**
   * `deactivateAsignacion`: 400 for a non-numeric id; 404 for a missing order, one without an Estado and one still
   * 'Programada'; any other order, 'Finalizada' included, is finalized and stamped with `now`.
   */
  lemma DeactivateSpec(rows: map<int, Obj>, id: string, now: Value)
    ensures var e := DeactivateEffect(rows, id, now);
            (ParseIntIsNaN(Str(id)) ==> e == Effect(Threw(Fail(BadId, 400)), rows)) &&
            (ToInt(id).Some? ==>
               var k := ToInt(id).value;
               if k in rows && Present(Get(rows[k], "Estado")) && Get(rows[k], "Estado") != Str(AsignacionModel.Programada) then
                 e.reply.Returned? && e.rows == rows[k := rows[k]["Estado" := Str(AsignacionModel.Finalizada)]["FechaFinReal" := now]]
               else e == Effect(Threw(Fail(NotFoundOrFinished, 404)), rows))
  {
    ConvertibleIdPassesGuard(id);
    if ToInt(id).Some? {
      AsignacionModel.DeactivateSpec(rows, id, now);
    }
  }

  /** As written, an order created without an Estado answers 404 "not found or already finalized" to `deactivateAsignacion`. */
  lemma FreshOrderRefused(rows: map<int, Obj>, data: Obj, id: string, now: Value)
    requires Get(data, "Estado") == Undefined && ToInt(id).Some?
    ensures var seeded := rows[ToInt(id).value := AsignacionModel.NewRow(data)];
            DeactivateEffect(seeded, id, now) == Effect(Threw(Fail(NotFoundOrFinished, 404)), seeded)
  {
    ConvertibleIdPassesGuard(id);
    AsignacionModel.FreshOrderStays(rows, data, id, now);
  }

  /** As written, finalizing twice succeeds twice: the second call re-stamps FechaFinReal instead of answering 404. */
  lemma FinalizedAcceptedAgain(rows: map<int, Obj>, id: string, now1: Value, now2: Value)
    ensures var first := DeactivateEffect(rows, id, now1);
            first.reply.Returned? ==> DeactivateEffect(first.rows, id, now2).reply.Returned?
  {
    ConvertibleIdPassesGuard(id);
    AsignacionModel.FinalizedIsRestamped(rows, id, now1, now2);
  }

  // ---------------------------------------------------------------------
  // deactivateAsignacion with the guard its 404 message describes
  // ---------------------------------------------------------------------

  /** `deactivateAsignacion` over the statement guarded by `Estado <> 'Finalizada'`. */
  function DeactivateIntendedEffect(rows: map<int, Obj>, id: string, now: Value): Effect<Obj> {
    if ParseIntIsNaN(Str(id)) then Effect(Threw(Fail(BadId, 400)), rows)
    else
      var e := AsignacionModel.FinalizeIntendedEffect(rows, id, now);
      Effect(Found(e.reply, NotFoundOrFinished), e.rows)
  }

  method DeactivateIntended(t: Table, id: string, now: Value) returns (r: Outcome<Obj>)
    requires t.Valid()
    modifies t
    ensures t.Valid() && t.nextId == old(t.nextId)
    ensures Effect(r, t.rows) == DeactivateIntendedEffect(old(t.rows), id, now)
  {
    if ParseIntIsNaN(Str(id)) {
      return Threw(Fail(BadId, 400));
    }
    var finalized := AsignacionModel.FinalizeIntended(t, id, now);
    r := Found(finalized, NotFoundOrFinished);
  }

  /** The corrected service answers 404 exactly for a missing order, one without an Estado and one already 'Finalizada'. */
  lemma DeactivateIntendedSpec(rows: map<int, Obj>, id: string, now: Value)
    ensures var e := DeactivateIntendedEffect(rows, id, now);
            (ParseIntIsNaN(Str(id)) ==> e == Effect(Threw(Fail(BadId, 400)), rows)) &&
            (ToInt(id).Some? ==>
               var k := ToInt(id).value;
               if k in rows && Present(Get(rows[k], "Estado")) && Get(rows[k], "Estado") != Str(AsignacionModel.Finalizada) then
                 e.reply.Returned? && e.rows == rows[k := rows[k]["Estado" := Str(AsignacionModel.Finalizada)]["FechaFinReal" := now]]
               else e == Effect(Threw(Fail(NotFoundOrFinished, 404)), rows))
  {
    ConvertibleIdPassesGuard(id);
    if ToInt(id).Some? {
      AsignacionModel.FinalizeIntendedSpec(rows, id, now);
    }
  }

  /** Corrected: a fresh order can be finalized, and finalizing twice answers 404 the second time and keeps the first stamp. */
  lemma DeactivateIntendedOnce(rows: map<int, Obj>, data: Obj, id: string, now1: Value, now2: Value)
    requires Get(data, "Estado") == Undefined && ToInt(id).Some?
    ensures var seeded := rows[ToInt(id).value := AsignacionModel.NewRow(data)];
            var first := DeactivateIntendedEffect(seeded, id, now1);
            first.reply.Returned? &&
            DeactivateIntendedEffect(first.rows, id, now2) == Effect(Threw(Fail(NotFoundOrFinished, 404)), first.rows)
  {
    ConvertibleIdPassesGuard(id);
    var seeded := rows[ToInt(id).value := AsignacionModel.NewRow(data)];
    AsignacionModel.FreshOrderFinalizes(rows, data, id, now1);
    AsignacionModel.FinalizeIntendedOnce(seeded, id, now1, now2);
  }
}
