/** The device-model catalogue service: creation, lookup by id, partial update and physical deletion of models. */
module ModeloDispositivoService {
  import opened Js
  import opened Sql
  import opened UpdateBuilder
  import opened Errors
  import ModeloDispositivoModel

  const MissingFields: string := "Faltan campos obligatorios: NombreModelo y TipoDispositivo."
  const NameTaken: string := "El NombreModelo ya está registrado."
  const BadId: string := "El ID de modelo debe ser un número válido."
  const NotFound: string := "Modelo de dispositivo no encontrado."
  const NoFields: string := "Se requiere al menos un campo para actualizar."
  const NotFoundForUpdate: string := "Modelo no encontrado para actualizar."
  const NameInUse: string := "El NombreModelo ya está siendo utilizado por otro dispositivo."
  const NotDeleted: string := "Modelo no encontrado" + " o no pudo ser eliminado."
  const StillInUse: string := "No se puede eliminar el modelo porque está asociado a dispositivos existentes."

  // ---------------------------------------------------------------------
  // createModelo
  // ---------------------------------------------------------------------

  /** `if (!nombreModelo || !tipoDispositivo)`: fabricante is optional. */
  predicate HasRequired(data: Obj) {
    Truthy(Get(data, "nombreModelo")) && Truthy(Get(data, "tipoDispositivo"))
  }

  const CreateClauses: seq<Clause> := [Clause(UniqueKey, NameTaken, 409)]

  /** What `createModelo` settles to when the next identity value is `nextId` and the insert raises `fault`, if anything. */
  function CreateReply(nextId: int, data: Obj, fault: Option<string>): (r: Outcome<Obj>)
    ensures !HasRequired(data) ==> r == Threw(Fail(MissingFields, 400))
    ensures r.Returned? <==> HasRequired(data) && fault.None?
    ensures r.Returned? ==> r.value == map["ID_Modelo" := Num(nextId), "NombreModelo" := Get(data, "nombreModelo")]
  {
    if !HasRequired(data) then Threw(Fail(MissingFields, 400))
    else
      Catch(CreateClauses,
            if fault.Some? then Threw(Raise(fault.value))
            else Returned(ModeloDispositivoModel.CreatedView(nextId, ModeloDispositivoModel.NewRow(data))))
  }

  method CreateModelo(t: Table, data: Obj, fault: Option<string>) returns (r: Outcome<Obj>)
    requires t.Valid()
    modifies t
    ensures t.Valid()
    ensures r == CreateReply(old(t.nextId), data, fault)
    ensures r.Returned? ==> t.rows == old(t.rows)[old(t.nextId) := ModeloDispositivoModel.NewRow(data)]
    ensures r.Threw? ==> t.rows == old(t.rows)
  {
    if !HasRequired(data) {
      return Threw(Fail(MissingFields, 400));
    }
    var created := ModeloDispositivoModel.Create(t, data, fault);
    match created
    case Threw(e) => r := Threw(Reclassify(CreateClauses, e));
    case Returned(m) => r := created;
  }

  /** A store error on create becomes 409 on a unique-key violation and otherwise passes unchanged. */
  lemma CreateErrors(nextId: int, data: Obj, m: string)
    requires HasRequired(data)
    ensures var r := CreateReply(nextId, data, Some(m));
            (Contains(m, UniqueKey) ==> r == Threw(Fail(NameTaken, 409))) &&
            (!Contains(m, UniqueKey) ==> r == Threw(Raise(m)))
  {
    ReclassifySpec(CreateClauses, Raise(m));
  }

  // ---------------------------------------------------------------------
  // getModeloById
  // ---------------------------------------------------------------------

  function GetModeloById(rows: map<int, Obj>, id: string): (r: Outcome<Obj>)
    ensures ParseIntIsNaN(Str(id)) ==> r == Threw(Fail(BadId, 400))
    ensures r.Returned? <==> ToInt(id).Some? && ToInt(id).value in rows
    ensures r.Returned? ==> r.value == ModeloDispositivoModel.DetailView(ToInt(id).value, rows[ToInt(id).value])
    ensures ToInt(id).Some? && !r.Returned? ==> r == Threw(Fail(NotFound, 404))
  {
    ConvertibleIdPassesGuard(id);
    if ParseIntIsNaN(Str(id)) then Threw(Fail(BadId, 400))
    else Found(ModeloDispositivoModel.FindById(rows, id), NotFound)
  }

  // ---------------------------------------------------------------------
  // updateModelo
  // ---------------------------------------------------------------------

  const UpdateRules: seq<Rule> := [
    Rule("nombreModelo", "NombreModelo", IfTruthy, None),
    Rule("fabricante", "Fabricante", IfTruthy, None),
    Rule("tipoDispositivo", "TipoDispositivo", IfTruthy, None)
  ]

  /** The three pushes of `updateModelo`, one rule at a time. */
  method BuildUpdate(data: Obj) returns (b: Built)
    ensures Build(UpdateRules, data) == Returned(b)
  {
    var updates: seq<string> := [];
    var params: seq<Value> := [];
    ghost var u0, p0 := updates, params;
    assert Fragment("NombreModelo") == "NombreModelo = ?";
    if Truthy(Get(data, "nombreModelo")) {
      updates := updates + ["NombreModelo = ?"];
      params := params + [Get(data, "nombreModelo")];
    }
    Advance(UpdateRules, 0, data, u0, p0, updates, params);
    ghost var u1, p1 := updates, params;
    assert Fragment("Fabricante") == "Fabricante = ?";
    if Truthy(Get(data, "fabricante")) {
      updates := updates + ["Fabricante = ?"];
      params := params + [Get(data, "fabricante")];
    }
    Advance(UpdateRules, 1, data, u1, p1, updates, params);
    ghost var u2, p2 := updates, params;
    assert Fragment("TipoDispositivo") == "TipoDispositivo = ?";
    if Truthy(Get(data, "tipoDispositivo")) {
      updates := updates + ["TipoDispositivo = ?"];
      params := params + [Get(data, "tipoDispositivo")];
    }
    Advance(UpdateRules, 2, data, u2, p2, updates, params);
    Finish(UpdateRules, data, updates, params);
    b := Built(updates, params);
  }

  /** The catch block of `updateModelo`. */
  const UpdateClauses: seq<Clause> := [Clause(UniqueKey, NameInUse, 409)]

  /** What the update settles to, and the table after it. */
  function UpdateEffect(rows: map<int, Obj>, id: string, data: Obj, fault: Option<string>): Effect<Obj> {
    var updates := Fragments(UpdateRules, data);
    var params := Params(UpdateRules, data);
    if ParseIntIsNaN(Str(id)) then Effect(Threw(Fail(BadId, 400)), rows)
    else if |updates| == 0 then Effect(Threw(Fail(NoFields, 400)), rows)
    else
      var e := ModeloDispositivoModel.UpdateEffect(rows, id, updates, params, fault);
      Effect(Catch(UpdateClauses, Found(e.reply, NotFoundForUpdate)), e.rows)
  }

  method UpdateModelo(t: Table, id: string, data: Obj, fault: Option<string>) returns (r: Outcome<Obj>)
    requires t.Valid()
    modifies t
    ensures t.Valid() && t.nextId == old(t.nextId)
    ensures Effect(r, t.rows) == UpdateEffect(old(t.rows), id, data, fault)
  {
    if ParseIntIsNaN(Str(id)) {
      return Threw(Fail(BadId, 400));
    }
    var b := BuildUpdate(data);
    assert b == Built(Fragments(UpdateRules, data), Params(UpdateRules, data));
    if |b.updates| == 0 {
      return Threw(Fail(NoFields, 400));
    }
    var params := new JsArray(b.params);
    var updated := ModeloDispositivoModel.Update(t, id, b.updates, params, fault);
    r := Catch(UpdateClauses, Found(updated, NotFoundForUpdate));
  }

  /** The update fails with 400 before any store call for a non-numeric id, and then when no rule takes part. */
  lemma UpdateRejectsEarly(rows: map<int, Obj>, id: string, data: Obj, fault: Option<string>)
    ensures ParseIntIsNaN(Str(id)) ==> UpdateEffect(rows, id, data, fault) == Effect(Threw(Fail(BadId, 400)), rows)
    ensures !ParseIntIsNaN(Str(id)) && (forall i :: 0 <= i < |UpdateRules| ==> !Included(UpdateRules[i], data)) ==>
              UpdateEffect(rows, id, data, fault) == Effect(Threw(Fail(NoFields, 400)), rows)
  {
    EmptyIffNoneIncluded(UpdateRules, data);
  }

  /** The three rules write three different columns. */
  lemma RuleColumnsDistinct()
    ensures DistinctColumns(UpdateRules)
  {
  }

  /** With at least one rule taking part the SET list is accepted: non-empty, with distinct columns. */
  lemma UpdateSetWellFormed(data: Obj)
    requires |Fragments(UpdateRules, data)| > 0
    ensures var assigns := Pairs(Fragments(UpdateRules, data), Params(UpdateRules, data));
            |assigns| > 0 && Distinct(Columns(assigns))
  {
    RuleColumnsDistinct();
    WellFormedSet(UpdateRules, data);
  }

  /** The 404 of the update passes its catch block unchanged. */
  lemma MessagesKeyFree()
    ensures Reclassify(UpdateClauses, Fail(NotFoundForUpdate, 404)) == Fail(NotFoundForUpdate, 404)
  {
    assert 'K' !in NotFoundForUpdate;
    KeyFreePassesThrough(UpdateClauses, Fail(NotFoundForUpdate, 404));
  }

  /** Once the SET list is non-empty, a missing row gives 404 and leaves the table unchanged. */
  lemma UpdateMissingRow(rows: map<int, Obj>, id: string, data: Obj, fault: Option<string>)
    requires |Fragments(UpdateRules, data)| > 0
    requires ToInt(id).Some? && ToInt(id).value !in rows
    ensures UpdateEffect(rows, id, data, fault) == Effect(Threw(Fail(NotFoundForUpdate, 404)), rows)
  {
    ConvertibleIdPassesGuard(id);
    UpdateSetWellFormed(data);
    var assigns := Pairs(Fragments(UpdateRules, data), Params(UpdateRules, data));
    assert Sql.UpdateEffect(rows, id, Always, assigns, fault) == Effect(Returned(None), rows);
    MessagesKeyFree();
  }

  /** A store error on an existing model becomes 409 on a unique-key violation and otherwise passes unchanged. */
  lemma UpdateErrors(rows: map<int, Obj>, id: string, data: Obj, m: string)
    requires |Fragments(UpdateRules, data)| > 0
    requires ToInt(id).Some? && ToInt(id).value in rows
    ensures var r := UpdateEffect(rows, id, data, Some(m));
            r.rows == rows &&
            (Contains(m, UniqueKey) ==> r.reply == Threw(Fail(NameInUse, 409))) &&
            (!Contains(m, UniqueKey) ==> r.reply == Threw(Raise(m)))
  {
    ConvertibleIdPassesGuard(id);
    UpdateSetWellFormed(data);
    ReclassifySpec(UpdateClauses, Raise(m));
  }

  /** An existing row is rewritten by the SET list of the body, and the updated view is returned. */
  lemma UpdateRewrites(rows: map<int, Obj>, id: string, data: Obj)
    requires |Fragments(UpdateRules, data)| > 0
    requires ToInt(id).Some? && ToInt(id).value in rows
    ensures var k := ToInt(id).value;
            var e := UpdateEffect(rows, id, data, None);
            var assigns := Pairs(Fragments(UpdateRules, data), Params(UpdateRules, data));
            e.reply == Returned(ModeloDispositivoModel.UpdatedView(Change(k, rows[k], Assign(rows[k], assigns)))) &&
            e.rows == rows[k := Assign(rows[k], assigns)]
  {
    ConvertibleIdPassesGuard(id);
    UpdateSetWellFormed(data);
  }

  // ---------------------------------------------------------------------
  // deleteModelo
  // ---------------------------------------------------------------------

  /** The catch block of `deleteModelo`: only a message naming a FOREIGN KEY constraint becomes the 409. */
  const DeleteClauses: seq<Clause> := [Clause(ForeignKey, StillInUse, 409)]

  /**
   * What SQL Server names in the error of a DELETE that a referencing row blocks (Msg 547): "The DELETE statement
   * conflicted with the REFERENCE constraint ...". Only INSERT and UPDATE conflicts name a FOREIGN KEY constraint.
   */
  const ReferenceConstraint: string := "REFERENCE constraint"
  const ConflictPrefix: string := "The DELETE " + "statement " + "conflicted " + "with the "
  const ReferenceConflict: string := ConflictPrefix + ReferenceConstraint

  /** What `deleteModelo` settles to, and the table after it; `fault` is the error the database raises for the row. */
  function DeleteEffect(rows: map<int, Obj>, id: string, fault: Option<string>): Effect<Obj> {
    if ParseIntIsNaN(Str(id)) then Effect(Threw(Fail(BadId, 400)), rows)
    else
      var e := ModeloDispositivoModel.DeleteEffect(rows, id, fault);
      Effect(Catch(DeleteClauses, Found(e.reply, NotDeleted)), e.rows)
  }

  method DeleteModelo(t: Table, id: string, fault: Option<string>) returns (r: Outcome<Obj>)
    requires t.Valid()
    modifies t
    ensures t.Valid() && t.nextId == old(t.nextId)
    ensures Effect(r, t.rows) == DeleteEffect(old(t.rows), id, fault)
  {
    if ParseIntIsNaN(Str(id)) {
      return Threw(Fail(BadId, 400));
    }
    var deleted := ModeloDispositivoModel.Delete(t, id, fault);
    r := Catch(DeleteClauses, Found(deleted, NotDeleted));
  }

  /** The 404 of `deleteModelo` passes its catch block unchanged. */
  lemma NotDeletedKeyFree()
    ensures Reclassify(DeleteClauses, Fail(NotDeleted, 404)) == Fail(NotDeleted, 404)
  {
    NotDeletedReferenceFree();
    KeyFreePassesThrough(DeleteClauses, Fail(NotDeleted, 404));
  }

  /**
   * `deleteModelo`: 400 for a non-numeric id; for a convertible id, 404 when the model is missing, 409 when the
   * database's error names a FOREIGN KEY constraint, that error unchanged otherwise; only a successful delete removes
   * the row.
   */
  lemma DeleteSpec(rows: map<int, Obj>, id: string, fault: Option<string>)
    ensures var e := DeleteEffect(rows, id, fault);
            (ParseIntIsNaN(Str(id)) ==> e == Effect(Threw(Fail(BadId, 400)), rows)) &&
            (ToInt(id).Some? ==>
               var k := ToInt(id).value;
               if k !in rows then e == Effect(Threw(Fail(NotDeleted, 404)), rows)
               else if fault.Some? && Contains(fault.value, ForeignKey) then e == Effect(Threw(Fail(StillInUse, 409)), rows)
               else if fault.Some? then e == Effect(Threw(Raise(fault.value)), rows)
               else e.reply.Returned? && e.rows == rows - {k})
  {
    ConvertibleIdPassesGuard(id);
    if ToInt(id).Some? {
      ModeloDispositivoModel.DeleteSpec(rows, id, fault);
      if ToInt(id).value !in rows {
        NotDeletedKeyFree();
      } else if fault.Some? {
        ReclassifySpec(DeleteClauses, Raise(fault.value));
      }
    }
  }

  /** After a successful `deleteModelo`, `getModeloById` on the same id answers 404. */
  lemma DeleteThenNotFound(rows: map<int, Obj>, id: string)
    ensures var e := DeleteEffect(rows, id, None);
            e.reply.Returned? ==> GetModeloById(e.rows, id) == Threw(Fail(NotFound, 404))
  {
    ConvertibleIdPassesGuard(id);
    ModeloDispositivoModel.DeleteThenFindById(rows, id);
  }

  /** The error of a DELETE blocked by devices names the REFERENCE constraint and no FOREIGN KEY constraint. */
  lemma ReferenceConflictUnmatched()
    ensures Contains(ReferenceConflict, ReferenceConstraint) && !Contains(ReferenceConflict, ForeignKey)
  {
    assert ReferenceConflict == ConflictPrefix + ReferenceConstraint + "";
    ContainsInfix(ConflictPrefix, ReferenceConstraint, "");
    assert 'K' !in "The DELETE " && 'K' !in "statement " && 'K' !in "conflicted " && 'K' !in "with the ";
    assert 'K' !in ReferenceConstraint;
    assert ForeignKey[8] == 'K';
    ContainsNeedsChar(ReferenceConflict, ForeignKey, 'K');
  }

  /**
   * As written, a model that devices still refer to is not a 409: the database's REFERENCE-constraint error passes the
   * catch block unchanged, has no cause, and is answered with 500; the table keeps the row.
   */
  lemma StillReferencedIs500(rows: map<int, Obj>, id: string)
    requires ToInt(id).Some? && ToInt(id).value in rows
    ensures DeleteEffect(rows, id, Some(ReferenceConflict)) == Effect(Threw(Raise(ReferenceConflict)), rows)
    ensures StatusOr500(Raise(ReferenceConflict)) == 500
  {
    ReferenceConflictUnmatched();
    DeleteSpec(rows, id, Some(ReferenceConflict));
  }

  /** The catch block the 409's message means: a DELETE blocked by a REFERENCE constraint is the model still in use. */
  const DeleteIntendedClauses: seq<Clause> :=
    [Clause(ForeignKey, StillInUse, 409), Clause(ReferenceConstraint, StillInUse, 409)]

  /** `deleteModelo` with the intended catch block. */
  function DeleteIntendedEffect(rows: map<int, Obj>, id: string, fault: Option<string>): Effect<Obj> {
    if ParseIntIsNaN(Str(id)) then Effect(Threw(Fail(BadId, 400)), rows)
    else
      var e := ModeloDispositivoModel.DeleteEffect(rows, id, fault);
      Effect(Catch(DeleteIntendedClauses, Found(e.reply, NotDeleted)), e.rows)
  }

  /** A message with neither a capital K nor a capital R names neither constraint and passes the intended catch block. */
  lemma ReferenceFreePassesIntended(e: Exception)
    requires 'K' !in e.message && 'R' !in e.message
    ensures Reclassify(DeleteIntendedClauses, e) == e
  {
    var rest := DeleteIntendedClauses[1..];
    assert !Contains(e.message, DeleteIntendedClauses[0].pattern) by {
      assert ForeignKey[8] == 'K';
      ContainsNeedsChar(e.message, ForeignKey, 'K');
    }
    assert !Contains(e.message, rest[0].pattern) by {
      assert ReferenceConstraint[0] == 'R';
      ContainsNeedsChar(e.message, ReferenceConstraint, 'R');
    }
    assert Reclassify(rest[1..], e) == e by { assert |rest[1..]| == 0; }
  }

  /** The 404's message has neither a capital K nor a capital R, so it passes the intended catch block unchanged too. */
  lemma NotDeletedReferenceFree()
    ensures 'K' !in NotDeleted && 'R' !in NotDeleted
  {
    assert 'K' !in "Modelo no encontrado" && 'R' !in "Modelo no encontrado";
  }

  /** Corrected: a delete that a referencing row blocks answers 409 and keeps the row. */
  lemma DeleteIntendedSpec(rows: map<int, Obj>, id: string, m: string)
    requires ToInt(id).Some? && ToInt(id).value in rows && Contains(m, ReferenceConstraint)
    ensures DeleteIntendedEffect(rows, id, Some(m)) == Effect(Threw(Fail(StillInUse, 409)), rows)
    ensures StatusOr500(Fail(StillInUse, 409)) == 409
  {
    ConvertibleIdPassesGuard(id);
    ModeloDispositivoModel.DeleteSpec(rows, id, Some(m));
    ReclassifySpec(DeleteIntendedClauses, Raise(m));
  }

  /** Every outcome other than a REFERENCE-constraint error is the one `deleteModelo` gives as written. */
  lemma DeleteIntendedAgrees(rows: map<int, Obj>, id: string, fault: Option<string>)
    requires ParseIntIsNaN(Str(id)) || ToInt(id).Some?
    requires fault.None? || !Contains(fault.value, ReferenceConstraint)
    ensures DeleteIntendedEffect(rows, id, fault) == DeleteEffect(rows, id, fault)
  {
    if !ParseIntIsNaN(Str(id)) {
      ModeloDispositivoModel.DeleteSpec(rows, id, fault);
      if ToInt(id).value !in rows {
        NotDeletedKeyFree();
        NotDeletedReferenceFree();
        ReferenceFreePassesIntended(Fail(NotDeleted, 404));
      } else if fault.Some? {
        ReclassifySpec(DeleteClauses, Raise(fault.value));
        ReclassifySpec(DeleteIntendedClauses, Raise(fault.value));
      }
    }
  }
}
