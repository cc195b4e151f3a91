/** The subscriber service: creation, lookup by id, partial update (with alias keys) and deactivation of subscribers. */
module AbonadoService {
  import opened Js
  import opened Sql
  import opened UpdateBuilder
  import opened Errors
  import AbonadoModel

  const MissingFields: string := "Faltan campos obligatorios: Nombre, DNI y ID_Zona."
  const DniTaken: string := "El DNI proporcionado ya está registrado para otro abonado."
  const BadReference: string := "Error de relación. El ID de Zona o Vendedor proporcionado no existe."
  const BadId: string := "El ID de abonado debe ser un número válido."
  const NotFound: string := "Abonado no encontrado."
  const NoFields: string := "Se requiere al menos un campo para actualizar."
  const NotFoundForUpdate: string := "Abonado no encontrado para actualizar."
  const RutInUse: string := "El RUT proporcionado ya está siendo utilizado por otro abonado."
  const NotFoundOrInactive: string := "Abonado no encontrado o ya estaba inactivo."

  // ---------------------------------------------------------------------
  // createAbonado
  // ---------------------------------------------------------------------

  /** `if (!abonadoData.nombreCompleto || !abonadoData.dni || !abonadoData.idZona)` */
  predicate HasRequired(data: Obj) {
    Truthy(Get(data, "nombreCompleto")) && Truthy(Get(data, "dni")) && Truthy(Get(data, "idZona"))
  }

  const CreateClauses: seq<Clause> := [Clause(UniqueKey, DniTaken, 409), Clause(ForeignKey, BadReference, 400)]

  /** What `createAbonado` settles to when the next identity value is `nextId` and the insert raises `fault`, if anything. */
  function CreateReply(nextId: int, data: Obj, fault: Option<string>): (r: Outcome<Obj>)
    ensures !HasRequired(data) ==> r == Threw(Fail(MissingFields, 400))
    ensures r.Returned? <==> HasRequired(data) && fault.None?
    ensures r.Returned? ==>
              r.value == map["ID_Abonado" := Num(nextId), "RazonSocial" := Get(data, "razonSocial"), "RUT" := Get(data, "rut")]
  {
    if !HasRequired(data) then Threw(Fail(MissingFields, 400))
    else
      Catch(CreateClauses,
            if fault.Some? then Threw(Raise(fault.value))
            else Returned(AbonadoModel.CreatedView(nextId, AbonadoModel.NewRow(data))))
  }

  method CreateAbonado(t: Table, data: Obj, fault: Option<string>) returns (r: Outcome<Obj>)
    requires t.Valid()
    modifies t
    ensures t.Valid()
    ensures r == CreateReply(old(t.nextId), data, fault)
    ensures r.Returned? ==> t.rows == old(t.rows)[old(t.nextId) := AbonadoModel.NewRow(data)]
    ensures r.Threw? ==> t.rows == old(t.rows)
  {
    if !HasRequired(data) {
      return Threw(Fail(MissingFields, 400));
    }
    var created := AbonadoModel.Create(t, data, fault);
    match created
    case Threw(e) => r := Threw(Reclassify(CreateClauses, e));
    case Returned(a) => r := created;
  }

  /**
   * The required keys are not the ones the model stores: a body with only nombreCompleto and dni passes the check and
   * stores no RazonSocial and no RUT.
   */
  lemma CreateStoresOtherKeys(data: Obj)
    requires HasRequired(data) && Get(data, "razonSocial") == Undefined && Get(data, "rut") == Undefined
    ensures var row := AbonadoModel.NewRow(data);
            Get(row, "RazonSocial") == Undefined && Get(row, "RUT") == Undefined && Get(row, "Activo") == Bool(true)
  {
  }

  /** A store error on create becomes 409 on a unique-key violation, else 400 on a foreign-key one, else passes unchanged. */
  lemma CreateErrors(nextId: int, data: Obj, m: string)
    requires HasRequired(data)
    ensures var r := CreateReply(nextId, data, Some(m));
            (Contains(m, UniqueKey) ==> r == Threw(Fail(DniTaken, 409))) &&
            (!Contains(m, UniqueKey) && Contains(m, ForeignKey) ==> r == Threw(Fail(BadReference, 400))) &&
            (!Contains(m, UniqueKey) && !Contains(m, ForeignKey) ==> r == Threw(Raise(m)))
  {
    ReclassifySpec(CreateClauses, Raise(m));
  }

  // ---------------------------------------------------------------------
  // getAbonadoById
  // ---------------------------------------------------------------------

  function GetAbonadoById(rows: map<int, Obj>, id: string): (r: Outcome<Obj>)
    ensures ParseIntIsNaN(Str(id)) ==> r == Threw(Fail(BadId, 400))
    ensures r.Returned? <==> ToInt(id).Some? && ToInt(id).value in rows
    ensures r.Returned? ==> r.value == AbonadoModel.DetailView(ToInt(id).value, rows[ToInt(id).value])
    ensures ToInt(id).Some? && !r.Returned? ==> r == Threw(Fail(NotFound, 404))
  {
    ConvertibleIdPassesGuard(id);
    if ParseIntIsNaN(Str(id)) then Threw(Fail(BadId, 400))
    else Found(AbonadoModel.FindById(rows, id), NotFound)
  }

  // ---------------------------------------------------------------------
  // updateAbonado
  // ---------------------------------------------------------------------

  /**
   * The column names first, then the simplified JSON names for four of the same columns, then `activo`, which is taken
   * whenever it is not undefined or null.
   */
  const UpdateRules: seq<Rule> := [
    Rule("razonSocial", "RazonSocial", IfTruthy, None),
    Rule("rut", "RUT", IfTruthy, None),
    Rule("contactoPrincipal", "ContactoPrincipal", IfTruthy, None),
    Rule("telefonoContacto", "TelefonoContacto", IfTruthy, None),
    Rule("emailContacto", "EmailContacto", IfTruthy, None),
    Rule("nombreCompleto", "RazonSocial", IfTruthy, None),
    Rule("dni", "RUT", IfTruthy, None),
    Rule("telefono", "TelefonoContacto", IfTruthy, None),
    Rule("email", "EmailContacto", IfTruthy, None),
    Rule("activo", "Activo", IfPresent, None)
  ]

  /** The ten pushes of `updateAbonado`: the column names, then the simplified names and `activo`. */
  method BuildUpdate(data: Obj) returns (b: Built)
    ensures Build(UpdateRules, data) == Returned(b)
  {
    var updates, params := Push0To2(data, [], []);
    updates, params := Push3To4(data, updates, params);
    updates, params := Push5To7(data, updates, params);
    updates, params := Push8To9(data, updates, params);
    Finish(UpdateRules, data, updates, params);
    b := Built(updates, params);
  }

  /** The pushes keyed by the column names RazonSocial, RUT and ContactoPrincipal. */
  method Push0To2(data: Obj, updates0: seq<string>, params0: seq<Value>) returns (updates: seq<string>, params: seq<Value>)
    requires Upto(UpdateRules, 0, data, updates0, params0)
    ensures Upto(UpdateRules, 3, data, updates, params)
  {
    updates, params := updates0, params0;
    ghost var u0, p0 := updates, params;
    assert Fragment("RazonSocial") == "RazonSocial = ?";
    if Truthy(Get(data, "razonSocial")) {
      updates := updates + ["RazonSocial = ?"];
      params := params + [Get(data, "razonSocial")];
    }
    Advance(UpdateRules, 0, data, u0, p0, updates, params);
    ghost var u1, p1 := updates, params;
    assert Fragment("RUT") == "RUT = ?";
    if Truthy(Get(data, "rut")) {
      updates := updates + ["RUT = ?"];
      params := params + [Get(data, "rut")];
    }
    Advance(UpdateRules, 1, data, u1, p1, updates, params);
    ghost var u2, p2 := updates, params;
    assert Fragment("ContactoPrincipal") == "ContactoPrincipal = ?";
    if Truthy(Get(data, "contactoPrincipal")) {
      updates := updates + ["ContactoPrincipal = ?"];
      params := params + [Get(data, "contactoPrincipal")];
    }
    Advance(UpdateRules, 2, data, u2, p2, updates, params);
  }

  /** The pushes keyed by the column names TelefonoContacto and EmailContacto. */
  method Push3To4(data: Obj, updates0: seq<string>, params0: seq<Value>) returns (updates: seq<string>, params: seq<Value>)
    requires Upto(UpdateRules, 3, data, updates0, params0)
    ensures Upto(UpdateRules, 5, data, updates, params)
  {
    updates, params := updates0, params0;
    ghost var u3, p3 := updates, params;
    assert Fragment("TelefonoContacto") == "TelefonoContacto = ?";
    if Truthy(Get(data, "telefonoContacto")) {
      updates := updates + ["TelefonoContacto = ?"];
      params := params + [Get(data, "telefonoContacto")];
    }
    Advance(UpdateRules, 3, data, u3, p3, updates, params);
    ghost var u4, p4 := updates, params;
    assert Fragment("EmailContacto") == "EmailContacto = ?";
    if Truthy(Get(data, "emailContacto")) {
      updates := updates + ["EmailContacto = ?"];
      params := params + [Get(data, "emailContacto")];
    }
    Advance(UpdateRules, 4, data, u4, p4, updates, params);
  }

  /** The pushes keyed by the simplified names nombreCompleto, dni and telefono. */
  method Push5To7(data: Obj, updates0: seq<string>, params0: seq<Value>) returns (updates: seq<string>, params: seq<Value>)
    requires Upto(UpdateRules, 5, data, updates0, params0)
    ensures Upto(UpdateRules, 8, data, updates, params)
  {
    updates, params := updates0, params0;
    ghost var u5, p5 := updates, params;
    assert Fragment("RazonSocial") == "RazonSocial = ?";
    if Truthy(Get(data, "nombreCompleto")) {
      updates := updates + ["RazonSocial = ?"];
      params := params + [Get(data, "nombreCompleto")];
    }
    Advance(UpdateRules, 5, data, u5, p5, updates, params);
    ghost var u6, p6 := updates, params;
    assert Fragment("RUT") == "RUT = ?";
    if Truthy(Get(data, "dni")) {
      updates := updates + ["RUT = ?"];
      params := params + [Get(data, "dni")];
    }
    Advance(UpdateRules, 6, data, u6, p6, updates, params);
    ghost var u7, p7 := updates, params;
    assert Fragment("TelefonoContacto") == "TelefonoContacto = ?";
    if Truthy(Get(data, "telefono")) {
      updates := updates + ["TelefonoContacto = ?"];
      params := params + [Get(data, "telefono")];
    }
    Advance(UpdateRules, 7, data, u7, p7, updates, params);
  }

  /** The push keyed by the simplified name email, then `activo`, taken whenever it is set. */
  method Push8To9(data: Obj, updates0: seq<string>, params0: seq<Value>) returns (updates: seq<string>, params: seq<Value>)
    requires Upto(UpdateRules, 8, data, updates0, params0)
    ensures Upto(UpdateRules, 10, data, updates, params)
  {
    updates, params := updates0, params0;
    ghost var u8, p8 := updates, params;
    assert Fragment("EmailContacto") == "EmailContacto = ?";
    if Truthy(Get(data, "email")) {
      updates := updates + ["EmailContacto = ?"];
      params := params + [Get(data, "email")];
    }
    Advance(UpdateRules, 8, data, u8, p8, updates, params);
    ghost var u9, p9 := updates, params;
    assert Fragment("Activo") == "Activo = ?";
    if Get(data, "activo") != Undefined && Get(data, "activo") != Null {
      updates := updates + ["Activo = ?"];
      params := params + [Get(data, "activo")];
    }
    Advance(UpdateRules, 9, data, u9, p9, updates, params);
  }

  /** The SET list of a body: one (column, value) pair per rule that takes part, in rule order. */
  function SetList(data: Obj): seq<Assignment> {
    Pairs(Fragments(UpdateRules, data), Params(UpdateRules, data))
  }

  /** A column and its alias both given, so the SET list names the column twice. */
  predicate AliasCollision(data: Obj) {
    (Truthy(Get(data, "razonSocial")) && Truthy(Get(data, "nombreCompleto"))) ||
    (Truthy(Get(data, "rut")) && Truthy(Get(data, "dni"))) ||
    (Truthy(Get(data, "telefonoContacto")) && Truthy(Get(data, "telefono"))) ||
    (Truthy(Get(data, "emailContacto")) && Truthy(Get(data, "email")))
  }

  /** On update only a unique-key violation is reclassified; a foreign-key violation is rethrown as it is. */
  const UpdateClauses: seq<Clause> := [Clause(UniqueKey, RutInUse, 409)]

  /** What `updateAbonado` settles to, and the table after it. */
  function UpdateEffect(rows: map<int, Obj>, id: string, data: Obj, fault: Option<string>): Effect<Obj> {
    var updates := Fragments(UpdateRules, data);
    var params := Params(UpdateRules, data);
    if ParseIntIsNaN(Str(id)) then Effect(Threw(Fail(BadId, 400)), rows)
    else if |updates| == 0 then Effect(Threw(Fail(NoFields, 400)), rows)
    else
      var e := AbonadoModel.UpdateEffect(rows, id, updates, params, fault);
      Effect(Catch(UpdateClauses, Found(e.reply, NotFoundForUpdate)), e.rows)
  }

  method UpdateAbonado(t: Table, id: string, data: Obj, fault: Option<string>) returns (r: Outcome<Obj>)
    requires t.Valid()
    modifies t
    ensures t.Valid() && t.nextId == old(t.nextId)
    ensures Effect(r, t.rows) == UpdateEffect(old(t.rows), id, data, fault)
  {
    if ParseIntIsNaN(Str(id)) {
      return Threw(Fail(BadId, 400));
    }
    var b := BuildUpdate(data);
    assert b == Built(Fragments(UpdateRules, data), Params(UpdateRules, data));
    if |b.updates| == 0 {
      return Threw(Fail(NoFields, 400));
    }
    var params := new JsArray(b.params);
    var updated := AbonadoModel.Update(t, id, b.updates, params, fault);
    r := Catch(UpdateClauses, Found(updated, NotFoundForUpdate));
  }

  /** `updateAbonado` fails with 400 before any store call for a non-numeric id, and then when no rule takes part. */
  lemma UpdateRejectsEarly(rows: map<int, Obj>, id: string, data: Obj, fault: Option<string>)
    ensures ParseIntIsNaN(Str(id)) ==> UpdateEffect(rows, id, data, fault) == Effect(Threw(Fail(BadId, 400)), rows)
    ensures !ParseIntIsNaN(Str(id)) && (forall i :: 0 <= i < |UpdateRules| ==> !Included(UpdateRules[i], data)) ==>
              UpdateEffect(rows, id, data, fault) == Effect(Threw(Fail(NoFields, 400)), rows)
  {
    EmptyIffNoneIncluded(UpdateRules, data);
  }

  /** `activo` takes part whenever it is set, so `activo: 0` and `activo: false` are written. */
  lemma ActivoKeptWhenSet(data: Obj)
    requires Present(Get(data, "activo"))
    ensures 9 in Chosen(UpdateRules, data)
  {
    assert Included(UpdateRules[9], data);
  }

  /** No column name of the rules holds a capital K, so the duplicate-column error passes the catch block. */
  lemma ColumnsKeyFree()
    ensures forall i :: 0 <= i < |UpdateRules| ==> 'K' !in UpdateRules[i].column
  {
    forall i | 0 <= i < |UpdateRules| ensures 'K' !in UpdateRules[i].column {
      ColumnKeyFree(i);
    }
  }

  lemma ColumnKeyFree(i: int)
    requires 0 <= i < |UpdateRules|
    ensures 'K' !in UpdateRules[i].column
  {
    var c := UpdateRules[i].column;
    if i == 0 || i == 5 { assert c == "RazonSocial"; }
    else if i == 1 || i == 6 { assert c == "RUT"; }
    else if i == 2 { assert c == "ContactoPrincipal"; }
    else if i == 3 || i == 7 { assert c == "TelefonoContacto"; }
    else if i == 4 || i == 8 { assert c == "EmailContacto"; }
    else { assert c == "Activo"; }
  }

  /** Two rules write the same column exactly when one is the alias of the other. */
  lemma SameColumnIffAlias()
    ensures forall i, j :: 0 <= i < j < |UpdateRules| ==>
              (UpdateRules[i].column == UpdateRules[j].column <==> (i, j) in {(0, 5), (1, 6), (3, 7), (4, 8)})
  {
    var widths := [11, 3, 17, 16, 13, 11, 3, 16, 13, 6];
    assert forall i :: 0 <= i < |UpdateRules| ==> |UpdateRules[i].column| == widths[i];
  }

  /** A collision puts some column into the SET list twice. */
  lemma CollisionRepeats(data: Obj)
    requires AliasCollision(data)
    ensures |SetList(data)| > 0 && !Distinct(Columns(SetList(data)))
  {
    SameColumnIffAlias();
    if Truthy(Get(data, "razonSocial")) && Truthy(Get(data, "nombreCompleto")) {
      SharedColumn(UpdateRules, data, 0, 5);
    } else if Truthy(Get(data, "rut")) && Truthy(Get(data, "dni")) {
      SharedColumn(UpdateRules, data, 1, 6);
    } else if Truthy(Get(data, "telefonoContacto")) && Truthy(Get(data, "telefono")) {
      SharedColumn(UpdateRules, data, 3, 7);
    } else {
      SharedColumn(UpdateRules, data, 4, 8);
    }
  }

  /** Every column of a SET list is a column of some rule, so none holds a capital K. */
  lemma SetColumnsKeyFree(data: Obj, c: string)
    requires c in Columns(SetList(data))
    ensures 'K' !in c
  {
    ColumnOfSomeRule(UpdateRules, data, c);
    var k :| 0 <= k < |UpdateRules| && UpdateRules[k].column == c;
    ColumnKeyFree(k);
  }

  /**
   * A column given under both its names is rejected by the database before the id is looked at, with an error that has
   * no status and passes the catch block; the table is unchanged.
   */
  lemma AliasesCollide(rows: map<int, Obj>, id: string, data: Obj, fault: Option<string>)
    requires !ParseIntIsNaN(Str(id)) && AliasCollision(data)
    ensures FirstDuplicate(Columns(SetList(data))).Some?
    ensures UpdateEffect(rows, id, data, fault) ==
              Effect(Threw(Raise(DuplicateColumnMessage(FirstDuplicate(Columns(SetList(data))).value))), rows)
  {
    CollisionRepeats(data);
    var cols := Columns(SetList(data));
    DuplicateRejected(rows, id, Always, SetList(data), fault);
    var c := FirstDuplicate(cols).value;
    SetColumnsKeyFree(data, c);
    DuplicateColumnKeyFree(c);
    KeyFreePassesThrough(UpdateClauses, Raise(DuplicateColumnMessage(c)));
  }

  /** With razonSocial and nombreCompleto both given, RazonSocial heads the SET list and comes again later. */
  lemma RazonSocialFirstRepeated(data: Obj)
    requires Truthy(Get(data, "razonSocial")) && Truthy(Get(data, "nombreCompleto"))
    ensures FirstDuplicate(Columns(SetList(data))) == Some("RazonSocial")
  {
    BuildPairs(UpdateRules, data);
    var cols := Columns(SetList(data));
    var ch := Chosen(UpdateRules, data);
    assert Included(UpdateRules[5], data);
    var q :| 0 <= q < |ch| && ch[q] == 5;
    FirstChosen(UpdateRules, data);
    assert cols[0] == UpdateRules[0].column == "RazonSocial";
    assert cols[q] == UpdateRules[5].column == "RazonSocial";
    HeadRepeated(cols, q);
  }

  /** Sending razonSocial with nombreCompleto names RazonSocial in the error. */
  lemma RazonSocialTwice(rows: map<int, Obj>, id: string, data: Obj, fault: Option<string>)
    requires !ParseIntIsNaN(Str(id)) && Truthy(Get(data, "razonSocial")) && Truthy(Get(data, "nombreCompleto"))
    ensures UpdateEffect(rows, id, data, fault) == Effect(Threw(Raise(DuplicateColumnMessage("RazonSocial"))), rows)
  {
    AliasesCollide(rows, id, data, fault);
    RazonSocialFirstRepeated(data);
  }

  /** Without an alias collision the SET list is accepted whenever it is non-empty. */
  lemma UpdateSetWellFormed(data: Obj)
    requires !AliasCollision(data) && |Fragments(UpdateRules, data)| > 0
    ensures var assigns := SetList(data); |assigns| > 0 && Distinct(Columns(assigns))
  {
    forall i, j | 0 <= i < j < |UpdateRules| && Included(UpdateRules[i], data) && Included(UpdateRules[j], data)
      ensures UpdateRules[i].column != UpdateRules[j].column
    {
      SharedColumnIsAlias(data, i, j);
    }
    WellFormedSet(UpdateRules, data);
  }

  /** Two rules taking part that write the same column are a column and its alias. */
  lemma SharedColumnIsAlias(data: Obj, i: int, j: int)
    requires 0 <= i < j < |UpdateRules| && Included(UpdateRules[i], data) && Included(UpdateRules[j], data)
    ensures UpdateRules[i].column == UpdateRules[j].column ==> AliasCollision(data)
  {
    SameColumnIffAlias();
  }

  /** The 404 of `updateAbonado` passes its catch block unchanged. */
  lemma MessagesKeyFree()
    ensures Reclassify(UpdateClauses, Fail(NotFoundForUpdate, 404)) == Fail(NotFoundForUpdate, 404)
  {
    assert 'K' !in NotFoundForUpdate;
    KeyFreePassesThrough(UpdateClauses, Fail(NotFoundForUpdate, 404));
  }

  /** Once the SET list is accepted, a missing subscriber gives 404 and leaves the table unchanged. */
  lemma UpdateMissingRow(rows: map<int, Obj>, id: string, data: Obj, fault: Option<string>)
    requires !AliasCollision(data) && |Fragments(UpdateRules, data)| > 0
    requires ToInt(id).Some? && ToInt(id).value !in rows
    ensures UpdateEffect(rows, id, data, fault) == Effect(Threw(Fail(NotFoundForUpdate, 404)), rows)
  {
    ConvertibleIdPassesGuard(id);
    UpdateSetWellFormed(data);
    MessagesKeyFree();
  }

  /** A store error on an existing subscriber becomes 409 on a unique-key violation and otherwise passes unchanged. */
  lemma UpdateErrors(rows: map<int, Obj>, id: string, data: Obj, m: string)
    requires !AliasCollision(data) && |Fragments(UpdateRules, data)| > 0
    requires ToInt(id).Some? && ToInt(id).value in rows
    ensures var r := UpdateEffect(rows, id, data, Some(m));
            r.rows == rows &&
            (Contains(m, UniqueKey) ==> r.reply == Threw(Fail(RutInUse, 409))) &&
            (!Contains(m, UniqueKey) ==> r.reply == Threw(Raise(m)))
  {
    ConvertibleIdPassesGuard(id);
    UpdateSetWellFormed(data);
    ReclassifySpec(UpdateClauses, Raise(m));
  }

  /** An existing subscriber is rewritten by the SET list of the body, and the updated view is returned. */
  lemma UpdateRewrites(rows: map<int, Obj>, id: string, data: Obj)
    requires !AliasCollision(data) && |Fragments(UpdateRules, data)| > 0
    requires ToInt(id).Some? && ToInt(id).value in rows
    ensures var k := ToInt(id).value;
            var e := UpdateEffect(rows, id, data, None);
            e.reply == Returned(AbonadoModel.UpdatedView(Change(k, rows[k], Assign(rows[k], SetList(data))))) &&
            e.rows == rows[k := Assign(rows[k], SetList(data))]
  {
    ConvertibleIdPassesGuard(id);
    UpdateSetWellFormed(data);
  }

  // ---------------------------------------------------------------------
  // deactivateAbonado
  // ---------------------------------------------------------------------

  function DeactivateEffect(rows: map<int, Obj>, id: string): Effect<Obj> {
    if ParseIntIsNaN(Str(id)) then Effect(Threw(Fail(BadId, 400)), rows)
    else
      var e := AbonadoModel.SoftDeleteEffect(rows, id);
      Effect(Found(e.reply, NotFoundOrInactive), e.rows)
  }

  method DeactivateAbonado(t: Table, id: string) returns (r: Outcome<Obj>)
    requires t.Valid()
    modifies t
    ensures t.Valid() && t.nextId == old(t.nextId)
    ensures r == DeactivateEffect(old(t.rows), id).reply && t.rows == DeactivateEffect(old(t.rows), id).rows
  {
    if ParseIntIsNaN(Str(id)) {
      return Threw(Fail(BadId, 400));
    }
    var deactivated := AbonadoModel.SoftDelete(t, id);
    r := Found(deactivated, NotFoundOrInactive);
  }

  /** `deactivateAbonado`: 400 for a non-numeric id; 404 for a missing or inactive subscriber; otherwise the row is flipped. */
  lemma DeactivateSpec(rows: map<int, Obj>, id: string)
    ensures var e := DeactivateEffect(rows, id);
            (ParseIntIsNaN(Str(id)) ==> e == Effect(Threw(Fail(BadId, 400)), rows)) &&
            (ToInt(id).Some? ==>
               var k := ToInt(id).value;
               if k in rows && AsInt(Get(rows[k], "Activo")) == Some(1) then
                 e.reply.Returned? && e.rows == rows[k := rows[k]["Activo" := Bool(false)]]
               else e == Effect(Threw(Fail(NotFoundOrInactive, 404)), rows))
  {
    ConvertibleIdPassesGuard(id);
    if ToInt(id).Some? {
      AbonadoModel.SoftDeleteSpec(rows, id);
    }
  }
}
