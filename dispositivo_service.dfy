/**
 * The device service: creation (with the installation date rewritten in place), lookup by id, partial update and
 * deactivation of devices.
 *
 * `new Date(v)` and `toISOString()` are one oracle, `toIso`: the ISO text of the date `v` denotes, or None when the
 * date is invalid (`isNaN(date)`).
 */
module DispositivoService {
  import opened Js
  import opened Sql
  import opened UpdateBuilder
  import opened Errors
  import DispositivoModel

  const MissingFields: string := "Faltan campos obligatorios: ID_Modelo, Serie y NombreDispositivo."
  const BadDate: string := "El formato de FechaInstalacion no es válido."
  const SerieTaken: string := "La Serie proporcionada ya está registrada."
  const BadReference: string := "El ID de Modelo o la Dirección no existen."
  const BadId: string := "El ID de dispositivo debe ser un número válido."
  const NotFound: string := "Dispositivo no encontrado."
  const BadDateForUpdate: string := "El formato de FechaInstalacion no es válido para actualizar."
  const NoFields: string := "Se requiere al menos un campo para actualizar."
  const NotFoundForUpdate: string := "Dispositivo no encontrado para actualizar."
  const SerieInUse: string := "La Serie proporcionada ya está siendo utilizada por otro dispositivo."
  const BadReferenceForUpdate: string := "El ID de Modelo o la Dirección proporcionada no existen."
  const NotFoundOrInactive: string := "Dispositivo no encontrado o ya estaba inactivo."

  // ---------------------------------------------------------------------
  // The installation date
  // ---------------------------------------------------------------------

  /** `iso.slice(0, 10)`: the YYYY-MM-DD prefix of an ISO timestamp. */
  function IsoDay(iso: string): (d: string)
    ensures d <= iso && |d| == if |iso| < 10 then |iso| else 10
  {
    if |iso| < 10 then iso else iso[..10]
  }

  /**
   * The body after `if (data.FechaInstalacion) { ... data.FechaInstalacion = date.toISOString().slice(0, 10); }`, or the
   * 400 error `message` when the date is invalid. A falsy date is left as it is.
   */
  function Normalize(data: Obj, toIso: Value -> Option<string>, message: string): (r: Outcome<Obj>)
    ensures !Truthy(Get(data, "FechaInstalacion")) ==> r == Returned(data)
    ensures r.Threw? <==> Truthy(Get(data, "FechaInstalacion")) && toIso(Get(data, "FechaInstalacion")).None?
    ensures r.Threw? ==> r == Threw(Fail(message, 400))
    ensures r.Returned? ==> r.value.Keys >= data.Keys && forall k :: k in data && k != "FechaInstalacion" ==> r.value[k] == data[k]
  {
    var v := Get(data, "FechaInstalacion");
    if !Truthy(v) then Returned(data)
    else match toIso(v)
      case None => Threw(Fail(message, 400))
      case Some(iso) => Returned(data["FechaInstalacion" := Str(IsoDay(iso))])
  }

  /** A valid date is replaced by the first ten characters of its ISO text, its YYYY-MM-DD day; nothing else changes. */
  lemma DateRewritten(data: Obj, toIso: Value -> Option<string>, message: string)
    requires Truthy(Get(data, "FechaInstalacion")) && toIso(Get(data, "FechaInstalacion")).Some?
    ensures var iso := toIso(Get(data, "FechaInstalacion")).value;
            var r := Normalize(data, toIso, message);
            r.Returned? && r.value.Keys == data.Keys &&
            Get(r.value, "FechaInstalacion").Str? && Get(r.value, "FechaInstalacion").s <= iso &&
            |Get(r.value, "FechaInstalacion").s| == (if |iso| < 10 then |iso| else 10)
  {
  }

  /** The rewrite in place on the request body; on an invalid date the body is left alone and the 400 error returned. */
  method RewriteDate(data: JsObject, toIso: Value -> Option<string>, message: string) returns (invalid: Option<Exception>)
    modifies data
    ensures Normalize(old(data.props), toIso, message) ==
              (if invalid.Some? then Threw(invalid.value) else Returned(data.props))
    ensures invalid.Some? ==> data.props == old(data.props)
  {
    invalid := None;
    var v := Get(data.props, "FechaInstalacion");
    if Truthy(v) {
      var iso := toIso(v);
      if iso.Some? {
        data.props := data.props["FechaInstalacion" := Str(IsoDay(iso.value))];
      } else {
        invalid := Some(Fail(message, 400));
      }
    }
  }

  // ---------------------------------------------------------------------
  // createDispositivo
  // ---------------------------------------------------------------------

  /** `if (!ID_Modelo || !Serie || !NombreDispositivo)` */
  predicate HasRequired(data: Obj) {
    Truthy(Get(data, "ID_Modelo")) && Truthy(Get(data, "Serie")) && Truthy(Get(data, "NombreDispositivo"))
  }

  const CreateClauses: seq<Clause> := [Clause(UniqueKey, SerieTaken, 409), Clause(ForeignKey, BadReference, 400)]

  /**
   * What `createDispositivo` settles to when the next identity value is `nextId` and the database raises `fault` for the
   * insert, if anything.
   */
  function CreateReply(nextId: int, data: Obj, toIso: Value -> Option<string>, fault: Option<string>): (r: Outcome<Obj>)
    ensures !HasRequired(data) ==> r == Threw(Fail(MissingFields, 400))
    ensures HasRequired(data) && Normalize(data, toIso, BadDate).Threw? ==> r == Threw(Fail(BadDate, 400))
    ensures r.Returned? <==> HasRequired(data) && Normalize(data, toIso, BadDate).Returned? && fault.None?
    ensures r.Returned? ==>
              r.value == map["ID_Dispositivo" := Num(nextId), "Serie" := Get(data, "Serie"),
                             "NombreDispositivo" := Get(data, "NombreDispositivo")]
  {
    if !HasRequired(data) then Threw(Fail(MissingFields, 400))
    else match Normalize(data, toIso, BadDate)
      case Threw(e) => Threw(e)
      case Returned(d) =>
        Catch(CreateClauses,
              if fault.Some? then Threw(Raise(fault.value))
              else Returned(DispositivoModel.CreatedView(nextId, DispositivoModel.NewRow(d))))
  }

  /** The body as `createDispositivo` leaves it: rewritten only once the required fields and the date have passed. */
  function CreatedData(data: Obj, toIso: Value -> Option<string>): Obj {
    if HasRequired(data) && Normalize(data, toIso, BadDate).Returned? then Normalize(data, toIso, BadDate).value else data
  }

  method CreateDispositivo(t: Table, data: JsObject, toIso: Value -> Option<string>, fault: Option<string>)
    returns (r: Outcome<Obj>)
    requires t.Valid()
    modifies t, data
    ensures t.Valid()
    ensures r == CreateReply(old(t.nextId), old(data.props), toIso, fault)
    ensures data.props == CreatedData(old(data.props), toIso)
    ensures r.Returned? ==> t.rows == old(t.rows)[old(t.nextId) := DispositivoModel.NewRow(old(data.props))]
    ensures r.Threw? ==> t.rows == old(t.rows)
  {
    if !HasRequired(data.props) {
      return Threw(Fail(MissingFields, 400));
    }
    ghost var body := data.props;
    var invalid := RewriteDate(data, toIso, BadDate);
    if invalid.Some? {
      return Threw(invalid.value);
    }
    CreateIgnoresDate(body, toIso);
    var created := DispositivoModel.Create(t, data.props, fault);
    match created
    case Threw(e) => r := Threw(Reclassify(CreateClauses, e));
    case Returned(d) => r := created;
  }

  /** The stored row does not depend on the date rewrite: the model's insert does not take FechaInstalacion. */
  lemma CreateIgnoresDate(data: Obj, toIso: Value -> Option<string>)
    ensures Normalize(data, toIso, BadDate).Returned? ==>
              DispositivoModel.NewRow(Normalize(data, toIso, BadDate).value) == DispositivoModel.NewRow(data)
  {
  }

  /** A store error on create becomes 409 on a unique-key violation, else 400 on a foreign-key one, else passes unchanged. */
  lemma CreateErrors(nextId: int, data: Obj, toIso: Value -> Option<string>, m: string)
    requires HasRequired(data) && Normalize(data, toIso, BadDate).Returned?
    ensures var r := CreateReply(nextId, data, toIso, Some(m));
            (Contains(m, UniqueKey) ==> r == Threw(Fail(SerieTaken, 409))) &&
            (!Contains(m, UniqueKey) && Contains(m, ForeignKey) ==> r == Threw(Fail(BadReference, 400))) &&
            (!Contains(m, UniqueKey) && !Contains(m, ForeignKey) ==> r == Threw(Raise(m)))
  {
    ReclassifySpec(CreateClauses, Raise(m));
  }

  // ---------------------------------------------------------------------
  // getDispositivoById
  // ---------------------------------------------------------------------

  function GetDispositivoById(rows: map<int, Obj>, id: string): (r: Outcome<Obj>)
    ensures ParseIntIsNaN(Str(id)) ==> r == Threw(Fail(BadId, 400))
    ensures r.Returned? <==> ToInt(id).Some? && ToInt(id).value in rows
    ensures r.Returned? ==> r.value == DispositivoModel.DetailView(ToInt(id).value, rows[ToInt(id).value])
    ensures ToInt(id).Some? && !r.Returned? ==> r == Threw(Fail(NotFound, 404))
  {
    ConvertibleIdPassesGuard(id);
    if ParseIntIsNaN(Str(id)) then Threw(Fail(BadId, 400))
    else Found(DispositivoModel.FindById(rows, id), NotFound)
  }

  // ---------------------------------------------------------------------
  // updateDispositivo
  // ---------------------------------------------------------------------

  /** Estado is the one key taken whenever it is not undefined or null; the others are taken when truthy. */
  const UpdateRules: seq<Rule> := [
    Rule("ID_Modelo", "ID_Modelo", IfTruthy, None),
    Rule("Serie", "NumeroSerie", IfTruthy, None),
    Rule("NombreDispositivo", "NombreDispositivo", IfTruthy, None),
    Rule("Ubicacion", "Zona_Ubicacion", IfTruthy, None),
    Rule("Estado", "Estado", IfPresent, None),
    Rule("FechaInstalacion", "FechaInstalacion", IfTruthy, None)
  ]

  /** The pushes of `updateDispositivo`, in rule order, on the body as rewritten. */
  method BuildUpdate(data: Obj) returns (b: Built)
    ensures Build(UpdateRules, data) == Returned(b)
  {
    var updates, params := Push0To2(data, [], []);
    updates, params := Push3To5(data, updates, params);
    Finish(UpdateRules, data, updates, params);
    b := Built(updates, params);
  }

  /** The pushes for ID_Modelo, Serie and NombreDispositivo. */
  method Push0To2(data: Obj, updates0: seq<string>, params0: seq<Value>) returns (updates: seq<string>, params: seq<Value>)
    requires Upto(UpdateRules, 0, data, updates0, params0)
    ensures Upto(UpdateRules, 3, data, updates, params)
  {
    updates, params := updates0, params0;
    ghost var u0, p0 := updates, params;
    assert Fragment("ID_Modelo") == "ID_Modelo = ?";
    if Truthy(Get(data, "ID_Modelo")) {
      updates := updates + ["ID_Modelo = ?"];
      params := params + [Get(data, "ID_Modelo")];
    }
    Advance(UpdateRules, 0, data, u0, p0, updates, params);
    ghost var u1, p1 := updates, params;
    assert Fragment("NumeroSerie") == "NumeroSerie = ?";
    if Truthy(Get(data, "Serie")) {
      updates := updates + ["NumeroSerie = ?"];
      params := params + [Get(data, "Serie")];
    }
    Advance(UpdateRules, 1, data, u1, p1, updates, params);
    ghost var u2, p2 := updates, params;
    assert Fragment("NombreDispositivo") == "NombreDispositivo = ?";
    if Truthy(Get(data, "NombreDispositivo")) {
      updates := updates + ["NombreDispositivo = ?"];
      params := params + [Get(data, "NombreDispositivo")];
    }
    Advance(UpdateRules, 2, data, u2, p2, updates, params);
  }

  /** The pushes for Ubicacion, Estado (taken whenever set) and FechaInstalacion. */
  method Push3To5(data: Obj, updates0: seq<string>, params0: seq<Value>) returns (updates: seq<string>, params: seq<Value>)
    requires Upto(UpdateRules, 3, data, updates0, params0)
    ensures Upto(UpdateRules, 6, data, updates, params)
  {
    updates, params := updates0, params0;
    ghost var u3, p3 := updates, params;
    assert Fragment("Zona_Ubicacion") == "Zona_Ubicacion = ?";
    if Truthy(Get(data, "Ubicacion")) {
      updates := updates + ["Zona_Ubicacion = ?"];
      params := params + [Get(data, "Ubicacion")];
    }
    Advance(UpdateRules, 3, data, u3, p3, updates, params);
    ghost var u4, p4 := updates, params;
    assert Fragment("Estado") == "Estado = ?";
    if Get(data, "Estado") != Undefined && Get(data, "Estado") != Null {
      updates := updates + ["Estado = ?"];
      params := params + [Get(data, "Estado")];
    }
    Advance(UpdateRules, 4, data, u4, p4, updates, params);
    ghost var u5, p5 := updates, params;
    assert Fragment("FechaInstalacion") == "FechaInstalacion = ?";
    if Truthy(Get(data, "FechaInstalacion")) {
      updates := updates + ["FechaInstalacion = ?"];
      params := params + [Get(data, "FechaInstalacion")];
    }
    Advance(UpdateRules, 5, data, u5, p5, updates, params);
  }

  const UpdateClauses: seq<Clause> :=
    [Clause(UniqueKey, SerieInUse, 409), Clause(ForeignKey, BadReferenceForUpdate, 400)]

  /** The steps after the date: the SET list of the rewritten body, the empty-list check, and the guarded model call. */
  function ApplyEffect(rows: map<int, Obj>, id: string, data: Obj, fault: Option<string>): Effect<Obj> {
    var updates := Fragments(UpdateRules, data);
    var params := Params(UpdateRules, data);
    if |updates| == 0 then Effect(Threw(Fail(NoFields, 400)), rows)
    else
      var e := DispositivoModel.UpdateEffect(rows, id, updates, params, fault);
      Effect(Catch(UpdateClauses, Found(e.reply, NotFoundForUpdate)), e.rows)
  }

  /** What `updateDispositivo` settles to, and the table after it. */
  function UpdateEffect(rows: map<int, Obj>, id: string, data: Obj, toIso: Value -> Option<string>, fault: Option<string>)
    : Effect<Obj>
  {
    if ParseIntIsNaN(Str(id)) then Effect(Threw(Fail(BadId, 400)), rows)
    else match Normalize(data, toIso, BadDateForUpdate)
      case Threw(e) => Effect(Threw(e), rows)
      case Returned(d) => ApplyEffect(rows, id, d, fault)
  }

  /** The body as `updateDispositivo` leaves it: the date is rewritten once the id has passed and the date is valid. */
  function UpdatedData(id: string, data: Obj, toIso: Value -> Option<string>): Obj {
    if !ParseIntIsNaN(Str(id)) && Normalize(data, toIso, BadDateForUpdate).Returned? then
      Normalize(data, toIso, BadDateForUpdate).value
    else data
  }

  method UpdateDispositivo(t: Table, id: string, data: JsObject, toIso: Value -> Option<string>, fault: Option<string>)
    returns (r: Outcome<Obj>)
    requires t.Valid()
    modifies t, data
    ensures t.Valid() && t.nextId == old(t.nextId)
    ensures Effect(r, t.rows) == UpdateEffect(old(t.rows), id, old(data.props), toIso, fault)
    ensures data.props == UpdatedData(id, old(data.props), toIso)
  {
    if ParseIntIsNaN(Str(id)) {
      return Threw(Fail(BadId, 400));
    }
    ghost var body := data.props;
    var invalid := RewriteDate(data, toIso, BadDateForUpdate);
    if invalid.Some? {
      return Threw(invalid.value);
    }
    assert UpdateEffect(t.rows, id, body, toIso, fault) == ApplyEffect(t.rows, id, data.props, fault);
    r := Apply(t, id, data.props, fault);
  }

  /** The steps of `updateDispositivo` after the date, on the body as rewritten. */
  method Apply(t: Table, id: string, d: Obj, fault: Option<string>) returns (r: Outcome<Obj>)
    requires t.Valid()
    modifies t
    ensures t.Valid() && t.nextId == old(t.nextId)
    ensures Effect(r, t.rows) == ApplyEffect(old(t.rows), id, d, fault)
  {
    var b := BuildUpdate(d);
    assert b == Built(Fragments(UpdateRules, d), Params(UpdateRules, d));
    if |b.updates| == 0 {
      return Threw(Fail(NoFields, 400));
    }
    var params := new JsArray(b.params);
    var updated := DispositivoModel.Update(t, id, b.updates, params, fault);
    r := Catch(UpdateClauses, Found(updated, NotFoundForUpdate));
  }

  /** A non-numeric id is rejected with 400 before the body is read or rewritten. */
  lemma UpdateRejectsBadId(rows: map<int, Obj>, id: string, data: Obj, toIso: Value -> Option<string>, fault: Option<string>)
    requires ParseIntIsNaN(Str(id))
    ensures UpdateEffect(rows, id, data, toIso, fault) == Effect(Threw(Fail(BadId, 400)), rows)
    ensures UpdatedData(id, data, toIso) == data
  {
  }

  /** An invalid truthy date is rejected with 400; neither the body nor the table changes. */
  lemma UpdateRejectsBadDate(rows: map<int, Obj>, id: string, data: Obj, toIso: Value -> Option<string>, fault: Option<string>)
    requires !ParseIntIsNaN(Str(id))
    requires Truthy(Get(data, "FechaInstalacion")) && toIso(Get(data, "FechaInstalacion")).None?
    ensures UpdateEffect(rows, id, data, toIso, fault) == Effect(Threw(Fail(BadDateForUpdate, 400)), rows)
    ensures UpdatedData(id, data, toIso) == data
  {
  }

  /** Once the id and the date pass, the SET list is empty exactly when no rule takes part, and then the reply is 400. */
  lemma UpdateNoFields(rows: map<int, Obj>, id: string, data: Obj, fault: Option<string>)
    ensures |Fragments(UpdateRules, data)| == 0 <==> forall i :: 0 <= i < |UpdateRules| ==> !Included(UpdateRules[i], data)
    ensures |Fragments(UpdateRules, data)| == 0 ==> ApplyEffect(rows, id, data, fault) == Effect(Threw(Fail(NoFields, 400)), rows)
  {
    EmptyIffNoneIncluded(UpdateRules, data);
  }

  /** The six rules write six different columns. */
  lemma RuleColumnsDistinct()
    ensures DistinctColumns(UpdateRules)
  {
  }

  /** With at least one rule taking part the SET list is accepted: non-empty, with distinct columns. */
  lemma UpdateSetWellFormed(data: Obj)
    requires |Fragments(UpdateRules, data)| > 0
    ensures var assigns := Pairs(Fragments(UpdateRules, data), Params(UpdateRules, data));
            |assigns| > 0 && Distinct(Columns(assigns))
  {
    RuleColumnsDistinct();
    WellFormedSet(UpdateRules, data);
  }

  /** The 404 of `updateDispositivo` passes its catch block unchanged. */
  lemma MessagesKeyFree()
    ensures Reclassify(UpdateClauses, Fail(NotFoundForUpdate, 404)) == Fail(NotFoundForUpdate, 404)
  {
    assert 'K' !in NotFoundForUpdate;
    KeyFreePassesThrough(UpdateClauses, Fail(NotFoundForUpdate, 404));
  }

  /** Once the SET list is non-empty, a missing row gives 404 and leaves the table unchanged. */
  lemma UpdateMissingRow(rows: map<int, Obj>, id: string, data: Obj, fault: Option<string>)
    requires |Fragments(UpdateRules, data)| > 0
    requires ToInt(id).Some? && ToInt(id).value !in rows
    ensures ApplyEffect(rows, id, data, fault) == Effect(Threw(Fail(NotFoundForUpdate, 404)), rows)
  {
    UpdateSetWellFormed(data);
    MessagesKeyFree();
  }

  /** A store error on an existing row becomes 409 on a unique-key violation, else 400 on a foreign-key one, else passes. */
  lemma UpdateErrors(rows: map<int, Obj>, id: string, data: Obj, m: string)
    requires |Fragments(UpdateRules, data)| > 0
    requires ToInt(id).Some? && ToInt(id).value in rows
    ensures var r := ApplyEffect(rows, id, data, Some(m));
            r.rows == rows &&
            (Contains(m, UniqueKey) ==> r.reply == Threw(Fail(SerieInUse, 409))) &&
            (!Contains(m, UniqueKey) && Contains(m, ForeignKey) ==> r.reply == Threw(Fail(BadReferenceForUpdate, 400))) &&
            (!Contains(m, UniqueKey) && !Contains(m, ForeignKey) ==> r.reply == Threw(Raise(m)))
  {
    UpdateSetWellFormed(data);
    ReclassifySpec(UpdateClauses, Raise(m));
  }

  /** An existing row is rewritten by the SET list of the (rewritten) body, and the updated view is returned. */
  lemma UpdateRewrites(rows: map<int, Obj>, id: string, data: Obj)
    requires |Fragments(UpdateRules, data)| > 0
    requires ToInt(id).Some? && ToInt(id).value in rows
    ensures var k := ToInt(id).value;
            var e := ApplyEffect(rows, id, data, None);
            var assigns := Pairs(Fragments(UpdateRules, data), Params(UpdateRules, data));
            e.reply == Returned(DispositivoModel.UpdatedView(Change(k, rows[k], Assign(rows[k], assigns)))) &&
            e.rows == rows[k := Assign(rows[k], assigns)]
  {
    UpdateSetWellFormed(data);
  }

  /** Estado takes part whenever it is set, even to a falsy value such as 0 or false. */
  lemma EstadoKeptWhenSet(data: Obj)
    requires Present(Get(data, "Estado"))
    ensures 4 in Chosen(UpdateRules, data)
  {
    assert Included(UpdateRules[4], data);
  }

  // ---------------------------------------------------------------------
  // deactivateDispositivo
  // ---------------------------------------------------------------------

  function DeactivateEffect(rows: map<int, Obj>, id: string): Effect<Obj> {
    if ParseIntIsNaN(Str(id)) then Effect(Threw(Fail(BadId, 400)), rows)
    else
      var e := DispositivoModel.SoftDeleteEffect(rows, id);
      Effect(Found(e.reply, NotFoundOrInactive), e.rows)
  }

  method DeactivateDispositivo(t: Table, id: string) returns (r: Outcome<Obj>)
    requires t.Valid()
    modifies t
    ensures t.Valid() && t.nextId == old(t.nextId)
    ensures r == DeactivateEffect(old(t.rows), id).reply && t.rows == DeactivateEffect(old(t.rows), id).rows
  {
    if ParseIntIsNaN(Str(id)) {
      return Threw(Fail(BadId, 400));
    }
    var deactivated := DispositivoModel.SoftDelete(t, id);
    r := Found(deactivated, NotFoundOrInactive);
  }

  /** `deactivateDispositivo`: 400 for a non-numeric id; 404 for a missing or inactive device; otherwise the row is flipped. */
  lemma DeactivateSpec(rows: map<int, Obj>, id: string)
    ensures var e := DeactivateEffect(rows, id);
            (ParseIntIsNaN(Str(id)) ==> e == Effect(Threw(Fail(BadId, 400)), rows)) &&
            (ToInt(id).Some? ==>
               var k := ToInt(id).value;
               if k in rows && AsInt(Get(rows[k], "Activo")) == Some(1) then
                 e.reply.Returned? && e.rows == rows[k := rows[k]["Activo" := Bool(false)]]
               else e == Effect(Threw(Fail(NotFoundOrInactive, 404)), rows))
  {
    ConvertibleIdPassesGuard(id);
    if ToInt(id).Some? {
      DispositivoModel.SoftDeleteSpec(rows, id);
    }
  }
}
