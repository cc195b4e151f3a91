/** The statements of the work-order model on the ASIGNACIONES table. */
module AsignacionModel {
  import opened Js
  import opened Sql

  const Programada: string := "Programada"
  const Finalizada: string := "Finalizada"

  /** The row `create` inserts: `Estado` defaults to 'Programada' when the body does not give it. */
  function NewRow(data: Obj): (row: Obj)
    ensures Get(data, "Estado") == Undefined ==> Get(row, "Estado") == Str(Programada)
    ensures Get(data, "Estado") != Undefined ==> Get(row, "Estado") == Get(data, "Estado")
  {
    map["ID_Direccion" := Get(data, "ID_Direccion"), "ID_Tecnico" := Get(data, "ID_Tecnico"),
        "TipoOT" := Get(data, "TipoOT"), "Descripcion" := Get(data, "Descripcion"),
        "FechaProgramada" := Get(data, "FechaProgramada"),
        "Estado" := if Get(data, "Estado") == Undefined then Str(Programada) else Get(data, "Estado")]
  }

  /** `OUTPUT INSERTED.ID_Asignacion, INSERTED.ID_Direccion, INSERTED.ID_Tecnico, INSERTED.TipoOT, INSERTED.FechaProgramada` */
  function CreatedView(k: int, row: Obj): Obj {
    map["ID_Asignacion" := Num(k), "ID_Direccion" := Get(row, "ID_Direccion"), "ID_Tecnico" := Get(row, "ID_Tecnico"),
        "TipoOT" := Get(row, "TipoOT"), "FechaProgramada" := Get(row, "FechaProgramada")]
  }

  method Create(t: Table, data: Obj, fault: Option<string>) returns (r: Outcome<Obj>)
    requires t.Valid()
    modifies t
    ensures t.Valid()
    ensures fault.Some? ==> r == Threw(Raise(fault.value)) && t.rows == old(t.rows) && t.nextId == old(t.nextId)
    ensures fault.None? ==>
              r == Returned(CreatedView(old(t.nextId), NewRow(data))) &&
              t.rows == old(t.rows)[old(t.nextId) := NewRow(data)] && t.nextId == old(t.nextId) + 1
  {
    var inserted := t.Insert(NewRow(data), fault);
    match inserted
    case Threw(e) => r := Threw(e);
    case Returned(k) => r := Returned(CreatedView(k, NewRow(data)));
  }

  /** The order's own columns that `findById` selects. */
  function DetailView(k: int, row: Obj): Obj {
    map["ID_Asignacion" := Num(k), "TipoOT" := Get(row, "TipoOT"), "Descripcion" := Get(row, "Descripcion"),
        "FechaProgramada" := Get(row, "FechaProgramada"), "Estado" := Get(row, "Estado"),
        "ID_Direccion" := Get(row, "ID_Direccion"), "ID_Tecnico" := Get(row, "ID_Tecnico")]
  }

  /** `findById` (`result[0]`): the row with that key, or nothing. */
  function FindById(rows: map<int, Obj>, id: string): (r: Outcome<Option<Obj>>)
    ensures r.Threw? <==> ToInt(id).None?
    ensures r.Returned? ==> (r.value.Some? <==> ToInt(id).value in rows)
    ensures r.Returned? && r.value.Some? ==> r.value.value == DetailView(ToInt(id).value, rows[ToInt(id).value])
  {
    match SelectById(rows, id)
    case Threw(e) => Threw(e)
    case Returned(None) => Returned(None)
    case Returned(Some(row)) => Returned(Some(DetailView(ToInt(id).value, row)))
  }

  /** `OUTPUT INSERTED.ID_Asignacion, INSERTED.TipoOT, INSERTED.Descripcion, INSERTED.FechaProgramada, INSERTED.Estado` */
  function UpdatedView(c: Change): Obj {
    map["ID_Asignacion" := Num(c.key), "TipoOT" := Get(c.after, "TipoOT"), "Descripcion" := Get(c.after, "Descripcion"),
        "FechaProgramada" := Get(c.after, "FechaProgramada"), "Estado" := Get(c.after, "Estado")]
  }

  function UpdateEffect(rows: map<int, Obj>, id: string, updates: seq<string>, params: seq<Value>, fault: Option<string>)
    : Effect<Option<Obj>>
    requires |params| == |updates|
  {
    Output(Sql.UpdateEffect(rows, id, Always, Pairs(updates, params), fault), UpdatedView)
  }

  /** `update` pushes the id onto the caller's `params` array and then runs the UPDATE. */
  method Update(t: Table, id: string, updates: seq<string>, params: JsArray, fault: Option<string>)
    returns (r: Outcome<Option<Obj>>)
    requires t.Valid() && |params.elems| == |updates|
    modifies t, params
    ensures t.Valid() && t.nextId == old(t.nextId)
    ensures params.elems == old(params.elems) + [Str(id)]
    ensures r == UpdateEffect(old(t.rows), id, updates, old(params.elems), fault).reply
    ensures t.rows == UpdateEffect(old(t.rows), id, updates, old(params.elems), fault).rows
  {
    var changed := t.UpdatePositional(id, updates, params, fault);
    r := Output(Effect(changed, t.rows), UpdatedView).reply;
  }

  /** `findActiveByDispositivoId` is a stub: whatever the device, it answers null. */
  function FindActiveByDispositivoId(idDispositivo: Value): (r: Value)
    ensures r == Null
  {
    Null
  }

  // ---------------------------------------------------------------------
  // deactivate: finalize an order
  // ---------------------------------------------------------------------

  /** `SET Estado = 'Finalizada', FechaFinReal = GETDATE() ... WHERE ID_Asignacion = ? AND Estado <> 'Programada'` */
  function FinalizeSet(now: Value): seq<Assignment> {
    [("Estado", Str(Finalizada)), ("FechaFinReal", now)]
  }

  /** `OUTPUT DELETED.ID_Asignacion, INSERTED.Estado, INSERTED.FechaFinReal` */
  function FinalizedView(c: Change): Obj {
    map["ID_Asignacion" := Num(c.key), "Estado" := Get(c.after, "Estado"), "FechaFinReal" := Get(c.after, "FechaFinReal")]
  }

  /** The statement at server time `now` (GETDATE()). */
  function DeactivateEffect(rows: map<int, Obj>, id: string, now: Value): Effect<Option<Obj>> {
    Output(Sql.UpdateEffect(rows, id, TextDiffers("Estado", Programada), FinalizeSet(now), None), FinalizedView)
  }

  method Deactivate(t: Table, id: string, now: Value) returns (r: Outcome<Option<Obj>>)
    requires t.Valid()
    modifies t
    ensures t.Valid() && t.nextId == old(t.nextId)
    ensures r == DeactivateEffect(old(t.rows), id, now).reply && t.rows == DeactivateEffect(old(t.rows), id, now).rows
  {
    var changed := t.Update(id, TextDiffers("Estado", Programada), FinalizeSet(now), None);
    r := Output(Effect(changed, t.rows), FinalizedView).reply;
  }

  lemma FinalizeAssigns(row: Obj, now: Value)
    ensures Columns(FinalizeSet(now)) == ["Estado", "FechaFinReal"] && Distinct(Columns(FinalizeSet(now)))
    ensures Assign(row, FinalizeSet(now)) == row["Estado" := Str(Finalizada)]["FechaFinReal" := now]
  {
    assert Assign(row, FinalizeSet(now)) == Assign(row["Estado" := Str(Finalizada)], [("FechaFinReal", now)]);
    AssignOne(row["Estado" := Str(Finalizada)], "FechaFinReal", now);
  }

  /**
   * `deactivate` finalizes and stamps the selected order exactly when its Estado is set and is not 'Programada'; a
   * missing order, a 'Programada' one and one with no Estado are left alone and nothing is shown.
   */
  lemma DeactivateSpec(rows: map<int, Obj>, id: string, now: Value)
    requires ToInt(id).Some?
    ensures var k := ToInt(id).value;
            var e := DeactivateEffect(rows, id, now);
            if k in rows && Present(Get(rows[k], "Estado")) && Get(rows[k], "Estado") != Str(Programada) then
              e.reply == Returned(Some(map["ID_Asignacion" := Num(k), "Estado" := Str(Finalizada), "FechaFinReal" := now])) &&
              e.rows == rows[k := rows[k]["Estado" := Str(Finalizada)]["FechaFinReal" := now]]
            else e == Effect(Returned(None), rows)
  {
    var k := ToInt(id).value;
    FinalizeAssigns(if k in rows then rows[k] else map[], now);
  }

  /** A freshly created order (Estado defaulted to 'Programada') cannot be finalized. */
  lemma FreshOrderStays(rows: map<int, Obj>, data: Obj, id: string, now: Value)
    requires Get(data, "Estado") == Undefined && ToInt(id).Some?
    ensures var seeded := rows[ToInt(id).value := NewRow(data)];
            DeactivateEffect(seeded, id, now) == Effect(Returned(None), seeded)
  {
    DeactivateSpec(rows[ToInt(id).value := NewRow(data)], id, now);
  }

  /** An order already 'Finalizada' matches again: a second `deactivate` re-stamps FechaFinReal with the new time. */
  lemma FinalizedIsRestamped(rows: map<int, Obj>, id: string, now1: Value, now2: Value)
    ensures var first := DeactivateEffect(rows, id, now1);
            var second := DeactivateEffect(first.rows, id, now2);
            first.reply.Returned? && first.reply.value.Some? ==>
              var k := ToInt(id).value;
              second.reply.Returned? && second.reply.value.Some? &&
              second.rows == first.rows[k := first.rows[k]["FechaFinReal" := now2]]
  {
    var first := DeactivateEffect(rows, id, now1);
    if first.reply.Returned? && first.reply.value.Some? {
      var k := ToInt(id).value;
      FinalizeAssigns(rows[k], now1);
      FinalizeAssigns(first.rows[k], now2);
      assert first.rows[k]["Estado" := Str(Finalizada)]["FechaFinReal" := now2] == first.rows[k]["FechaFinReal" := now2];
    }
  }

  // ---------------------------------------------------------------------
  // The guard `deactivate` evidently means: leave finalized orders alone
  // ---------------------------------------------------------------------

  /** The same statement with `Estado <> 'Finalizada'` in the WHERE clause. */
  function FinalizeIntendedEffect(rows: map<int, Obj>, id: string, now: Value): Effect<Option<Obj>> {
    Output(Sql.UpdateEffect(rows, id, TextDiffers("Estado", Finalizada), FinalizeSet(now), None), FinalizedView)
  }

  method FinalizeIntended(t: Table, id: string, now: Value) returns (r: Outcome<Option<Obj>>)
    requires t.Valid()
    modifies t
    ensures t.Valid() && t.nextId == old(t.nextId)
    ensures r == FinalizeIntendedEffect(old(t.rows), id, now).reply && t.rows == FinalizeIntendedEffect(old(t.rows), id, now).rows
  {
    var changed := t.Update(id, TextDiffers("Estado", Finalizada), FinalizeSet(now), None);
    r := Output(Effect(changed, t.rows), FinalizedView).reply;
  }

  /** The corrected statement finalizes and stamps the selected order exactly when it has an Estado other than 'Finalizada'. */
  lemma FinalizeIntendedSpec(rows: map<int, Obj>, id: string, now: Value)
    requires ToInt(id).Some?
    ensures var k := ToInt(id).value;
            var e := FinalizeIntendedEffect(rows, id, now);
            if k in rows && Present(Get(rows[k], "Estado")) && Get(rows[k], "Estado") != Str(Finalizada) then
              e.reply == Returned(Some(map["ID_Asignacion" := Num(k), "Estado" := Str(Finalizada), "FechaFinReal" := now])) &&
              e.rows == rows[k := rows[k]["Estado" := Str(Finalizada)]["FechaFinReal" := now]]
            else e == Effect(Returned(None), rows)
  {
    var k := ToInt(id).value;
    FinalizeAssigns(if k in rows then rows[k] else map[], now);
  }

  /** Finalizing twice: the second corrected statement finds nothing and leaves the first one's stamp in place. */
  lemma FinalizeIntendedOnce(rows: map<int, Obj>, id: string, now1: Value, now2: Value)
    ensures var first := FinalizeIntendedEffect(rows, id, now1);
            first.reply.Returned? && first.reply.value.Some? ==>
              FinalizeIntendedEffect(first.rows, id, now2) == Effect(Returned(None), first.rows)
  {
    var first := FinalizeIntendedEffect(rows, id, now1);
    if first.reply.Returned? && first.reply.value.Some? {
      FinalizeIntendedSpec(rows, id, now1);
      FinalizeIntendedSpec(first.rows, id, now2);
    }
  }

  /** A freshly created order can be finalized by the corrected statement. */
  lemma FreshOrderFinalizes(rows: map<int, Obj>, data: Obj, id: string, now: Value)
    requires Get(data, "Estado") == Undefined && ToInt(id).Some?
    ensures var seeded := rows[ToInt(id).value := NewRow(data)];
            var e := FinalizeIntendedEffect(seeded, id, now);
            e.reply.Returned? && e.reply.value.Some?
  {
    FinalizeIntendedSpec(rows[ToInt(id).value := NewRow(data)], id, now);
  }
}
