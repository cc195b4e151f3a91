/** The statements of the device model on the DISPOSITIVOS table. */
module DispositivoModel {
  import opened Js
  import opened Sql

  /** The row `create` inserts: `Activo` defaults to 1 when the body does not give it. */
  function NewRow(data: Obj): (row: Obj)
    ensures Get(data, "Activo") == Undefined ==> Get(row, "Activo") == Num(1)
    ensures Get(data, "Activo") != Undefined ==> Get(row, "Activo") == Get(data, "Activo")
    ensures "FechaInstalacion" !in row
  {
    map["ID_Modelo" := Get(data, "ID_Modelo"), "Serie" := Get(data, "Serie"),
        "NombreDispositivo" := Get(data, "NombreDispositivo"), "Ubicacion" := Get(data, "Ubicacion"),
        "Activo" := if Get(data, "Activo") == Undefined then Num(1) else Get(data, "Activo")]
  }

  /** `OUTPUT INSERTED.ID_Dispositivo, INSERTED.Serie, INSERTED.NombreDispositivo` */
  function CreatedView(k: int, row: Obj): Obj {
    map["ID_Dispositivo" := Num(k), "Serie" := Get(row, "Serie"), "NombreDispositivo" := Get(row, "NombreDispositivo")]
  }

  method Create(t: Table, data: Obj, fault: Option<string>) returns (r: Outcome<Obj>)
    requires t.Valid()
    modifies t
    ensures t.Valid()
    ensures fault.Some? ==> r == Threw(Raise(fault.value)) && t.rows == old(t.rows) && t.nextId == old(t.nextId)
    ensures fault.None? ==>
              r == Returned(CreatedView(old(t.nextId), NewRow(data))) &&
              t.rows == old(t.rows)[old(t.nextId) := NewRow(data)] && t.nextId == old(t.nextId) + 1
  {
    var inserted := t.Insert(NewRow(data), fault);
    match inserted
    case Threw(e) => r := Threw(e);
    case Returned(k) => r := Returned(CreatedView(k, NewRow(data)));
  }

  /** The columns `findById` selects. */
  function DetailView(k: int, row: Obj): Obj {
    map["ID_Dispositivo" := Num(k), "Serie" := Get(row, "Serie"), "NombreDispositivo" := Get(row, "NombreDispositivo"),
        "Ubicacion" := Get(row, "Ubicacion"), "FechaInstalacion" := Get(row, "FechaInstalacion"),
        "Activo" := Get(row, "Activo"), "ID_Modelo" := Get(row, "ID_Modelo")]
  }

  /** `findById` (`result[0]`): the row with that key, or nothing. */
  function FindById(rows: map<int, Obj>, id: string): (r: Outcome<Option<Obj>>)
    ensures r.Threw? <==> ToInt(id).None?
    ensures r.Returned? ==> (r.value.Some? <==> ToInt(id).value in rows)
    ensures r.Returned? && r.value.Some? ==> r.value.value == DetailView(ToInt(id).value, rows[ToInt(id).value])
  {
    match SelectById(rows, id)
    case Threw(e) => Threw(e)
    case Returned(None) => Returned(None)
    case Returned(Some(row)) => Returned(Some(DetailView(ToInt(id).value, row)))
  }

  /** `OUTPUT INSERTED.ID_Dispositivo, INSERTED.Serie, INSERTED.NombreDispositivo, INSERTED.Activo` */
  function UpdatedView(c: Change): Obj {
    map["ID_Dispositivo" := Num(c.key), "Serie" := Get(c.after, "Serie"),
        "NombreDispositivo" := Get(c.after, "NombreDispositivo"), "Activo" := Get(c.after, "Activo")]
  }

  function UpdateEffect(rows: map<int, Obj>, id: string, updates: seq<string>, params: seq<Value>, fault: Option<string>)
    : Effect<Option<Obj>>
    requires |params| == |updates|
  {
    Output(Sql.UpdateEffect(rows, id, Always, Pairs(updates, params), fault), UpdatedView)
  }

  /** `update` pushes the id onto the caller's `params` array and then runs the UPDATE. */
  method Update(t: Table, id: string, updates: seq<string>, params: JsArray, fault: Option<string>)
    returns (r: Outcome<Option<Obj>>)
    requires t.Valid() && |params.elems| == |updates|
    modifies t, params
    ensures t.Valid() && t.nextId == old(t.nextId)
    ensures params.elems == old(params.elems) + [Str(id)]
    ensures r == UpdateEffect(old(t.rows), id, updates, old(params.elems), fault).reply
    ensures t.rows == UpdateEffect(old(t.rows), id, updates, old(params.elems), fault).rows
  {
    var changed := t.UpdatePositional(id, updates, params, fault);
    r := Output(Effect(changed, t.rows), UpdatedView).reply;
  }

  /** `OUTPUT DELETED.ID_Dispositivo, DELETED.NombreDispositivo, INSERTED.Activo` */
  function DeactivatedView(c: Change): Obj {
    map["ID_Dispositivo" := Num(c.key), "NombreDispositivo" := Get(c.before, "NombreDispositivo"),
        "Activo" := Get(c.after, "Activo")]
  }

  function SoftDeleteEffect(rows: map<int, Obj>, id: string): Effect<Option<Obj>> {
    Output(Sql.SoftDeleteEffect(rows, id, "Activo"), DeactivatedView)
  }

  method SoftDelete(t: Table, id: string) returns (r: Outcome<Option<Obj>>)
    requires t.Valid()
    modifies t
    ensures t.Valid() && t.nextId == old(t.nextId)
    ensures r == SoftDeleteEffect(old(t.rows), id).reply && t.rows == SoftDeleteEffect(old(t.rows), id).rows
  {
    var changed := t.Update(id, IntEquals("Activo", 1), [("Activo", Bool(false))], None);
    r := Output(Effect(changed, t.rows), DeactivatedView).reply;
  }

  /**
   * `softDelete` flips Activo from 1 to 0 on an existing active row and shows the prior id and name with the new Activo;
   * for a missing or inactive row it shows nothing and changes nothing.
   */
  lemma SoftDeleteSpec(rows: map<int, Obj>, id: string)
    requires ToInt(id).Some?
    ensures var k := ToInt(id).value;
            var e := SoftDeleteEffect(rows, id);
            if k in rows && AsInt(Get(rows[k], "Activo")) == Some(1) then
              e.reply == Returned(Some(map["ID_Dispositivo" := Num(k), "NombreDispositivo" := Get(rows[k], "NombreDispositivo"),
                                           "Activo" := Bool(false)])) &&
              e.rows == rows[k := rows[k]["Activo" := Bool(false)]]
            else e == Effect(Returned(None), rows)
  {
    Sql.SoftDeleteSpec(rows, id, "Activo");
  }

  /** A second `softDelete` of the same id shows nothing and changes nothing. */
  lemma SoftDeleteTwice(rows: map<int, Obj>, id: string)
    ensures var first := SoftDeleteEffect(rows, id);
            first.reply.Returned? && first.reply.value.Some? ==>
              SoftDeleteEffect(first.rows, id) == Effect(Returned(None), first.rows)
  {
    Sql.SoftDeleteTwice(rows, id, "Activo");
  }
}
