/** The statements of the subscriber model on the ABONADOS table. */
module AbonadoModel {
  import opened Js
  import opened Sql

  /** The row `create` inserts: five fields of the body and Activo = 1. */
  function NewRow(data: Obj): (row: Obj)
    ensures Get(row, "Activo") == Bool(true)
    ensures Get(row, "RazonSocial") == Get(data, "razonSocial") && Get(row, "RUT") == Get(data, "rut")
  {
    map["RazonSocial" := Get(data, "razonSocial"), "RUT" := Get(data, "rut"),
        "ContactoPrincipal" := Get(data, "contactoPrincipal"), "TelefonoContacto" := Get(data, "telefonoContacto"),
        "EmailContacto" := Get(data, "emailContacto"), "Activo" := Bool(true)]
  }

  /** `OUTPUT INSERTED.ID_Abonado, INSERTED.RazonSocial, INSERTED.RUT` */
  function CreatedView(k: int, row: Obj): Obj {
    map["ID_Abonado" := Num(k), "RazonSocial" := Get(row, "RazonSocial"), "RUT" := Get(row, "RUT")]
  }

  method Create(t: Table, data: Obj, fault: Option<string>) returns (r: Outcome<Obj>)
    requires t.Valid()
    modifies t
    ensures t.Valid()
    ensures fault.Some? ==> r == Threw(Raise(fault.value)) && t.rows == old(t.rows) && t.nextId == old(t.nextId)
    ensures fault.None? ==>
              r == Returned(CreatedView(old(t.nextId), NewRow(data))) &&
              t.rows == old(t.rows)[old(t.nextId) := NewRow(data)] && t.nextId == old(t.nextId) + 1
  {
    var inserted := t.Insert(NewRow(data), fault);
    match inserted
    case Threw(e) => r := Threw(e);
    case Returned(k) => r := Returned(CreatedView(k, NewRow(data)));
  }

  /** The columns `findAll` and `findById` select. */
  function DetailView(k: int, row: Obj): Obj {
    map["ID_Abonado" := Num(k), "RazonSocial" := Get(row, "RazonSocial"), "RUT" := Get(row, "RUT"),
        "ContactoPrincipal" := Get(row, "ContactoPrincipal"), "TelefonoContacto" := Get(row, "TelefonoContacto"),
        "EmailContacto" := Get(row, "EmailContacto"), "FechaAlta" := Get(row, "FechaAlta"), "Activo" := Get(row, "Activo")]
  }

  /** `findAll`: every row, active or not, by key. */
  function FindAll(rows: map<int, Obj>): (r: map<int, Obj>)
    ensures r.Keys == rows.Keys
    ensures forall k :: k in r ==> r[k] == DetailView(k, rows[k])
  {
    map k | k in rows :: DetailView(k, rows[k])
  }

  /** `findById` (`result[0]`): the row with that key, or nothing. */
  function FindById(rows: map<int, Obj>, id: string): (r: Outcome<Option<Obj>>)
    ensures r.Threw? <==> ToInt(id).None?
    ensures r.Returned? ==> (r.value.Some? <==> ToInt(id).value in rows)
    ensures r.Returned? && r.value.Some? ==> r.value.value == DetailView(ToInt(id).value, rows[ToInt(id).value])
  {
    match SelectById(rows, id)
    case Threw(e) => Threw(e)
    case Returned(None) => Returned(None)
    case Returned(Some(row)) => Returned(Some(DetailView(ToInt(id).value, row)))
  }

  /** `OUTPUT INSERTED.ID_Abonado, INSERTED.RazonSocial, INSERTED.RUT, INSERTED.Activo` */
  function UpdatedView(c: Change): Obj {
    map["ID_Abonado" := Num(c.key), "RazonSocial" := Get(c.after, "RazonSocial"), "RUT" := Get(c.after, "RUT"),
        "Activo" := Get(c.after, "Activo")]
  }

  function UpdateEffect(rows: map<int, Obj>, id: string, updates: seq<string>, params: seq<Value>, fault: Option<string>)
    : Effect<Option<Obj>>
    requires |params| == |updates|
  {
    Output(Sql.UpdateEffect(rows, id, Always, Pairs(updates, params), fault), UpdatedView)
  }

  /** `update` pushes the id onto the caller's `params` array and then runs the UPDATE. */
  method Update(t: Table, id: string, updates: seq<string>, params: JsArray, fault: Option<string>)
    returns (r: Outcome<Option<Obj>>)
    requires t.Valid() && |params.elems| == |updates|
    modifies t, params
    ensures t.Valid() && t.nextId == old(t.nextId)
    ensures params.elems == old(params.elems) + [Str(id)]
    ensures r == UpdateEffect(old(t.rows), id, updates, old(params.elems), fault).reply
    ensures t.rows == UpdateEffect(old(t.rows), id, updates, old(params.elems), fault).rows
  {
    var changed := t.UpdatePositional(id, updates, params, fault);
    r := Output(Effect(changed, t.rows), UpdatedView).reply;
  }

  /** `OUTPUT DELETED.ID_Abonado, DELETED.RazonSocial, INSERTED.Activo` */
  function DeactivatedView(c: Change): Obj {
    map["ID_Abonado" := Num(c.key), "RazonSocial" := Get(c.before, "RazonSocial"), "Activo" := Get(c.after, "Activo")]
  }

  function SoftDeleteEffect(rows: map<int, Obj>, id: string): Effect<Option<Obj>> {
    Output(Sql.SoftDeleteEffect(rows, id, "Activo"), DeactivatedView)
  }

  method SoftDelete(t: Table, id: string) returns (r: Outcome<Option<Obj>>)
    requires t.Valid()
    modifies t
    ensures t.Valid() && t.nextId == old(t.nextId)
    ensures r == SoftDeleteEffect(old(t.rows), id).reply && t.rows == SoftDeleteEffect(old(t.rows), id).rows
  {
    var changed := t.Update(id, IntEquals("Activo", 1), [("Activo", Bool(false))], None);
    r := Output(Effect(changed, t.rows), DeactivatedView).reply;
  }

  /** `softDelete` only affects an existing row with Activo = 1; otherwise it shows nothing and changes nothing. */
  lemma SoftDeleteSpec(rows: map<int, Obj>, id: string)
    requires ToInt(id).Some?
    ensures var k := ToInt(id).value;
            var e := SoftDeleteEffect(rows, id);
            if k in rows && AsInt(Get(rows[k], "Activo")) == Some(1) then
              e.reply == Returned(Some(map["ID_Abonado" := Num(k), "RazonSocial" := Get(rows[k], "RazonSocial"),
                                           "Activo" := Bool(false)])) &&
              e.rows == rows[k := rows[k]["Activo" := Bool(false)]]
            else e == Effect(Returned(None), rows)
  {
    Sql.SoftDeleteSpec(rows, id, "Activo");
  }
}
