/** The statements of the device-model catalogue on the MODELOS_DISPOSITIVOS table. */
module ModeloDispositivoModel {
  import opened Js
  import opened Sql

  /** The row `create` inserts from the body's three fields. */
  function NewRow(data: Obj): (row: Obj)
    ensures row.Keys == {"NombreModelo", "Fabricante", "TipoDispositivo"}
    ensures Get(row, "NombreModelo") == Get(data, "nombreModelo")
  {
    map["NombreModelo" := Get(data, "nombreModelo"), "Fabricante" := Get(data, "fabricante"),
        "TipoDispositivo" := Get(data, "tipoDispositivo")]
  }

  /** `OUTPUT INSERTED.ID_Modelo, INSERTED.NombreModelo` */
  function CreatedView(k: int, row: Obj): Obj {
    map["ID_Modelo" := Num(k), "NombreModelo" := Get(row, "NombreModelo")]
  }

  method Create(t: Table, data: Obj, fault: Option<string>) returns (r: Outcome<Obj>)
    requires t.Valid()
    modifies t
    ensures t.Valid()
    ensures fault.Some? ==> r == Threw(Raise(fault.value)) && t.rows == old(t.rows) && t.nextId == old(t.nextId)
    ensures fault.None? ==>
              r == Returned(CreatedView(old(t.nextId), NewRow(data))) &&
              t.rows == old(t.rows)[old(t.nextId) := NewRow(data)] && t.nextId == old(t.nextId) + 1
  {
    var inserted := t.Insert(NewRow(data), fault);
    match inserted
    case Threw(e) => r := Threw(e);
    case Returned(k) => r := Returned(CreatedView(k, NewRow(data)));
  }

  /** The columns `findAll` and `findById` select. */
  function DetailView(k: int, row: Obj): Obj {
    map["ID_Modelo" := Num(k), "NombreModelo" := Get(row, "NombreModelo"), "Fabricante" := Get(row, "Fabricante"),
        "TipoDispositivo" := Get(row, "TipoDispositivo")]
  }

  /** `findById` (`result[0]`): the row with that key, or nothing. */
  function FindById(rows: map<int, Obj>, id: string): (r: Outcome<Option<Obj>>)
    ensures r.Threw? <==> ToInt(id).None?
    ensures r.Returned? ==> (r.value.Some? <==> ToInt(id).value in rows)
    ensures r.Returned? && r.value.Some? ==> r.value.value == DetailView(ToInt(id).value, rows[ToInt(id).value])
  {
    match SelectById(rows, id)
    case Threw(e) => Threw(e)
    case Returned(None) => Returned(None)
    case Returned(Some(row)) => Returned(Some(DetailView(ToInt(id).value, row)))
  }

  /** `OUTPUT INSERTED.ID_Modelo, INSERTED.NombreModelo, INSERTED.Fabricante` */
  function UpdatedView(c: Change): Obj {
    map["ID_Modelo" := Num(c.key), "NombreModelo" := Get(c.after, "NombreModelo"), "Fabricante" := Get(c.after, "Fabricante")]
  }

  function UpdateEffect(rows: map<int, Obj>, id: string, updates: seq<string>, params: seq<Value>, fault: Option<string>)
    : Effect<Option<Obj>>
    requires |params| == |updates|
  {
    Output(Sql.UpdateEffect(rows, id, Always, Pairs(updates, params), fault), UpdatedView)
  }

  /** `update` pushes the id onto the caller's `params` array and then runs the UPDATE. */
  method Update(t: Table, id: string, updates: seq<string>, params: JsArray, fault: Option<string>)
    returns (r: Outcome<Option<Obj>>)
    requires t.Valid() && |params.elems| == |updates|
    modifies t, params
    ensures t.Valid() && t.nextId == old(t.nextId)
    ensures params.elems == old(params.elems) + [Str(id)]
    ensures r == UpdateEffect(old(t.rows), id, updates, old(params.elems), fault).reply
    ensures t.rows == UpdateEffect(old(t.rows), id, updates, old(params.elems), fault).rows
  {
    var changed := t.UpdatePositional(id, updates, params, fault);
    r := Output(Effect(changed, t.rows), UpdatedView).reply;
  }

  /** `OUTPUT DELETED.ID_Modelo, DELETED.NombreModelo` */
  function DeletedView(kr: (int, Obj)): Obj {
    map["ID_Modelo" := Num(kr.0), "NombreModelo" := Get(kr.1, "NombreModelo")]
  }

  /** The physical delete; `fault` is the error the database raises for the row (a device still refers to it). */
  function DeleteEffect(rows: map<int, Obj>, id: string, fault: Option<string>): Effect<Option<Obj>> {
    Output(Sql.DeleteEffect(rows, id, fault), DeletedView)
  }

  method Delete(t: Table, id: string, fault: Option<string>) returns (r: Outcome<Option<Obj>>)
    requires t.Valid()
    modifies t
    ensures t.Valid() && t.nextId == old(t.nextId)
    ensures r == DeleteEffect(old(t.rows), id, fault).reply && t.rows == DeleteEffect(old(t.rows), id, fault).rows
  {
    var removed := t.Delete(id, fault);
    r := Output(Effect(removed, t.rows), DeletedView).reply;
  }

  /**
   * `delete` removes exactly the selected row and shows its id and name; a missing id shows nothing, and a refused delete
   * raises the database's error; in both of those cases the table is unchanged.
   */
  lemma DeleteSpec(rows: map<int, Obj>, id: string, fault: Option<string>)
    requires ToInt(id).Some?
    ensures var k := ToInt(id).value;
            var e := DeleteEffect(rows, id, fault);
            if k !in rows then e == Effect(Returned(None), rows)
            else if fault.Some? then e == Effect(Threw(Raise(fault.value)), rows)
            else e.reply == Returned(Some(map["ID_Modelo" := Num(k), "NombreModelo" := Get(rows[k], "NombreModelo")])) &&
                 e.rows == rows - {k} && k !in e.rows
  {
  }

  /** After a `delete` that removed a row, `findById` on that id finds nothing. */
  lemma DeleteThenFindById(rows: map<int, Obj>, id: string)
    ensures var e := DeleteEffect(rows, id, None);
            e.reply.Returned? && e.reply.value.Some? ==> FindById(e.rows, id) == Returned(None)
  {
    DeleteThenGone(rows, id);
  }
}
