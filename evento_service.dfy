/** The event-log service: recording an event and listing one device's events. */
module EventoService {
  import opened Js
  import opened Sql
  import opened Errors
  import EventoModel

  const MissingFields: string := "Faltan campos obligatorios: ID_Dispositivo, TipoEvento y Descripcion."
  const UnknownDevice: string := "El ID de Dispositivo proporcionado no existe."
  const BadId: string := "El ID de dispositivo debe ser un número válido."

  // ---------------------------------------------------------------------
  // createEvento
  // ---------------------------------------------------------------------

  /** `if (!ID_Dispositivo || !TipoEvento || !Descripcion)`: NivelCriticidad is optional. */
  predicate HasRequired(data: Obj) {
    Truthy(Get(data, "ID_Dispositivo")) && Truthy(Get(data, "TipoEvento")) && Truthy(Get(data, "Descripcion"))
  }

  const CreateClauses: seq<Clause> := [Clause(ForeignKey, UnknownDevice, 400)]

  /** What `createEvento` settles to at server time `now`, when the next identity value is `nextId` and the insert raises `fault`. */
  function CreateReply(nextId: int, data: Obj, now: Value, fault: Option<string>): (r: Outcome<Obj>)
    ensures !HasRequired(data) ==> r == Threw(Fail(MissingFields, 400))
    ensures r.Returned? <==> HasRequired(data) && fault.None?
    ensures r.Returned? ==>
              r.value == map["ID_Evento" := Num(nextId), "TipoEvento" := Get(data, "TipoEvento"), "FechaHora" := now]
  {
    if !HasRequired(data) then Threw(Fail(MissingFields, 400))
    else
      Catch(CreateClauses,
            if fault.Some? then Threw(Raise(fault.value))
            else Returned(EventoModel.CreatedView(nextId, EventoModel.NewRow(data, now))))
  }

  method CreateEvento(t: Table, data: Obj, now: Value, fault: Option<string>) returns (r: Outcome<Obj>)
    requires t.Valid()
    modifies t
    ensures t.Valid()
    ensures r == CreateReply(old(t.nextId), data, now, fault)
    ensures r.Returned? ==> t.rows == old(t.rows)[old(t.nextId) := EventoModel.NewRow(data, now)]
    ensures r.Threw? ==> t.rows == old(t.rows)
  {
    if !HasRequired(data) {
      return Threw(Fail(MissingFields, 400));
    }
    var created := EventoModel.Create(t, data, now, fault);
    match created
    case Threw(e) => r := Threw(Reclassify(CreateClauses, e));
    case Returned(a) => r := created;
  }

  /** A store error on create becomes 400 on a foreign-key violation (an unknown device) and otherwise passes unchanged. */
  lemma CreateErrors(nextId: int, data: Obj, now: Value, m: string)
    requires HasRequired(data)
    ensures var r := CreateReply(nextId, data, now, Some(m));
            (Contains(m, ForeignKey) ==> r == Threw(Fail(UnknownDevice, 400))) &&
            (!Contains(m, ForeignKey) ==> r == Threw(Raise(m)))
  {
    ReclassifySpec(CreateClauses, Raise(m));
  }

  // ---------------------------------------------------------------------
  // getEventosByDispositivo
  // ---------------------------------------------------------------------

  /** A device with no events is answered with the empty list, not a 404. */
  function GetEventosByDispositivo(t: Table, id: string): (r: Outcome<seq<Obj>>)
    reads t
    requires t.Valid()
    ensures ParseIntIsNaN(Str(id)) ==> r == Threw(Fail(BadId, 400))
    ensures ToInt(id).Some? ==> r.Returned?
  {
    ConvertibleIdPassesGuard(id);
    if ParseIntIsNaN(Str(id)) then Threw(Fail(BadId, 400))
    else EventoModel.FindByDispositivoId(t, id)
  }

  /**
   * For a convertible id the list shows every event of that device and nothing else, latest first, each as its listed
   * view.
   */
  lemma ListsDeviceEvents(t: Table, id: string)
    requires t.Valid() && ToInt(id).Some?
    ensures var s := EventoModel.ByDevice(t, id).value;
            GetEventosByDispositivo(t, id) == Returned(EventoModel.Views(s)) &&
            EventoModel.LatestFirst(s) &&
            (forall k :: k in t.rows && AsInt(Get(t.rows[k], "ID_Dispositivo")) == ToInt(id) ==> (k, t.rows[k]) in s) &&
            (forall i :: 0 <= i < |s| ==>
               s[i].0 in t.rows && s[i].1 == t.rows[s[i].0] && AsInt(Get(s[i].1, "ID_Dispositivo")) == ToInt(id))
  {
    ConvertibleIdPassesGuard(id);
    EventoModel.ByDeviceSpec(t, id);
  }

  /** No event of the device: the reply is the empty list. */
  lemma NoEventsEmptyList(t: Table, id: string)
    requires t.Valid() && ToInt(id).Some?
    requires forall k :: k in t.rows ==> AsInt(Get(t.rows[k], "ID_Dispositivo")) != ToInt(id)
    ensures GetEventosByDispositivo(t, id) == Returned([])
  {
    ListsDeviceEvents(t, id);
    var s := EventoModel.ByDevice(t, id).value;
    if |s| > 0 {
      assert false;
    }
  }
}
