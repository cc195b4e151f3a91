/** The statements of the user model on the USUARIOS table, with the ROLES and SECTORES joins of its queries. */
module UserModel {
  import opened Js
  import opened Sql

  /** The ROLES and SECTORES tables that the user queries join with: each name by its key. */
  datatype Catalog = Catalog(roles: map<int, string>, sectors: map<int, string>)

  /** NombreRol of `JOIN ROLES R ON U.ID_Rol = R.ID_Rol`: None when the row does not join, which drops it. */
  function RoleOf(cat: Catalog, row: Obj): Option<string> {
    match AsInt(Get(row, "ID_Rol"))
    case Some(r) => if r in cat.roles then Some(cat.roles[r]) else None
    case None => None
  }

  /** NombreSector of `LEFT JOIN SECTORES S ON U.ID_Sector = S.ID_Sector`: null when the row does not join. */
  function SectorOf(cat: Catalog, row: Obj): Value {
    match AsInt(Get(row, "ID_Sector"))
    case Some(s) => if s in cat.sectors then Str(cat.sectors[s]) else Null
    case None => Null
  }

  /** In this table `Activo` is a BIT: the literal 1 is stored as true, 0 as false. */
  predicate IsActive(row: Obj) {
    AsInt(Get(row, "Activo")) == Some(1)
  }

  // ---------------------------------------------------------------------
  // create
  // ---------------------------------------------------------------------

  /** The row `create` inserts: the given fields, and Activo = 1. */
  function NewRow(data: Obj): (row: Obj)
    ensures Get(row, "Activo") == Bool(true) && IsActive(row)
    ensures Get(row, "PasswordHash") == Get(data, "passwordHash") && Get(row, "Email") == Get(data, "email")
  {
    map["Nombre" := Get(data, "nombre"), "Email" := Get(data, "email"), "PasswordHash" := Get(data, "passwordHash"),
        "Telefono" := Get(data, "telefono"), "ID_Sector" := Get(data, "idSector"), "ID_Rol" := Get(data, "idRol"),
        "Activo" := Bool(true)]
  }

  /** `OUTPUT INSERTED.ID_Usuario, INSERTED.Nombre, INSERTED.Email, INSERTED.ID_Rol` */
  function CreatedView(k: int, row: Obj): (v: Obj)
    ensures v.Keys == {"ID_Usuario", "Nombre", "Email", "ID_Rol"} && v["ID_Usuario"] == Num(k)
  {
    map["ID_Usuario" := Num(k), "Nombre" := Get(row, "Nombre"), "Email" := Get(row, "Email"), "ID_Rol" := Get(row, "ID_Rol")]
  }

  method Create(t: Table, data: Obj, fault: Option<string>) returns (r: Outcome<Obj>)
    requires t.Valid()
    modifies t
    ensures t.Valid()
    ensures fault.Some? ==> r == Threw(Raise(fault.value)) && t.rows == old(t.rows) && t.nextId == old(t.nextId)
    ensures fault.None? ==>
              r == Returned(CreatedView(old(t.nextId), NewRow(data))) &&
              t.rows == old(t.rows)[old(t.nextId) := NewRow(data)] && t.nextId == old(t.nextId) + 1
  {
    var inserted := t.Insert(NewRow(data), fault);
    match inserted
    case Threw(e) => r := Threw(e);
    case Returned(k) => r := Returned(CreatedView(k, NewRow(data)));
  }

  // ---------------------------------------------------------------------
  // Queries
  // ---------------------------------------------------------------------

  /** The columns `findActive` selects of a joined row. */
  function ListedView(cat: Catalog, k: int, row: Obj): Obj
    requires RoleOf(cat, row).Some?
  {
    map["ID_Usuario" := Num(k), "Nombre" := Get(row, "Nombre"), "Email" := Get(row, "Email"),
        "Telefono" := Get(row, "Telefono"), "Activo" := Get(row, "Activo"),
        "NombreRol" := Str(RoleOf(cat, row).value), "NombreSector" := SectorOf(cat, row)]
  }

  /** `findActive`: exactly the active rows that join a role, by key. */
  function FindActive(cat: Catalog, rows: map<int, Obj>): (r: map<int, Obj>)
    ensures forall k :: k in r <==> k in rows && IsActive(rows[k]) && RoleOf(cat, rows[k]).Some?
    ensures forall k :: k in r ==> Get(r[k], "ID_Usuario") == Num(k) && Get(r[k], "Activo") == Get(rows[k], "Activo")
  {
    map k | k in rows && IsActive(rows[k]) && RoleOf(cat, rows[k]).Some? :: ListedView(cat, k, rows[k])
  }

  /** The columns `findById` selects of a joined row. */
  function DetailView(cat: Catalog, k: int, row: Obj): Obj
    requires RoleOf(cat, row).Some?
  {
    map["ID_Usuario" := Num(k), "Nombre" := Get(row, "Nombre"), "Email" := Get(row, "Email"),
        "Telefono" := Get(row, "Telefono"), "Activo" := Get(row, "Activo"), "ID_Rol" := Get(row, "ID_Rol"),
        "ID_Sector" := Get(row, "ID_Sector"), "NombreRol" := Str(RoleOf(cat, row).value),
        "NombreSector" := SectorOf(cat, row)]
  }

  /** `findById`: the row with that key, if it joins a role; a string the database cannot convert makes it raise. */
  function FindById(cat: Catalog, rows: map<int, Obj>, id: string): (r: Outcome<Option<Obj>>)
    ensures r.Threw? <==> ToInt(id).None?
    ensures r.Returned? && r.value.Some? <==>
              ToInt(id).Some? && ToInt(id).value in rows && RoleOf(cat, rows[ToInt(id).value]).Some?
    ensures r.Returned? && r.value.Some? ==> Get(r.value.value, "ID_Usuario") == Num(ToInt(id).value)
  {
    match SelectById(rows, id)
    case Threw(e) => Threw(e)
    case Returned(found) =>
      var k := ToInt(id).value;
      if found.Some? && RoleOf(cat, found.value).Some? then Returned(Some(DetailView(cat, k, found.value)))
      else Returned(None)
  }

  /** The login lookup's row condition: the email matches and the role joins. */
  predicate AuthMatch(cat: Catalog, row: Obj, email: Value) {
    Get(row, "Email") == email && RoleOf(cat, row).Some?
  }

  /** The lowest key in [lo, hi) whose row satisfies the login lookup. */
  function FirstMatch(cat: Catalog, rows: map<int, Obj>, email: Value, lo: int, hi: int): (r: Option<int>)
    decreases hi - lo
    ensures r.Some? ==> lo <= r.value < hi && r.value in rows && AuthMatch(cat, rows[r.value], email)
    ensures r.Some? ==> forall k :: lo <= k < r.value && k in rows ==> !AuthMatch(cat, rows[k], email)
    ensures r.None? ==> forall k :: lo <= k < hi && k in rows ==> !AuthMatch(cat, rows[k], email)
  {
    if hi <= lo then None
    else if lo in rows && AuthMatch(cat, rows[lo], email) then Some(lo)
    else FirstMatch(cat, rows, email, lo + 1, hi)
  }

  /** The columns `findByEmailForAuth` selects, password hash included. */
  function AuthView(cat: Catalog, k: int, row: Obj): (v: Obj)
    requires RoleOf(cat, row).Some?
    ensures v.Keys == {"ID_Usuario", "Email", "Nombre", "PasswordHash", "Activo", "NombreRol"}
    ensures v["NombreRol"] == Str(RoleOf(cat, row).value) && v["PasswordHash"] == Get(row, "PasswordHash")
  {
    map["ID_Usuario" := Num(k), "Email" := Get(row, "Email"), "Nombre" := Get(row, "Nombre"),
        "PasswordHash" := Get(row, "PasswordHash"), "Activo" := Get(row, "Activo"),
        "NombreRol" := Str(RoleOf(cat, row).value)]
  }

  /**
   * `findByEmailForAuth` (`result[0]`): the first row, in key order, with that email that joins a role, or nothing when
   * there is none.
   */
  function FindByEmailForAuth(cat: Catalog, t: Table, email: Value): (r: Option<Obj>)
    reads t
    requires t.Valid()
    ensures r.None? <==> forall k :: k in t.rows ==> !AuthMatch(cat, t.rows[k], email)
    ensures r.Some? ==> exists k :: k in t.rows && AuthMatch(cat, t.rows[k], email) &&
                                    (forall j :: j in t.rows && j < k ==> !AuthMatch(cat, t.rows[j], email)) &&
                                    r.value == AuthView(cat, k, t.rows[k])
  {
    match FirstMatch(cat, t.rows, email, 1, t.nextId)
    case None => None
    case Some(k) => Some(AuthView(cat, k, t.rows[k]))
  }

  // ---------------------------------------------------------------------
  // update and softDelete
  // ---------------------------------------------------------------------

  /** `OUTPUT INSERTED.ID_Usuario, INSERTED.Nombre, INSERTED.Email, INSERTED.Activo` */
  function UpdatedView(c: Change): Obj {
    map["ID_Usuario" := Num(c.key), "Nombre" := Get(c.after, "Nombre"), "Email" := Get(c.after, "Email"),
        "Activo" := Get(c.after, "Activo")]
  }

  /** `update`: the SET list pairs each fragment's column with the parameter at its position; the key is the id. */
  function UpdateEffect(rows: map<int, Obj>, id: string, updates: seq<string>, params: seq<Value>, fault: Option<string>)
    : Effect<Option<Obj>>
    requires |params| == |updates|
  {
    Output(Sql.UpdateEffect(rows, id, Always, Pairs(updates, params), fault), UpdatedView)
  }

  /**
   * The caller's `params` array is spread into a new object (`{ ...params, ID_Usuario: id }`), so unlike the other
   * models this one does not push onto it.
   */
  method Update(t: Table, id: string, updates: seq<string>, params: seq<Value>, fault: Option<string>)
    returns (r: Outcome<Option<Obj>>)
    requires t.Valid() && |params| == |updates|
    modifies t
    ensures t.Valid() && t.nextId == old(t.nextId)
    ensures r == UpdateEffect(old(t.rows), id, updates, params, fault).reply
    ensures t.rows == UpdateEffect(old(t.rows), id, updates, params, fault).rows
  {
    var changed := t.Update(id, Always, Pairs(updates, params), fault);
    r := Output(Effect(changed, t.rows), UpdatedView).reply;
  }

  /** `OUTPUT DELETED.ID_Usuario, DELETED.Nombre, INSERTED.Activo` */
  function DeactivatedView(c: Change): Obj {
    map["ID_Usuario" := Num(c.key), "Nombre" := Get(c.before, "Nombre"), "Activo" := Get(c.after, "Activo")]
  }

  function SoftDeleteEffect(rows: map<int, Obj>, id: string): Effect<Option<Obj>> {
    Output(Sql.SoftDeleteEffect(rows, id, "Activo"), DeactivatedView)
  }

  method SoftDelete(t: Table, id: string) returns (r: Outcome<Option<Obj>>)
    requires t.Valid()
    modifies t
    ensures t.Valid() && t.nextId == old(t.nextId)
    ensures r == SoftDeleteEffect(old(t.rows), id).reply && t.rows == SoftDeleteEffect(old(t.rows), id).rows
  {
    var changed := t.Update(id, IntEquals("Activo", 1), [("Activo", Bool(false))], None);
    r := Output(Effect(changed, t.rows), DeactivatedView).reply;
  }

  /**
   * `softDelete` succeeds only on an existing active row: it sets Activo to 0 and shows the prior id and name with the new
   * Activo; for a missing or inactive row it shows nothing and changes nothing. No other row or column is touched.
   */
  lemma SoftDeleteSpec(rows: map<int, Obj>, id: string)
    requires ToInt(id).Some?
    ensures var k := ToInt(id).value;
            var e := SoftDeleteEffect(rows, id);
            if k in rows && IsActive(rows[k]) then
              e.reply == Returned(Some(map["ID_Usuario" := Num(k), "Nombre" := Get(rows[k], "Nombre"), "Activo" := Bool(false)])) &&
              e.rows == rows[k := rows[k]["Activo" := Bool(false)]]
            else e == Effect(Returned(None), rows)
  {
    Sql.SoftDeleteSpec(rows, id, "Activo");
  }

  /** A second `softDelete` of the same id shows nothing and leaves the table as the first left it. */
  lemma SoftDeleteTwice(rows: map<int, Obj>, id: string)
    ensures var first := SoftDeleteEffect(rows, id);
            first.reply.Returned? && first.reply.value.Some? ==>
              SoftDeleteEffect(first.rows, id) == Effect(Returned(None), first.rows)
  {
    Sql.SoftDeleteTwice(rows, id, "Activo");
  }
}
