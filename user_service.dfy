/** The user service: registration, lookup by id, partial update and deactivation of users. */
module UserService {
  import opened Js
  import opened Sql
  import opened UpdateBuilder
  import opened Errors
  import UserModel

  const MissingFields: string := "Faltan campos obligatorios: Nombre, Email, Contraseña y ID_Rol."
  const HashFailed: string := "Error de seguridad al procesar la contraseña."
  const EmailTaken: string := "El Email proporcionado ya está registrado."
  const BadReference: string := "El ID de Sector o Rol proporcionado no existe."
  const BadId: string := "El ID de usuario debe ser un número válido."
  const NotFound: string := "Usuario no encontrado."
  const NoFields: string := "Se requiere al menos un campo para actualizar."
  const BadSector: string := "ID_Sector debe ser un número válido."
  const BadRol: string := "ID_Rol debe ser un número válido."
  const NotFoundForUpdate: string := "Usuario no encontrado para actualizar."
  const NotFoundOrInactive: string := "Usuario no encontrado o ya estaba inactivo."

  // ---------------------------------------------------------------------
  // registerUser
  // ---------------------------------------------------------------------

  /** `if (!nombre || !email || !password || !idRol)`: idSector and telefono are optional. */
  predicate HasRequired(data: Obj) {
    Truthy(Get(data, "nombre")) && Truthy(Get(data, "email")) && Truthy(Get(data, "password")) && Truthy(Get(data, "idRol"))
  }

  /** The object handed to the model: the body's fields with the password replaced by its hash. */
  function UserData(data: Obj, hash: Value): (u: Obj)
    ensures "password" !in u && Get(u, "passwordHash") == hash
  {
    map["nombre" := Get(data, "nombre"), "email" := Get(data, "email"), "passwordHash" := hash,
        "telefono" := Get(data, "telefono"), "idSector" := Get(data, "idSector"), "idRol" := Get(data, "idRol")]
  }

  function RegisteredView(created: Obj): Obj {
    map["id" := Get(created, "ID_Usuario"), "nombre" := Get(created, "Nombre"), "email" := Get(created, "Email")]
  }

  const RegisterClauses: seq<Clause> := [Clause(UniqueKey, EmailTaken, 409), Clause(ForeignKey, BadReference, 400)]

  /**
   * What `registerUser` settles to when the table's next identity value is `nextId`, the hash oracle answers `hashed`
   * (None when bcrypt throws) and the database raises `fault` for the insert, if anything.
   */
  function RegisterReply(nextId: int, data: Obj, hashed: Option<Value>, fault: Option<string>): (r: Outcome<Obj>)
    ensures !HasRequired(data) ==> r == Threw(Fail(MissingFields, 400))
    ensures r.Returned? <==> HasRequired(data) && hashed.Some? && fault.None?
    ensures r.Returned? ==>
              r.value.Keys == {"id", "nombre", "email"} && r.value["id"] == Num(nextId) &&
              r.value["nombre"] == Get(data, "nombre") && r.value["email"] == Get(data, "email")
  {
    if !HasRequired(data) then Threw(Fail(MissingFields, 400))
    else if hashed.None? then Threw(Fail(HashFailed, 500))
    else
      var created :=
        if fault.Some? then Threw(Raise(fault.value))
        else Returned(RegisteredView(UserModel.CreatedView(nextId, UserModel.NewRow(UserData(data, hashed.value)))));
      Catch(RegisterClauses, created)
  }

  method RegisterUser(t: Table, data: Obj, hashed: Option<Value>, fault: Option<string>) returns (r: Outcome<Obj>)
    requires t.Valid()
    modifies t
    ensures t.Valid()
    ensures r == RegisterReply(old(t.nextId), data, hashed, fault)
    ensures r.Returned? ==> t.rows == old(t.rows)[old(t.nextId) := UserModel.NewRow(UserData(data, hashed.value))]
    ensures r.Threw? ==> t.rows == old(t.rows)
  {
    if !HasRequired(data) {
      return Threw(Fail(MissingFields, 400));
    }
    if hashed.None? {
      return Threw(Fail(HashFailed, 500));
    }
    var created := UserModel.Create(t, UserData(data, hashed.value), fault);
    match created
    case Threw(e) => r := Threw(Reclassify(RegisterClauses, e));
    case Returned(u) => r := Returned(RegisteredView(u));
  }

  /** The stored row holds the hash in PasswordHash, is active, and keeps the body's email. */
  lemma RegisterStoresHash(data: Obj, hash: Value)
    ensures var row := UserModel.NewRow(UserData(data, hash));
            Get(row, "PasswordHash") == hash && "password" !in row && UserModel.IsActive(row) &&
            Get(row, "Email") == Get(data, "email")
  {
  }

  /** A store error becomes 409 on a unique-key violation, else 400 on a foreign-key violation, else passes unchanged. */
  lemma RegisterErrors(nextId: int, data: Obj, hash: Value, m: string)
    requires HasRequired(data)
    ensures var r := RegisterReply(nextId, data, Some(hash), Some(m));
            (Contains(m, UniqueKey) ==> r == Threw(Fail(EmailTaken, 409))) &&
            (!Contains(m, UniqueKey) && Contains(m, ForeignKey) ==> r == Threw(Fail(BadReference, 400))) &&
            (!Contains(m, UniqueKey) && !Contains(m, ForeignKey) ==> r == Threw(Raise(m)))
  {
    ReclassifySpec(RegisterClauses, Raise(m));
  }

  // ---------------------------------------------------------------------
  // getUserById
  // ---------------------------------------------------------------------

  function ProfileView(u: Obj): (v: Obj)
    ensures Get(v, "id") == Get(u, "ID_Usuario")
  {
    map["id" := Get(u, "ID_Usuario"), "nombre" := Get(u, "Nombre"), "email" := Get(u, "Email"),
        "telefono" := Get(u, "Telefono"), "activo" := Get(u, "Activo"), "rol" := Get(u, "NombreRol"),
        "sector" := Get(u, "NombreSector"), "idRol" := Get(u, "ID_Rol"), "idSector" := Get(u, "ID_Sector")]
  }

  function GetUserById(cat: UserModel.Catalog, rows: map<int, Obj>, id: string): (r: Outcome<Obj>)
    ensures ParseIntIsNaN(Str(id)) ==> r == Threw(Fail(BadId, 400))
    ensures r.Returned? <==> ToInt(id).Some? && ToInt(id).value in rows && UserModel.RoleOf(cat, rows[ToInt(id).value]).Some?
    ensures r.Returned? ==> Get(r.value, "id") == Num(ToInt(id).value)
    ensures ToInt(id).Some? && !r.Returned? ==> r == Threw(Fail(NotFound, 404))
  {
    ConvertibleIdPassesGuard(id);
    if ParseIntIsNaN(Str(id)) then Threw(Fail(BadId, 400))
    else
      match Found(UserModel.FindById(cat, rows, id), NotFound)
      case Threw(e) => Threw(e)
      case Returned(u) => Returned(ProfileView(u))
  }

  // ---------------------------------------------------------------------
  // updateUserDetails
  // ---------------------------------------------------------------------

  const UpdateRules: seq<Rule> := [
    Rule("nombre", "Nombre", IfTruthy, None),
    Rule("telefono", "Telefono", IfTruthy, None),
    Rule("idSector", "ID_Sector", IfTruthy, Some(BadSector)),
    Rule("idRol", "ID_Rol", IfTruthy, Some(BadRol))
  ]

  /** `if (!nombre && !telefono && !idSector && !idRol)` */
  predicate NothingToUpdate(data: Obj) {
    !Truthy(Get(data, "nombre")) && !Truthy(Get(data, "telefono")) && !Truthy(Get(data, "idSector")) &&
    !Truthy(Get(data, "idRol"))
  }

  /** The pushes of `updateUserDetails`, one rule at a time. */
  method BuildUpdate(data: Obj) returns (r: Outcome<Built>)
    ensures r == Build(UpdateRules, data)
  {
    var updates: seq<string> := [];
    var params: seq<Value> := [];
    ghost var u0, p0 := updates, params;
    assert Fragment("Nombre") == "Nombre = ?";
    if Truthy(Get(data, "nombre")) {
      updates := updates + ["Nombre = ?"];
      params := params + [Get(data, "nombre")];
    }
    Advance(UpdateRules, 0, data, u0, p0, updates, params);
    ghost var u1, p1 := updates, params;
    assert Fragment("Telefono") == "Telefono = ?";
    if Truthy(Get(data, "telefono")) {
      updates := updates + ["Telefono = ?"];
      params := params + [Get(data, "telefono")];
    }
    Advance(UpdateRules, 1, data, u1, p1, updates, params);
    ghost var u2, p2 := updates, params;
    assert Fragment("ID_Sector") == "ID_Sector = ?";
    if Truthy(Get(data, "idSector")) {
      if ParseIntIsNaN(Get(data, "idSector")) {
        Reject(UpdateRules, 2, data, updates, params);
        return Threw(Fail(BadSector, 400));
      }
      updates := updates + ["ID_Sector = ?"];
      params := params + [Get(data, "idSector")];
    }
    Advance(UpdateRules, 2, data, u2, p2, updates, params);
    ghost var u3, p3 := updates, params;
    assert Fragment("ID_Rol") == "ID_Rol = ?";
    if Truthy(Get(data, "idRol")) {
      if ParseIntIsNaN(Get(data, "idRol")) {
        Reject(UpdateRules, 3, data, updates, params);
        return Threw(Fail(BadRol, 400));
      }
      updates := updates + ["ID_Rol = ?"];
      params := params + [Get(data, "idRol")];
    }
    Advance(UpdateRules, 3, data, u3, p3, updates, params);
    Finish(UpdateRules, data, updates, params);
    r := Returned(Built(updates, params));
  }

  /** The catch block of `updateUserDetails` (its test has no `error.message &&` guard, which changes nothing here). */
  const UpdateClauses: seq<Clause> := [Clause(ForeignKey, BadReference, 400)]

  /** What `updateUserDetails` settles to, and the table after it. */
  function UpdateEffect(rows: map<int, Obj>, id: string, data: Obj, fault: Option<string>): Effect<Obj> {
    if NothingToUpdate(data) then Effect(Threw(Fail(NoFields, 400)), rows)
    else match Build(UpdateRules, data)
      case Threw(e) => Effect(Threw(e), rows)
      case Returned(b) =>
        BuildShape(UpdateRules, data);
        var e := UserModel.UpdateEffect(rows, id, b.updates, b.params, fault);
        Effect(Catch(UpdateClauses, Found(e.reply, NotFoundForUpdate)), e.rows)
  }

  method UpdateUserDetails(t: Table, id: string, data: Obj, fault: Option<string>) returns (r: Outcome<Obj>)
    requires t.Valid()
    modifies t
    ensures t.Valid() && t.nextId == old(t.nextId)
    ensures r == UpdateEffect(old(t.rows), id, data, fault).reply && t.rows == UpdateEffect(old(t.rows), id, data, fault).rows
  {
    if NothingToUpdate(data) {
      return Threw(Fail(NoFields, 400));
    }
    var built := BuildUpdate(data);
    match built
    case Threw(e) => r := Threw(e);
    case Returned(b) =>
      BuildShape(UpdateRules, data);
      var updated := UserModel.Update(t, id, b.updates, b.params, fault);
      r := Catch(UpdateClauses, Found(updated, NotFoundForUpdate));
  }

  /** With at least one truthy field the SET list is never empty, and its columns are distinct. */
  lemma UpdateSetWellFormed(data: Obj)
    requires !NothingToUpdate(data)
    ensures var assigns := Pairs(Fragments(UpdateRules, data), Params(UpdateRules, data));
            |assigns| > 0 && Distinct(Columns(assigns))
  {
    assert DistinctColumns(UpdateRules);
    EmptyIffNoneIncluded(UpdateRules, data);
    assert Included(UpdateRules[0], data) || Included(UpdateRules[1], data) || Included(UpdateRules[2], data) ||
           Included(UpdateRules[3], data);
    WellFormedSet(UpdateRules, data);
  }

  /** `updateUserDetails` fails with 400, before any store call, when every field is falsy or a truthy id field does not parse. */
  lemma UpdateRejectsEarly(rows: map<int, Obj>, id: string, data: Obj, fault: Option<string>)
    ensures NothingToUpdate(data) ==> UpdateEffect(rows, id, data, fault) == Effect(Threw(Fail(NoFields, 400)), rows)
    ensures !NothingToUpdate(data) && FirstInvalid(UpdateRules, data).Some? ==>
              UpdateEffect(rows, id, data, fault) == Effect(Threw(Fail(FirstInvalid(UpdateRules, data).value, 400)), rows)
  {
  }

  /** The SET list of a body that passes is accepted, so the reply is decided by the model's row lookup. */
  lemma UpdateReachesModel(rows: map<int, Obj>, id: string, data: Obj, fault: Option<string>)
    requires !NothingToUpdate(data) && FirstInvalid(UpdateRules, data).None?
    ensures var b := Build(UpdateRules, data);
            b.Returned? && |b.value.params| == |b.value.updates| &&
            var e := UserModel.UpdateEffect(rows, id, b.value.updates, b.value.params, fault);
            UpdateEffect(rows, id, data, fault) == Effect(Catch(UpdateClauses, Found(e.reply, NotFoundForUpdate)), e.rows)
  {
  }

  /** Once the body passes, a missing row gives 404 and leaves the table unchanged. */
  lemma UpdateMissingRow(rows: map<int, Obj>, id: string, data: Obj, fault: Option<string>)
    requires !NothingToUpdate(data) && FirstInvalid(UpdateRules, data).None?
    requires ToInt(id).Some? && ToInt(id).value !in rows
    ensures UpdateEffect(rows, id, data, fault) == Effect(Threw(Fail(NotFoundForUpdate, 404)), rows)
  {
    UpdateSetWellFormed(data);
    UpdateReachesModel(rows, id, data, fault);
    var b := Build(UpdateRules, data).value;
    assert UserModel.UpdateEffect(rows, id, b.updates, b.params, fault) == Effect(Returned(None), rows);
    MessagesKeyFree();
  }

  /**
   * The id itself is not checked: once the body passes, an id the database cannot convert fails there, with no status,
   * and the table is unchanged (unless the id itself spells a foreign-key message, which the catch block then rewrites).
   */
  lemma UpdateUncheckedId(rows: map<int, Obj>, id: string, data: Obj, fault: Option<string>)
    requires !NothingToUpdate(data) && FirstInvalid(UpdateRules, data).None?
    requires ToInt(id).None? && 'K' !in id
    ensures UpdateEffect(rows, id, data, fault) == Effect(Threw(Raise(ConversionFailed(id))), rows)
  {
    UpdateSetWellFormed(data);
    UpdateReachesModel(rows, id, data, fault);
    var b := Build(UpdateRules, data).value;
    assert UserModel.UpdateEffect(rows, id, b.updates, b.params, fault) == Effect(Threw(Raise(ConversionFailed(id))), rows);
    ConversionFailedKeyFree(id);
    KeyFreePassesThrough(UpdateClauses, Raise(ConversionFailed(id)));
  }

  /** The 404 of `updateUserDetails` passes its catch block unchanged. */
  lemma MessagesKeyFree()
    ensures Reclassify(UpdateClauses, Fail(NotFoundForUpdate, 404)) == Fail(NotFoundForUpdate, 404)
  {
    assert 'K' !in NotFoundForUpdate;
    KeyFreePassesThrough(UpdateClauses, Fail(NotFoundForUpdate, 404));
  }

  /** An existing row is rewritten by the SET list the builder produced, and the updated view is returned. */
  lemma UpdateRewrites(rows: map<int, Obj>, id: string, data: Obj)
    requires !NothingToUpdate(data) && FirstInvalid(UpdateRules, data).None?
    requires ToInt(id).Some? && ToInt(id).value in rows
    ensures var k := ToInt(id).value;
            var e := UpdateEffect(rows, id, data, None);
            var assigns := Pairs(Fragments(UpdateRules, data), Params(UpdateRules, data));
            e.reply == Returned(UserModel.UpdatedView(Change(k, rows[k], Assign(rows[k], assigns)))) &&
            e.rows == rows[k := Assign(rows[k], assigns)]
  {
    UpdateSetWellFormed(data);
  }

  // ---------------------------------------------------------------------
  // deactivateUser
  // ---------------------------------------------------------------------

  function DeactivateEffect(rows: map<int, Obj>, id: string): Effect<Obj> {
    if ParseIntIsNaN(Str(id)) then Effect(Threw(Fail(BadId, 400)), rows)
    else
      var e := UserModel.SoftDeleteEffect(rows, id);
      Effect(Found(e.reply, NotFoundOrInactive), e.rows)
  }

  method DeactivateUser(t: Table, id: string) returns (r: Outcome<Obj>)
    requires t.Valid()
    modifies t
    ensures t.Valid() && t.nextId == old(t.nextId)
    ensures r == DeactivateEffect(old(t.rows), id).reply && t.rows == DeactivateEffect(old(t.rows), id).rows
  {
    if ParseIntIsNaN(Str(id)) {
      return Threw(Fail(BadId, 400));
    }
    var deactivated := UserModel.SoftDelete(t, id);
    r := Found(deactivated, NotFoundOrInactive);
  }

  /** `deactivateUser`: 400 for a non-numeric id; 404 for a missing or already inactive user; otherwise the row is flipped. */
  lemma DeactivateSpec(rows: map<int, Obj>, id: string)
    ensures var e := DeactivateEffect(rows, id);
            (ParseIntIsNaN(Str(id)) ==> e == Effect(Threw(Fail(BadId, 400)), rows)) &&
            (ToInt(id).Some? ==>
               var k := ToInt(id).value;
               if k in rows && UserModel.IsActive(rows[k]) then
                 e.reply.Returned? && e.rows == rows[k := rows[k]["Activo" := Bool(false)]]
               else e == Effect(Threw(Fail(NotFoundOrInactive, 404)), rows))
  {
    ConvertibleIdPassesGuard(id);
    if ToInt(id).Some? {
      UserModel.SoftDeleteSpec(rows, id);
    }
  }
}
