# SistemaDeSeguridad back end, modelled in Dafny

This project models the request-handling core of the SistemaDeSeguridad back end, an Express server over SQL Server
that manages users, subscribers (*abonados*), devices (*dispositivos*), device models, events and work orders
(*asignaciones*). What remains once HTTP, SQL and cryptography are abstracted is a set of sequential decision
procedures, and those are what the model captures:

- **JavaScript values** (`js.dfy`): `undefined`, `null`, booleans, numbers, strings and objects, with JS truthiness,
  `isNaN(parseInt(x))` written out (leading white space, sign, `0x` prefix, digits), `includes`, `toLowerCase`, and
  thrown exceptions with an optional `cause`. `JsObject` and `JsArray` are the objects and arrays the code changes in
  place (`data.FechaInstalacion = ...`, `params.push(id)`).
- **HTTP** (`http.dfy`): the `req`/`res`/`next` triple of an Express handler as a `Request` class that records the
  responses sent and the calls to `next`.
- **The database** (`sql.dfy`): each table is a map from primary key to row, held by a `Table` class. The statements
  the models run become operations on it: INSERT with an identity key, `UPDATE ... SET ... WHERE id = ?` with an
  optional extra guard, physical DELETE, SELECT by id, and the `OUTPUT INSERTED/DELETED` views. SQL Server's
  conversion of a text id to `INT`, its refusal of an empty or repeated `SET` column, and the errors a constraint
  raises are modelled. A UNIQUE or FOREIGN KEY violation is an oracle parameter `fault`, because the schema is not in
  the repository.
- **Partial updates** (`update_builder.dfy`): every `update*` service turns a sparse body into ordered, equal-length
  `updates`/`params` lists under a fixed key→column map. A list of `Rule`s (key, column, gate, numeric check) states
  that behaviour once. Each service's straight-line sequence of pushes is a method proved equal to its rule list.
- **Models, services and controllers** (one file each): the six model classes as table operations, the seven
  services as guard sequences with error reclassification by message substring, and the user, subscriber and login
  controllers as mappings from `error.cause` to an HTTP status and message.
- **Authentication** (`auth_service.dfy`, `auth_controller.dfy`, `auth_middleware.dfy`, `jwt.dfy`): the login
  sequence, bearer-token extraction, verification and the role gate with its per-router allow-lists.
- **The error handler** (`error_handler.dfy`) and **the legacy handlers of `index.js`** (`legacy_index.dfy`):
  register, login, PUT and DELETE on users, and that file's own `verifyToken`.

`bcrypt.hash`/`compare`, `jwt.sign`/`verify`, `new Date(v).toISOString()`, `GETDATE()` and `process.env` are parameters
of the functions that use them. Their failures are part of those parameters: a hash either returns or throws, and a
comparison either matches, mismatches or rejects (bcrypt rejects a password that is not a string and a NULL hash), and
the handlers' answers to each are modelled. Of `jwt.verify` the model assumes only that it gives back the claims a
token was signed with, possibly with `iat` and `exp` added.

## Model

| member | source | states |
|---|---|---|
| Js.TrimStart | src/services/UserService.js:87 | the white space `parseInt` skips: a suffix of the text that does not start with white space |
| Js.PrefixChars | src/services/UserService.js:48 | a text that starts with a pattern holds every character of it |
| Js.ContainsNeedsChar | src/services/UserService.js:48 | `includes(p)` is false when the text lacks a character of p |
| Js.ContainsInfix | src/services/UserService.js:48 | `includes(p)` is true of any text built around p |
| Js.Lower | src/middleware/auth.middleware.js:51 | `toLowerCase`: same length, each character lowered on its own |
| Js.JsArray.Push | src/models/AbonadoModel.js:47 | `params.push(id)` appends exactly that value |
| Http.Message | src/controllers/AuthController.js:14-16 | a reply whose JSON body has only `message` |
| Http.Envelope | src/controllers/AbonadoController.js:19-22 | a reply whose JSON body has exactly `message` and `error` |
| Http.Request.Next | src/middleware/auth.middleware.js:33 | `next()` is counted once and changes nothing else |
| Http.Request.Send | src/middleware/auth.middleware.js:20 | `res.status(s).json(b)` records one reply and changes nothing else |
| Errors.ReclassifySpec | src/services/UserService.js:47-55 | a catch block rethrows the error unchanged when no pattern occurs in its message, and otherwise throws the status error of the first pattern that occurs |
| Errors.KeyFreePassesThrough | src/services/UserService.js:144-149 | an error whose message has no capital K passes any of the catch blocks unchanged |
| Errors.CheckId | src/services/UserService.js:87-89 | the id guard fails exactly when `isNaN(parseInt(id))` |
| Errors.StatusOr500 | src/controllers/UserController.js:77 | `error.cause \|\| 500`: the cause when it is set and not 0, else 500 |
| Errors.ConflictOrBadRequest | src/controllers/AbonadoController.js:18 | the status is 409, 400 or 500, and is 409 or 400 exactly when the cause is |
| Sql.ToInt | src/models/UserModel.js:56-68 | SQL Server's conversion of an nvarchar id to INT: spaces around it ignored, then an optional sign and decimal digits; a value in the INT range, or no value |
| Sql.ConvertibleIdPassesGuard | src/services/UserService.js:87 | every id the database converts passes the services' `isNaN(parseInt(id))` guard |
| Sql.PartialIdPassesGuard | src/services/UserService.js:87 | the guard lets through "5abc", which the database cannot convert |
| Sql.PaddedIdConverts | src/services/UserService.js:87 | an id with spaces around it, " 5 ", passes the guard and converts to 5 |
| Sql.DecimalStringToInt | src/models/UserModel.js:56-68 | an id written in decimal within the INT range converts to its value |
| Sql.FirstDuplicate | src/models/AbonadoModel.js:41 | none exactly when the SET list names no column twice; otherwise a column that occurs twice |
| Sql.HeadRepeated | src/models/AbonadoModel.js:41 | when the first column occurs again it is the one reported |
| Sql.AssignSpec | src/models/AbonadoModel.js:41 | `SET c1 = v1, ...` with distinct columns: each listed column takes its value, every other column is kept, none is dropped |
| Sql.Pairs | src/models/AbonadoModel.js:41-48 | fragment j is bound to parameter j |
| Sql.ColumnOfFragment | src/services/AbonadoService.js:67 | a fragment "<column> = ?" names its column |
| Sql.Output | src/models/AbonadoModel.js:42 | an OUTPUT clause shows the changed row through its view, and keeps the table, the error and the no-row case |
| Sql.UpdateEffect | src/models/AbonadoModel.js:37-50 | an UPDATE by id rewrites at most the one selected row, and only when the SET list is non-empty and distinct, the id converts, the row matches its guard and the database raises nothing; an unconvertible id is SQL Server's conversion error; every other row is untouched |
| Sql.DuplicateRejected | src/models/AbonadoModel.js:41 | a SET list naming a column twice is rejected whatever the id, with the table unchanged |
| Sql.DeleteEffect | src/models/ModeloDispositivoModel.js:46-51 | a DELETE by id removes at most the selected row, and only when it exists and the database raises nothing; other rows stay |
| Sql.SelectById | src/models/AbonadoModel.js:26-34 | raises exactly when the id does not convert; finds the row with that key when there is one |
| Sql.Listing | src/models/EventoModel.js:20-31 | every row in a key range, each once, as stored, by ascending key |
| Sql.Table.Insert | src/models/AbonadoModel.js:8-17 | an insert either raises and changes nothing, or stores the row under the next identity value |
| Sql.Table.Update | src/models/AsignacionModel.js:72-81 | the table after an UPDATE is the one UpdateEffect gives |
| Sql.Table.Delete | src/models/ModeloDispositivoModel.js:46-51 | the table after a DELETE is the one DeleteEffect gives |
| Sql.Table.UpdatePositional | src/models/AbonadoModel.js:37-50 | the id is pushed onto the caller's array and the `?` markers are bound in order |
| Sql.AssignOne | src/models/AbonadoModel.js:56 | `SET c = v` changes exactly c |
| Sql.GuardedFlipOnce | src/models/AbonadoModel.js:53-62 | a guarded flip whose new value fails its guard takes effect at most once |
| Sql.SoftDeleteSpec | src/models/AbonadoModel.js:53-62 | a soft delete fails only on an unconvertible id, flips exactly the selected row when its flag is 1, and otherwise changes nothing |
| Sql.SoftDeleteTwice | src/models/AbonadoModel.js:53-62 | a second soft delete of the same id changes nothing |
| Sql.UpdateChangesOnlyListed | src/models/AbonadoModel.js:37-50 | a successful update changes only the listed columns of the selected row |
| Sql.DeleteThenGone | src/models/ModeloDispositivoModel.js:46-51 | after a delete the id selects nothing and a second delete removes nothing |
| UpdateBuilder.Params | src/services/UserService.js:116-134 | one parameter per fragment |
| UpdateBuilder.Chosen | src/services/UserService.js:116-134 | the positions of the rules that take part: each takes part, none is missed, in increasing order |
| UpdateBuilder.Step | src/services/UserService.js:119-134 | one more rule appends its fragment and value exactly when its key takes part, and keeps the first failing check |
| UpdateBuilder.Advance | src/services/UserService.js:119-120 | an `if (data.k) { updates.push(...); params.push(...) }` step extends the specification by one rule |
| UpdateBuilder.Reject | src/services/UserService.js:121-124 | a value that does not parse ends the build with that rule's 400 |
| UpdateBuilder.BuildShape | src/services/UserService.js:116-134 | entry j of the two lists is the fragment and the value of the j-th rule that takes part |
| UpdateBuilder.EmptyIffNoneIncluded | src/services/AbonadoService.js:82-84 | `updates.length === 0` exactly when no rule takes part |
| UpdateBuilder.FalsyDropped | src/services/AbonadoService.js:67 | a falsy value under an `if (data.k)` rule is not written |
| UpdateBuilder.FirstInvalidSpec | src/services/UserService.js:121-134 | the build throws exactly when a taking-part value fails its check, with the message of the first such rule |
| UpdateBuilder.FirstChosen | src/services/AbonadoService.js:67 | the first rule, when it takes part, heads the SET list |
| UpdateBuilder.BuildPairs | src/models/AbonadoModel.js:41-48 | the SET list the model binds assigns each taking-part rule's column the value of its key, in rule order |
| UpdateBuilder.ColumnOfSomeRule | src/services/AbonadoService.js:67-80 | every column of the SET list is the column of some rule |
| UpdateBuilder.UncheckedBuild | src/services/AbonadoService.js:61-80 | a builder without numeric checks never throws |
| UpdateBuilder.WellFormedSet | src/services/DispositivoService.js:90-106 | when no two taking-part rules share a column, a non-empty SET list names no column twice |
| UpdateBuilder.SharedColumn | src/services/AbonadoService.js:67-77 | two taking-part rules on the same column put it into the SET list twice |
| UserModel.NewRow | src/models/UserModel.js:8-21 | the inserted row is active (Activo = 1, read back as true) and stores the given hash and email |
| UserModel.CreatedView | src/models/UserModel.js:11 | the OUTPUT of the insert shows exactly the new key, name, email and role id |
| UserModel.Create | src/models/UserModel.js:8-24 | a failing insert raises the database error and leaves the table alone; otherwise the row is stored under the next identity value and its OUTPUT is returned |
| UserModel.FindActive | src/models/UserModel.js:41-53 | exactly the rows with Activo = 1 that join a role are listed, each with its own key and Activo |
| UserModel.FindById | src/models/UserModel.js:56-68 | raises when the id cannot be converted to INT; finds a row exactly when the key exists and the row joins a role, and shows that key |
| UserModel.FirstMatch | src/models/UserModel.js:71-82 | the lowest key in the range whose row has the email and joins a role; none below it matches, and None means no row in the range matches |
| UserModel.AuthView | src/models/UserModel.js:73-75 | the login lookup selects id, email, name, hash, Activo and the joined role name |
| UserModel.FindByEmailForAuth | src/models/UserModel.js:71-82 | `result[0]`: nothing exactly when no row has that email and a role; otherwise the first such row by key, with its hash |
| UserModel.Update | src/models/UserModel.js:85-97 | the UPDATE with the caller's SET list: reply and table are those of the SET applied to the selected row |
| UserModel.SoftDelete | src/models/UserModel.js:100-109 | the guarded `SET Activo = 0 ... AND Activo = 1`: reply and table as its effect function says |
| UserModel.SoftDeleteSpec | src/models/UserModel.js:100-109 | only an existing active row is deactivated, showing its id, name and the new Activo; for any other id nothing is shown and nothing changes |
| UserModel.SoftDeleteTwice | src/models/UserModel.js:105 | a second soft delete of the same id shows nothing and changes nothing |
| UserService.UserData | src/services/UserService.js:29-37 | the object handed to the model carries the hash and no plain password |
| UserService.RegisterReply | src/services/UserService.js:12-56 | missing nombre, email, password or idRol is a 400 before any store call; it returns exactly when the fields are there, the hash succeeded and the insert did not fail, and then shows the new id, name and email |
| UserService.RegisterUser | src/services/UserService.js:12-56 | the method's reply is RegisterReply; on success exactly one row (the hashed data) is added, on failure the table is unchanged |
| UserService.RegisterStoresHash | src/services/UserService.js:22-41 | the stored row holds the hash as PasswordHash, no password field, is active and keeps the email |
| UserService.RegisterErrors | src/services/UserService.js:47-55 | a store error with UNIQUE KEY becomes 409 "email taken", otherwise one with FOREIGN KEY becomes 400, otherwise it is rethrown unchanged |
| UserService.ProfileView | src/services/UserService.js:97-107 | the profile's `id` is the row's ID_Usuario |
| UserService.GetUserById | src/services/UserService.js:86-108 | 400 when `isNaN(parseInt(id))`; returns exactly when the id converts and names a row that joins a role, with that id; otherwise 404 |
| UserService.BuildUpdate | src/services/UserService.js:116-134 | the pushes produce exactly the builder's SET list, or the 400 of the first id field that does not parse |
| UserService.UpdateUserDetails | src/services/UserService.js:111-150 | the method's reply and new table are those of UpdateEffect |
| UserService.UpdateSetWellFormed | src/services/UserService.js:112-134 | with at least one truthy field the SET list is non-empty and names no column twice |
| UserService.UpdateRejectsEarly | src/services/UserService.js:112-131 | an all-falsy body is a 400 and an unparsable idSector or idRol is its own 400, both before any store call |
| UserService.UpdateReachesModel | src/services/UserService.js:136-149 | once the body passes, the reply is the model's update put through the 404 check and the catch block |
| UserService.UpdateMissingRow | src/services/UserService.js:139-141 | a passing body on a missing row is a 404 and changes nothing |
| UserService.UpdateUncheckedId | src/services/UserService.js:111-148 | the id is never checked: one the database cannot convert fails there without a status, table unchanged |
| UserService.MessagesKeyFree | src/services/UserService.js:140-148 | the 404 thrown inside the try passes the catch block unchanged |
| UserService.UpdateRewrites | src/services/UserService.js:136-143 | an existing row is rewritten by exactly the SET list and the updated view returned |
| UserService.DeactivateUser | src/services/UserService.js:153-165 | the method's reply and new table are those of DeactivateEffect |
| UserService.DeactivateSpec | src/services/UserService.js:153-165 | 400 for a non-numeric id; an active user is flipped to inactive; a missing or inactive one is a 404 with the table unchanged |
| UserController.Register | src/controllers/UserController.js:8-27 | 201 with the user; an error is 409 or 400 exactly when it carries that status and 500 otherwise; only 409/400 show the service message, `error` always does |
| UserController.RegisterAnswers | src/controllers/UserController.js:8-27 | end to end over RegisterReply: missing fields 400, taken email 409, bad sector or role 400, hash failure or other store error 500 with the generic message, success 201 |
| UserController.GetById | src/controllers/UserController.js:66-83 | 200 with the user; an error keeps its status (500 without one) and a 404 gets the fixed message |
| UserController.GetByIdAnswers | src/controllers/UserController.js:66-83 | end to end: non-numeric id 400, no such user 404, otherwise 200 with that user's id |
| UserController.Update | src/controllers/UserController.js:86-110 | 200 naming the id; an error keeps its status (500 without one) and a 404 gets the update message |
| UserController.UpdateAnswers | src/controllers/UserController.js:86-110 | end to end: empty body 400, missing row 404, both with the table unchanged; an unconvertible id is a 500 showing the database's text |
| UserController.SoftDelete | src/controllers/UserController.js:113-133 | 200 naming the id; an error keeps its status (500 without one) and a 404 gets the inactive message |
| UserController.SoftDeleteAnswers | src/controllers/UserController.js:113-133 | end to end: an active user is deactivated with 200, and asking again is a 404; a missing one is a 404 that changes nothing |
| AbonadoModel.NewRow | src/models/AbonadoModel.js:8-14 | the inserted row is active and stores razonSocial as RazonSocial and rut as RUT |
| AbonadoModel.Create | src/models/AbonadoModel.js:8-17 | a failing insert raises the database error and leaves the table alone; otherwise the row is stored under the next identity value and its OUTPUT is returned |
| AbonadoModel.FindAll | src/models/AbonadoModel.js:20-23 | every row, active or not, is listed once, with its own key and columns |
| AbonadoModel.FindById | src/models/AbonadoModel.js:26-34 | raises when the id cannot be converted to INT; finds a row exactly when the key exists, and shows that row's columns |
| AbonadoModel.Update | src/models/AbonadoModel.js:37-50 | the caller's `params` array gains the id at its end, and reply and table are those of the SET applied to the selected row |
| AbonadoModel.SoftDelete | src/models/AbonadoModel.js:53-62 | the guarded `SET Activo = 0 ... AND Activo = 1`: reply and table as its effect function says |
| AbonadoModel.SoftDeleteSpec | src/models/AbonadoModel.js:53-62 | only an existing active row is deactivated, showing its id, name and the new Activo; for any other id nothing is shown and nothing changes |
| AbonadoService.CreateReply | src/services/AbonadoService.js:8-32 | missing nombreCompleto, dni or idZona is a 400; it returns exactly when the fields are there and the insert did not fail, showing the new id, RazonSocial and RUT |
| AbonadoService.CreateAbonado | src/services/AbonadoService.js:8-32 | the method's reply is CreateReply; only a success adds the row, and a failure leaves the table unchanged |
| AbonadoService.CreateStoresOtherKeys | src/services/AbonadoService.js:11-18 | the check reads nombreCompleto and dni but the model stores razonSocial and rut: a body with only the checked keys stores neither column |
| AbonadoService.CreateErrors | src/services/AbonadoService.js:20-30 | a store error with UNIQUE KEY becomes 409, otherwise one with FOREIGN KEY becomes 400, otherwise it is rethrown unchanged |
| AbonadoService.GetAbonadoById | src/services/AbonadoService.js:41-53 | 400 for a non-numeric id; returns exactly when the key exists, with that row's columns; otherwise 404 |
| AbonadoService.BuildUpdate | src/services/AbonadoService.js:61-80 | the ten pushes produce exactly the builder's SET list |
| AbonadoService.UpdateAbonado | src/services/AbonadoService.js:56-100 | the method's reply and new table are those of UpdateEffect |
| AbonadoService.UpdateRejectsEarly | src/services/AbonadoService.js:57-84 | a non-numeric id is a 400, then an empty SET list is a 400, both before any store call |
| AbonadoService.ActivoKeptWhenSet | src/services/AbonadoService.js:80 | `activo` takes part whenever it is neither undefined nor null, so 0 and false are written |
| AbonadoService.SameColumnIffAlias | src/services/AbonadoService.js:67-77 | two rules write the same column exactly when one is the simplified alias of the other |
| AbonadoService.CollisionRepeats | src/services/AbonadoService.js:67-77 | a column given under both names appears twice in the SET list |
| AbonadoService.AliasesCollide | src/services/AbonadoService.js:86-99 | such a SET list is refused by the database with the repeated-column error, which has no status, passes the catch block, and leaves the table unchanged |
| AbonadoService.RazonSocialFirstRepeated | src/services/AbonadoService.js:67-74 | with razonSocial and nombreCompleto both given, RazonSocial is the first column to repeat |
| AbonadoService.RazonSocialTwice | src/services/AbonadoService.js:56-100 | that request ends in the repeated-column error naming RazonSocial |
| AbonadoService.UpdateSetWellFormed | src/services/AbonadoService.js:61-84 | without a collision a non-empty SET list names no column twice |
| AbonadoService.UpdateMissingRow | src/services/AbonadoService.js:86-91 | an accepted SET list on a missing row is a 404 and changes nothing |
| AbonadoService.UpdateErrors | src/services/AbonadoService.js:94-99 | a store error on an existing row becomes 409 with UNIQUE KEY and otherwise passes unchanged, table unchanged |
| AbonadoService.UpdateRewrites | src/services/AbonadoService.js:86-93 | an existing row is rewritten by exactly the SET list and the updated view returned |
| AbonadoService.DeactivateAbonado | src/services/AbonadoService.js:103-115 | the method's reply and new table are those of DeactivateEffect |
| AbonadoService.DeactivateSpec | src/services/AbonadoService.js:103-115 | 400 for a non-numeric id; 404 with the table unchanged for a missing or inactive row; otherwise the row is flipped to inactive |
| AbonadoController.Create | src/controllers/AbonadoController.js:8-24 | 201 with the subscriber; an error is 409 or 400 exactly when it carries that status and 500 otherwise, showing its message in both fields |
| AbonadoController.CreateAnswers | src/controllers/AbonadoController.js:8-24 | end to end: missing fields 400, taken DNI 409, unknown zone 400, any other store error a 500 showing the database's text |
| AbonadoController.GetById | src/controllers/AbonadoController.js:45-61 | 200 with the subscriber; an error keeps its status (500 without one) and a 404 gets the fixed message |
| AbonadoController.GetByIdAnswers | src/controllers/AbonadoController.js:45-61 | end to end: non-numeric id 400, no such row 404, otherwise 200 with its details |
| AbonadoController.Update | src/controllers/AbonadoController.js:64-84 | 200 naming the id; an error keeps its status (500 without one) and a 404 gets the update message |
| AbonadoController.UpdateBadId | src/controllers/AbonadoController.js:64-84 | a non-numeric id is a 400 that changes nothing |
| AbonadoController.UpdateCollision | src/controllers/AbonadoController.js:64-84 | a column given under both names is a 500 carrying the repeated-column error, table unchanged |
| AbonadoController.UpdateMissing | src/controllers/AbonadoController.js:64-84 | a missing row is a 404 with the update message, table unchanged |
| AbonadoController.UpdateFaults | src/controllers/AbonadoController.js:64-84 | on an existing row a RUT clash is a 409 and any other store error a 500 showing the database's text |
| AbonadoController.SoftDelete | src/controllers/AbonadoController.js:87-107 | 200 naming the id; an error keeps its status (500 without one) and a 404 gets the inactive message |
| AbonadoController.SoftDeleteAnswers | src/controllers/AbonadoController.js:87-107 | end to end: an active subscriber is deactivated with 200; asking again, or for a missing one, is a 404 that changes nothing |
| DispositivoModel.NewRow | src/models/DispositivoModel.js:8-14 | Activo defaults to 1 only when the body leaves it undefined, otherwise the body's value is stored; FechaInstalacion is never inserted |
| DispositivoModel.Create | src/models/DispositivoModel.js:8-17 | a failing insert raises the database error and leaves the table alone; otherwise the row is stored under the next identity value and its OUTPUT is returned |
| DispositivoModel.FindById | src/models/DispositivoModel.js:33-44 | raises when the id cannot be converted to INT; finds a row exactly when the key exists, and shows that row's columns |
| DispositivoModel.Update | src/models/DispositivoModel.js:47-57 | the caller's `params` array gains the id at its end, and reply and table are those of the SET applied to the selected row |
| DispositivoModel.SoftDelete | src/models/DispositivoModel.js:60-69 | the guarded `SET Activo = 0 ... AND Activo = 1`: reply and table as its effect function says |
| DispositivoModel.SoftDeleteSpec | src/models/DispositivoModel.js:60-69 | only an existing active row is deactivated, showing its id, name and the new Activo; for any other id nothing is shown and nothing changes |
| DispositivoModel.SoftDeleteTwice | src/models/DispositivoModel.js:65 | a second soft delete of the same id shows nothing and changes nothing |
| DispositivoService.IsoDay | src/services/DispositivoService.js:26 | `slice(0, 10)`: a prefix of the ISO text, ten characters long or all of it when shorter |
| DispositivoService.Normalize | src/services/DispositivoService.js:16-32 | a falsy date leaves the body alone; it fails exactly when a truthy date does not parse, with a 400; otherwise only FechaInstalacion may change |
| DispositivoService.DateRewritten | src/services/DispositivoService.js:19-26 | a date that parses is replaced by the first ten characters of its ISO text, no key added or lost |
| DispositivoService.RewriteDate | src/services/DispositivoService.js:16-32 | the in-place rewrite of the request body agrees with Normalize and leaves the body untouched when it fails |
| DispositivoService.CreateReply | src/services/DispositivoService.js:8-50 | missing ID_Modelo, Serie or NombreDispositivo is a 400, then a bad date is a 400; it returns exactly when both checks pass and the insert did not fail, showing the new id, Serie and name |
| DispositivoService.CreateDispositivo | src/services/DispositivoService.js:8-50 | the method's reply is CreateReply, the caller's body holds the rewritten date, only a success adds a row |
| DispositivoService.CreateIgnoresDate | src/services/DispositivoService.js:26-38 | the rewritten date never reaches the stored row |
| DispositivoService.CreateErrors | src/services/DispositivoService.js:40-49 | a store error with UNIQUE KEY becomes 409, otherwise one with FOREIGN KEY becomes 400, otherwise it is rethrown unchanged |
| DispositivoService.GetDispositivoById | src/services/DispositivoService.js:58-69 | 400 for a non-numeric id; returns exactly when the key exists, with that row's columns; otherwise 404 |
| DispositivoService.BuildUpdate | src/services/DispositivoService.js:90-101 | the six pushes produce exactly the builder's SET list |
| DispositivoService.UpdateDispositivo | src/services/DispositivoService.js:72-124 | the method's reply and new table are those of UpdateEffect, and the caller's body holds the rewritten date |
| DispositivoService.Apply | src/services/DispositivoService.js:90-123 | building, the empty check, the model's update and the catch block together settle as ApplyEffect |
| DispositivoService.UpdateRejectsBadId | src/services/DispositivoService.js:73-75 | a non-numeric id is a 400 that changes neither the table nor the body |
| DispositivoService.UpdateRejectsBadDate | src/services/DispositivoService.js:81-88 | a truthy date that does not parse is a 400 that changes neither the table nor the body |
| DispositivoService.UpdateNoFields | src/services/DispositivoService.js:104-106 | the SET list is empty exactly when no field takes part, and then the update is a 400 |
| DispositivoService.RuleColumnsDistinct | src/services/DispositivoService.js:90-101 | the six pushes name six different columns |
| DispositivoService.UpdateSetWellFormed | src/services/DispositivoService.js:90-106 | a non-empty SET list names no column twice |
| DispositivoService.UpdateMissingRow | src/services/DispositivoService.js:108-113 | an accepted SET list on a missing row is a 404 and changes nothing |
| DispositivoService.UpdateErrors | src/services/DispositivoService.js:115-123 | a store error on an existing row becomes 409 with UNIQUE KEY, else 400 with FOREIGN KEY, else passes unchanged, table unchanged |
| DispositivoService.UpdateRewrites | src/services/DispositivoService.js:108-114 | an existing row is rewritten by exactly the SET list and the updated view returned |
| DispositivoService.EstadoKeptWhenSet | src/services/DispositivoService.js:99 | `Estado` takes part whenever it is neither undefined nor null |
| DispositivoService.DeactivateDispositivo | src/services/DispositivoService.js:127-139 | the method's reply and new table are those of DeactivateEffect |
| DispositivoService.DeactivateSpec | src/services/DispositivoService.js:127-139 | 400 for a non-numeric id; an active device is flipped to inactive; a missing or inactive one is a 404 with the table unchanged |
| ModeloDispositivoModel.NewRow | src/models/ModeloDispositivoModel.js:8-14 | the inserted row holds exactly the three catalogue columns, taken from the body's keys |
| ModeloDispositivoModel.Create | src/models/ModeloDispositivoModel.js:8-17 | a failing insert raises the database error and leaves the table alone; otherwise the row is stored under the next identity value and its OUTPUT is returned |
| ModeloDispositivoModel.FindById | src/models/ModeloDispositivoModel.js:26-30 | raises when the id cannot be converted to INT; finds a row exactly when the key exists, and shows that row's columns |
| ModeloDispositivoModel.Update | src/models/ModeloDispositivoModel.js:33-43 | the caller's `params` array gains the id at its end, and reply and table are those of the SET applied to the selected row |
| ModeloDispositivoModel.Delete | src/models/ModeloDispositivoModel.js:46-51 | the physical DELETE: reply and table as its effect function says |
| ModeloDispositivoModel.DeleteSpec | src/models/ModeloDispositivoModel.js:46-51 | only the selected existing row is removed, showing its id and name; a missing id shows nothing and a refused delete raises, both with the table unchanged |
| ModeloDispositivoModel.DeleteThenFindById | src/models/ModeloDispositivoModel.js:26-51 | after a delete that removed a row, looking that id up finds nothing |
| ModeloDispositivoService.CreateReply | src/services/ModeloDispositivoService.js:8-24 | missing nombreModelo or tipoDispositivo is a 400; it returns exactly when both are there and the insert did not fail, showing the new id and name |
| ModeloDispositivoService.CreateModelo | src/services/ModeloDispositivoService.js:8-24 | the method's reply is CreateReply; only a success adds the row |
| ModeloDispositivoService.CreateErrors | src/services/ModeloDispositivoService.js:18-23 | a store error with UNIQUE KEY becomes 409 and any other is rethrown unchanged |
| ModeloDispositivoService.GetModeloById | src/services/ModeloDispositivoService.js:32-43 | 400 for a non-numeric id; returns exactly when the key exists, with that row's columns; otherwise 404 |
| ModeloDispositivoService.BuildUpdate | src/services/ModeloDispositivoService.js:55-57 | the three pushes produce exactly the builder's SET list |
| ModeloDispositivoService.UpdateModelo | src/services/ModeloDispositivoService.js:46-76 | the method's reply and new table are those of UpdateEffect |
| ModeloDispositivoService.UpdateRejectsEarly | src/services/ModeloDispositivoService.js:47-61 | a non-numeric id is a 400, then an empty SET list is a 400, both before any store call |
| ModeloDispositivoService.RuleColumnsDistinct | src/services/ModeloDispositivoService.js:55-57 | the three pushes name three different columns |
| ModeloDispositivoService.UpdateSetWellFormed | src/services/ModeloDispositivoService.js:55-61 | a non-empty SET list names no column twice |
| ModeloDispositivoService.UpdateMissingRow | src/services/ModeloDispositivoService.js:63-68 | an accepted SET list on a missing row is a 404 and changes nothing |
| ModeloDispositivoService.UpdateErrors | src/services/ModeloDispositivoService.js:70-75 | a store error on an existing row becomes 409 with UNIQUE KEY and otherwise passes unchanged, table unchanged |
| ModeloDispositivoService.UpdateRewrites | src/services/ModeloDispositivoService.js:63-69 | an existing row is rewritten by exactly the SET list and the updated view returned |
| ModeloDispositivoService.DeleteModelo | src/services/ModeloDispositivoService.js:79-98 | the method's reply and new table are those of DeleteEffect |
| ModeloDispositivoService.NotDeletedKeyFree | src/services/ModeloDispositivoService.js:87-96 | the 404 thrown inside the try passes the catch block unchanged |
| ModeloDispositivoService.DeleteSpec | src/services/ModeloDispositivoService.js:79-98 | 400 for a non-numeric id; 404 for a missing model; 409 when the database's error names a FOREIGN KEY constraint; any other database error passes; only a successful delete removes the row |
| ModeloDispositivoService.ReferenceConflictUnmatched | src/services/ModeloDispositivoService.js:92 | the error SQL Server raises for a DELETE blocked by a referencing row names a REFERENCE constraint, so the catch block's FOREIGN KEY test does not match it |
| ModeloDispositivoService.StillReferencedIs500 | src/services/ModeloDispositivoService.js:87-96 | as written, deleting a model that devices still refer to passes that error through, a 500, and keeps the row |
| ModeloDispositivoService.ReferenceFreePassesIntended | src/services/ModeloDispositivoService.js:87-96 | with the intended catch block, a message naming neither constraint passes unchanged |
| ModeloDispositivoService.DeleteIntendedSpec | src/services/ModeloDispositivoService.js:87-96 | with the intended catch block, a delete blocked by a REFERENCE constraint is the 409 "still in use" and keeps the row |
| ModeloDispositivoService.DeleteIntendedAgrees | src/services/ModeloDispositivoService.js:79-98 | the correction changes no other outcome: every id and every error that does not name a REFERENCE constraint is answered as written |
| ModeloDispositivoService.DeleteThenNotFound | src/services/ModeloDispositivoService.js:32-98 | after a successful delete, getting the same id is a 404 |
| EventoModel.NewRow | src/models/EventoModel.js:8-14 | the inserted row is stamped with the server time and keeps the body's device id |
| EventoModel.Create | src/models/EventoModel.js:8-17 | appends exactly one event under a fresh key, stamped with the server time, and keeps every event already logged; a failing insert changes nothing |
| EventoModel.Place | src/models/EventoModel.js:29 | inserting one event into a latest-first list keeps it latest-first and adds exactly that event |
| EventoModel.LatestFirstOrder | src/models/EventoModel.js:29 | `ORDER BY E.FechaHora DESC` with NULLs last: the result is latest-first and a permutation of its input |
| EventoModel.Views | src/models/EventoModel.js:22-25 | one selected row per event, in the same order |
| EventoModel.OfDevice | src/models/EventoModel.js:42 | `WHERE E.ID_Dispositivo = ?`: exactly the events of that device are kept |
| EventoModel.FindAllSpec | src/models/EventoModel.js:20-32 | every logged event is listed exactly once, each as stored, latest first |
| EventoModel.ByDeviceSpec | src/models/EventoModel.js:35-46 | raises for an id the database cannot convert; otherwise exactly the events of that device, each as stored, latest first |
| EventoService.CreateReply | src/services/EventoService.js:8-25 | missing ID_Dispositivo, TipoEvento or Descripcion is a 400; it returns exactly when they are there and the insert did not fail, showing the new id, type and the server time |
| EventoService.CreateEvento | src/services/EventoService.js:8-25 | the method's reply is CreateReply; only a success adds the event |
| EventoService.CreateErrors | src/services/EventoService.js:18-24 | a store error with FOREIGN KEY becomes 400 and any other is rethrown unchanged |
| EventoService.GetEventosByDispositivo | src/services/EventoService.js:33-46 | 400 for a non-numeric id; every convertible id returns a list, never a 404 |
| EventoService.ListsDeviceEvents | src/services/EventoService.js:33-46 | that list is exactly the device's events, latest first |
| EventoService.NoEventsEmptyList | src/services/EventoService.js:40-45 | a device without events gets an empty list |
| AsignacionModel.NewRow | src/models/AsignacionModel.js:8-16 | Estado defaults to 'Programada' only when the body leaves it undefined, otherwise the body's value is stored |
| AsignacionModel.Create | src/models/AsignacionModel.js:8-19 | a failing insert raises the database error and leaves the table alone; otherwise the row is stored under the next identity value and its OUTPUT is returned |
| AsignacionModel.FindById | src/models/AsignacionModel.js:38-51 | raises when the id cannot be converted to INT; finds a row exactly when the key exists, and shows that row's columns |
| AsignacionModel.Update | src/models/AsignacionModel.js:54-64 | the caller's `params` array gains the id at its end, and reply and table are those of the SET applied to the selected row |
| AsignacionModel.FindActiveByDispositivoId | src/models/AsignacionModel.js:67-69 | the compatibility stub answers null for every device |
| AsignacionModel.Deactivate | src/models/AsignacionModel.js:72-81 | the guarded finalizing UPDATE: reply and table as its effect function says |
| AsignacionModel.FinalizeAssigns | src/models/AsignacionModel.js:75 | the SET list names Estado and FechaFinReal once each and writes 'Finalizada' and the server time |
| AsignacionModel.DeactivateSpec | src/models/AsignacionModel.js:72-81 | only an existing row whose Estado is non-NULL and not 'Programada' is finalized, showing id, new Estado and end time; otherwise nothing is shown and nothing changes |
| AsignacionModel.FreshOrderStays | src/models/AsignacionModel.js:8-81 | an order created with the default Estado can never be finalized |
| AsignacionModel.FinalizedIsRestamped | src/models/AsignacionModel.js:77 | an order already finalized is matched again and only its end time changes |
| AsignacionModel.FinalizeIntendedSpec | src/models/AsignacionModel.js:72-81 | with the guard `Estado <> 'Finalizada'`: every existing order not yet finalized is finalized; otherwise nothing changes |
| AsignacionModel.FinalizeIntendedOnce | src/models/AsignacionModel.js:72-81 | with that guard a second finalize shows nothing and changes nothing |
| AsignacionModel.FreshOrderFinalizes | src/models/AsignacionModel.js:8-81 | with that guard a newly created order can be finalized |
| AsignacionService.CreateReply | src/services/AsignacionService.js:8-23 | missing ID_Direccion, ID_Tecnico, TipoOT or FechaProgramada is a 400; it returns exactly when they are there and the insert did not fail, showing the OUTPUT columns |
| AsignacionService.CreateAsignacion | src/services/AsignacionService.js:8-23 | the method's reply is CreateReply; only a success adds the row |
| AsignacionService.CreateErrors | src/services/AsignacionService.js:17-22 | a store error with FOREIGN KEY becomes 400 and any other is rethrown unchanged |
| AsignacionService.CreateSchedules | src/services/AsignacionService.js:8-23 | a complete body without Estado is stored as 'Programada' |
| AsignacionService.GetAsignacionById | src/services/AsignacionService.js:31-42 | 400 for a non-numeric id; returns exactly when the key exists, with that row's columns; otherwise 404 |
| AsignacionService.BuildUpdate | src/services/AsignacionService.js:54-59 | the six pushes produce exactly the builder's SET list |
| AsignacionService.UpdateAsignacion | src/services/AsignacionService.js:45-78 | the method's reply and new table are those of UpdateEffect |
| AsignacionService.UpdateRejectsEarly | src/services/AsignacionService.js:46-63 | a non-numeric id is a 400, then an empty SET list is a 400, both before any store call |
| AsignacionService.RuleColumnsDistinct | src/services/AsignacionService.js:54-59 | the six pushes name six different columns |
| AsignacionService.UpdateSetWellFormed | src/services/AsignacionService.js:54-63 | a non-empty SET list names no column twice |
| AsignacionService.MessagesKeyFree | src/services/AsignacionService.js:68-76 | the 404 thrown inside the try passes the catch block unchanged |
| AsignacionService.UpdateMissingRow | src/services/AsignacionService.js:65-70 | an accepted SET list on a missing row is a 404 and changes nothing |
| AsignacionService.UpdateErrors | src/services/AsignacionService.js:72-77 | a store error on an existing row becomes 400 with FOREIGN KEY and otherwise passes unchanged, table unchanged |
| AsignacionService.UpdateRewrites | src/services/AsignacionService.js:65-71 | an existing row is rewritten by exactly the SET list and the updated view returned |
| AsignacionService.DeactivateAsignacion | src/services/AsignacionService.js:81-93 | the method's reply and new table are those of DeactivateEffect |
| AsignacionService.DeactivateSpec | src/services/AsignacionService.js:81-93 | 400 for a non-numeric id; an order whose Estado is set and not 'Programada' is finalized; any other is a 404 with the table unchanged |
| AsignacionService.FreshOrderRefused | src/services/AsignacionService.js:81-93 | finalizing a newly created order is a 404 |
| AsignacionService.FinalizedAcceptedAgain | src/services/AsignacionService.js:81-93 | finalizing an order a second time succeeds again, against the "already finalized" 404 message |
| AsignacionService.DeactivateIntended | src/services/AsignacionService.js:81-93 | the service over the corrected guard: reply and table as DeactivateIntendedEffect |
| AsignacionService.DeactivateIntendedSpec | src/services/AsignacionService.js:81-93 | with the corrected guard every order not yet finalized is finalized and a finalized one is a 404 |
| AsignacionService.DeactivateIntendedOnce | src/services/AsignacionService.js:81-93 | with the corrected guard a new order is finalized once and the second request is a 404 |
| Jwt.Secret | src/services/AuthService.js:8 | `process.env.JWT_SECRET \|\| default`: the environment's secret when set and non-empty, else the fixed fallback (the same at src/middleware/auth.middleware.js:7) |
| AuthService.Claims | src/services/AuthService.js:49-57 | the token carries exactly id, email and rol, taken from ID_Usuario, Email and NombreRol |
| AuthService.PublicView | src/services/AuthService.js:62-72 | the user part of the reply has exactly id, nombre, apellido, rol, email and activo |
| AuthService.Admit | src/services/AuthService.js:34-72 | a found user is admitted exactly when not inactive (Activo false or 0) and the hash matches; inactive is a 401 checked before the hash, a mismatch is the credentials 401, a comparison that rejects (a non-string password, a NULL hash) rethrows its error without a status, and admission signs the claims for one hour |
| AuthService.Login | src/services/AuthService.js:17-73 | a missing email or password is a 400 before the lookup |
| AuthService.UnknownEmailThrowsTypeError | src/services/AuthService.js:27-32 | as written, an unknown email throws a TypeError without a status instead of the 401 |
| AuthService.LoginSucceeds | src/services/AuthService.js:17-73 | a login that returns had both fields and found the first user with that email, active, whose hash matched, and returns that user's signed session |
| AuthService.SessionOfRow | src/services/AuthService.js:49-72 | the claims are the row's key, email and role name; the public view leaves out the hash and has no apellido, which the lookup never selects |
| AuthService.InactiveBeforeCompare | src/services/AuthService.js:36-42 | an inactive user is refused whatever the hash comparison would say |
| AuthService.StoredActivoBlocks | src/services/AuthService.js:36 | a row stored with Activo false is refused, and a row with Activo true is not |
| AuthService.FailuresDistinguishable | src/services/AuthService.js:29-46 | as written, an unknown email and a wrong password give different errors |
| AuthService.LoginIntended | src/services/AuthService.js:17-73 | the evidently intended login with `new Error` at line 31: an error without a status can only be a hash comparison that rejects, for a found active user |
| AuthService.IntendedCauses | src/services/AuthService.js:17-73 | with both fields present the corrected login fails only with a 401 or without a status, and a rejecting comparison (line 42) always ends in an error without a status |
| AuthService.FailuresIndistinguishable | src/services/AuthService.js:29-46 | with that correction an unknown email and a wrong password give the same 401 |
| AuthService.IntendedAgreesOnKnownEmail | src/services/AuthService.js:17-73 | the correction changes nothing for an email that is found |
| AuthController.Credentials | src/controllers/AuthController.js:9-21 | the service is handed an object with exactly email and password, copied from the body |
| AuthController.Answer | src/controllers/AuthController.js:19-45 | 200 with message, token and user; an error keeps its status (500 without one), and the message is fixed for 401 and for 500, the service's text for 400 |
| AuthController.Login | src/controllers/AuthController.js:8-46 | POST /api/login as written: the controller check first, then the service |
| AuthController.LoginStatuses | src/controllers/AuthController.js:8-46 | the only statuses are 200, 400, 401 and 500, and every 400 is the controller's own message |
| AuthController.UnknownEmailIs500 | src/controllers/AuthController.js:8-46 | as written, an unknown email gets a 500 with the generic message and the TypeError text |
| AuthController.RefusalsShareMessage | src/controllers/AuthController.js:33-45 | an inactive user and a wrong password share the 401 message, and only the error field tells them apart |
| AuthController.LoginSucceeds | src/controllers/AuthController.js:19-30 | a 200 carries the token and the public user of the session the service signed |
| AuthController.LoginIntended | src/controllers/AuthController.js:8-46 | over the corrected service the statuses are only 200, 400, 401 and 500, and a 500 comes exactly from a hash comparison that rejects for a found active user |
| AuthController.IntendedRefusalsAlike | src/controllers/AuthController.js:8-46 | over the corrected service an unknown email and a wrong password get the same reply |
| AuthMiddleware.FirstSpace | src/middleware/auth.middleware.js:16 | the first space of the header, with none before it |
| AuthMiddleware.Fields | src/middleware/auth.middleware.js:16 | `split(' ')`: at least one field, none holding a space |
| AuthMiddleware.JoinFields | src/middleware/auth.middleware.js:16 | joining the fields with spaces gives back the header |
| AuthMiddleware.SchemeAndToken | src/middleware/auth.middleware.js:16 | a scheme and a token without spaces split into exactly those two fields |
| AuthMiddleware.Token | src/middleware/auth.middleware.js:14-16 | `authHeader && authHeader.split(' ')[1]`: undefined without a header, the empty header itself, else the second field |
| AuthMiddleware.AnySchemeWord | src/middleware/auth.middleware.js:16 | any first word is accepted in place of "Bearer" |
| AuthMiddleware.NoSpaceNoToken | src/middleware/auth.middleware.js:16-21 | a header without a space has no token |
| AuthMiddleware.Verify | src/middleware/auth.middleware.js:12-35 | passes exactly when a token is present and the verifier accepts it, carrying the decoded claims; otherwise a 401, missing-token or invalid-token |
| AuthMiddleware.VerifyToken | src/middleware/auth.middleware.js:12-35 | on the request: a pass sets req.user and calls next once, a refusal sends one 401 and does not call next |
| AuthMiddleware.MissingTokenSkipsVerifier | src/middleware/auth.middleware.js:18-21 | without a token the verifier is never consulted |
| AuthMiddleware.EmptySecondField | src/middleware/auth.middleware.js:16-21 | a trailing space or a doubled space leaves an empty token, which is refused as missing |
| AuthMiddleware.LowerAll | src/middleware/auth.middleware.js:51 | `map(r => r.toLowerCase())`: each allowed role lowered, in place |
| AuthMiddleware.CheckRole | src/middleware/auth.middleware.js:41-57 | a pass keeps the user it was given |
| AuthMiddleware.CheckRoleAdmits | src/middleware/auth.middleware.js:41-57 | passes exactly when the user's rol is a non-empty string equal, ignoring case, to an allowed role; no user or no rol is a 403 |
| AuthMiddleware.CheckRoleOn | src/middleware/auth.middleware.js:41-57 | on the request: req.user is unchanged, a pass calls next once, a refusal sends one 403 |
| AuthMiddleware.AdminRolesDisjoint | src/routes/abonado.routes.js:11 | 'Administrador' and 'Administrador General' are each refused where the other is required (the work-order list is at src/routes/asignacion.routes.js:9) |
| AuthMiddleware.SignedTokenAdmitted | src/middleware/auth.middleware.js:12-57 | a token signed at login and sent under any scheme passes verification with every signed claim intact (the verifier may add iat and exp), and the role gate then decides by the token's role alone |
| ErrorHandler.HandleError | src/utils/errorHandler.js:3-14 | the status is the error's cause or 500, the body has exactly message and error, the message is the error's own when non-empty and the default otherwise, and `error` is shown only when NODE_ENV is 'development' |
| ErrorHandler.EnvironmentOnlyHidesError | src/utils/errorHandler.js:10-13 | the environment changes only the error field: status and message are the same in development and elsewhere |
| ErrorHandler.MessageNeverEmpty | src/utils/errorHandler.js:6 | with a non-empty default the message is never empty |
| LegacyIndex.Verify | index.js:49-71 | `token == null` refuses only a missing token, with 401; any string token goes to the verifier, and a refused one is a 403; a pass carries the decoded user; the secret is the fixed one at index.js:12 |
| LegacyIndex.VerifyToken | index.js:49-71 | on the request: a pass sets req.user and calls next once, a refusal sends one reply and does not call next |
| LegacyIndex.EmptyTokenVariants | index.js:52-63 | a header "Bearer " is a 401 missing-token in the middleware but goes to the verifier, and so is a 403, here |
| LegacyIndex.VariantsAgreeOnUsableTokens | index.js:49-71 | for a non-empty token the two verifiers pass the same tokens with the same user, and refuse with 401 there and 403 here |
| LegacyIndex.RegisteredRow | index.js:136-144 | the inserted row stores the hash the hashing call returned, not the password, and is active |
| LegacyIndex.RegisterFailure | index.js:161-171 | every store error is a 500 showing the database's text, with the email message for UNIQUE KEY, the sector message for FOREIGN KEY, the generic one otherwise |
| LegacyIndex.RegisterReply | index.js:128-172 | a missing field is a 400; a hash that rejects (line 136, a non-string password) or a failed insert is the catch block's 500 carrying the error's text; a 201 exactly when the body is complete, the hash succeeded and the insert did not fail, showing the new id, name and email |
| LegacyIndex.Register | index.js:128-172 | the route's reply is RegisterReply; only a 201 adds the row, holding the hash that was returned |
| LegacyIndex.Admit | index.js:198-242 | a 200 exactly when Activo is not false and the hash matches; a 500 with the login message and the error's text exactly when, for such a user, the comparison rejects (a non-string password, a NULL hash); every other refusal is a 401 |
| LegacyIndex.Login | index.js:177-244 | a missing field is a 400, and the only statuses are 200, 400, 401 and 500 |
| LegacyIndex.UnknownAndWrongPasswordAlike | index.js:194-210 | an unknown email and a wrong password get the same 401 reply |
| LegacyIndex.NumericZeroNotBlocked | index.js:201 | a user stored with Activo 0 is let in here, while the service refuses it |
| LegacyIndex.InactiveBeforeCompare | index.js:201-203 | a user with Activo false is refused whatever the hash comparison would say |
| LegacyIndex.BuildPut | index.js:402-408 | the four pushes produce exactly the builder's SET list |
| LegacyIndex.PutFailure | index.js:439-448 | every store error is a 500 showing the database's text, with the sector message for FOREIGN KEY |
| LegacyIndex.Put | index.js:385-449 | the route's reply and the new table are those of PutEffect, and the parameters sent are the SET values followed by the id |
| LegacyIndex.SecondCheckUnreachable | index.js:396-413 | once the first presence check passes, the SET list is never empty |
| LegacyIndex.PutParamsShape | index.js:422 | one parameter per fragment, then the id last |
| LegacyIndex.PutColumnsDistinct | index.js:405-408 | the four pushes name four different columns |
| LegacyIndex.PutSpec | index.js:385-449 | for a convertible id and a non-empty body: 404 for a missing user; a store error is a 500 with the table unchanged; otherwise a 200 and the row rewritten by the SET list |
| LegacyIndex.Delete | index.js:456-498 | the route's reply and the new table are those of DeleteEffect |
| LegacyIndex.DeleteSpec | index.js:456-498 | an active user is deactivated with a 200 showing id, name, email and the new Activo; any other convertible id is a 404 with the table unchanged |
| LegacyIndex.DeleteTwice | index.js:465-476 | a second delete of the same id is a 404 |

## Left out

- Connection pooling, `dotenv` and the environment set-up of `src/config/db.config.js`: the database is the `Table` abstraction.
- `executeQuery`'s parameter binding: it takes an object and `@name` markers, but the models pass arrays and `?` markers. The model binds the `?` markers positionally, the evidently intended reading, and does not model the mismatch.
- JOINs other than the users' ROLES/SECTORES joins (needed for `NombreRol` in the login claims), and the column lists of the joined listings of devices, events and work orders.
- The `getAll*`/`findAll` listings of the services and of the user, subscriber and device models, and the user and subscriber controllers' `getAll`/`getActive`: they only select rows. `AbonadoModel.FindAll` and `UserModel.FindActive` are modelled without their ORDER BY; only the events' ORDER BY FechaHora DESC is modelled.
- The column labels `NumeroSerie`/`Zona_Ubicacion` (device update) and `Serie`/`Ubicacion` (device create) are kept as the source writes them, as opaque labels, with no schema to reconcile them.
- The exact texts of SQL Server's messages: `Sql.ConversionFailed` and `Sql.DuplicateColumnMessage` keep only the parts the services test for (they contain no `KEY constraint` text).
- The texts of V8's TypeErrors (`new new Error`, reading a property of `undefined`) are represented by fixed constants.
- `toLowerCase` is modelled for ASCII and the Latin-1 letters; other Unicode case mappings are not.
- JSON serialisation: a response body is the object handed to `res.json`, so keys whose value is `undefined` are still present in it.
- Logging to the console, `startServer` and `process.exit`.
- The `index.js` routes `/`, `/api/status`, `/api/metadata`, `/api/users`, `/api/users/active`, `/api/users/:id` (GET) and `/api/user/profile`, and the Express routing files beyond the allow-lists `checkRole` is given.
- The device, device-model, event and work-order controllers: they apply the `cause || 500` rule that `ErrorHandler.HandleError` models. Their calls to service methods that do not exist (`deactivateModelo`, `getEventoById`, `updateEventoEstado`) are not modelled.
- The error details that `jwt.verify` passes to its callback: the verifier oracle returns only the decoded claims or nothing.
- Asynchronous interleaving: each handler runs to completion with no other request in between.
- Sql.ToInt: the conversion of a string parameter is SQL Server's own: spaces around it are skipped, and '5.0', '1e1' and '0x10' are refused. Where a string reaches a parameter typed `sql.Int` (src/config/db.config.js:11-16), the driver first converts it with JavaScript's `Number()`, which accepts those three; that conversion is not modelled.
- FindByEmailForAuth (UserModel.FindByEmailForAuth): `U.Email = @Email` is compared as exact string equality. Under SQL Server's default case-insensitive collation, with trailing spaces ignored, "Ana@X.com " also finds the row for "ana@x.com"; the model does not promise that, neither for the service's lookup (src/models/UserModel.js:78) nor for the legacy one (index.js:190).
- DeactivateSpec (AsignacionModel.DeactivateSpec): `Estado <> 'Programada'` is compared as exact string inequality, so a stored 'programada' or 'Programada ' counts as different here, as it would not under the default collation.
- SoftDeleteSpec (Sql.SoftDeleteSpec, and the models' and services' SoftDeleteSpec and DeactivateSpec that rest on it): a stored value keeps the JavaScript value bound to it; SQL Server would coerce it to the column's type. An abonado update `{"activo": 5}` stores 5 here where a BIT column holds 1, so a later soft delete, which tests `Activo = 1`, finds that row active in SQL Server and not in the model.
- Signature security, token expiry and hashing cost: the `'1h'` expiry is passed to the signing oracle as a constant, and the salt rounds are folded into the hashing oracle.

## Findings

| source | as written | input that shows it | evidently intended | confidence | as-written member | corrected member |
|---|---|---|---|---|---|---|
| src/services/AuthService.js:31 | `throw new new Error('Credenciales inválidas.', { cause: 401 })` | a login whose email no row matches: `new` is applied to the Error object, which is not a constructor, so a TypeError without `cause` is thrown and the controller answers 500 | `throw new Error(...)`, a 401 with the same message as a wrong password | not executed | AuthService.UnknownEmailThrowsTypeError | AuthService.LoginIntended |
| src/models/AsignacionModel.js:77 | `WHERE ID_Asignacion = ? AND Estado <> 'Programada'` | a work order just created (Estado defaults to 'Programada') is never finalized and the service answers 404; an order already 'Finalizada' is finalized again and re-stamped | `Estado <> 'Finalizada'`, as the 404 message (an order "not found or already finalized") at src/services/AsignacionService.js:89 says | not executed | AsignacionService.FreshOrderRefused | AsignacionService.DeactivateIntendedSpec |
| src/services/ModeloDispositivoService.js:92 | the catch block tests `error.message.includes('FOREIGN KEY constraint')` | deleting a model that devices still refer to: SQL Server raises "The DELETE statement conflicted with the REFERENCE constraint ...", which the test does not match, so the error passes and the client gets a 500 | that delete answers the 409 "No se puede eliminar el modelo porque está asociado a dispositivos existentes.", which only a REFERENCE-constraint error can cause | not executed | ModeloDispositivoService.StillReferencedIs500 | ModeloDispositivoService.DeleteIntendedSpec |
