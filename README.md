# Wayne API backend: a verified model

This project models the backend of the Wayne API in Dafny. The backend is a FastAPI service over
four tables: users, vehicles, equipment and equipment-safety records. The model covers:

- the `/auth` routes: registration, login with email and password, the OAuth2 form login,
  token refresh and `/auth/me`;
- the token gate `verify_token`, which every resource route depends on;
- the create / list / get / PUT / PATCH / delete handlers of the three resource routers;
- the table declarations and the request and response schemas these handlers go through.

The model is one sequential state machine.

- **Tables** (`Tables.Table<R>`). Each table is a class with a map from key to row and an
  autoincrement counter. Keys start at 1 and are never reused.
- **Rows** (`Rows.Row`). A resource row is a map from attribute name to value, which is how the
  ORM object looks to the handlers. `Vehicle(**body.model_dump())` and the
  `for key, value in ...items(): setattr(...)` loops become one `while` loop, `Rows.SetAttrs`.
  It is proved against the specification function `Rows.Applied`.
- **Flush.** A commit is modelled by `Rows.Storable`. A NULL in a NOT NULL column is rejected,
  and so is a string, or an integer other than 0 or 1, in a Boolean column (SQLAlchemy's strict
  Boolean binding accepts only None, True, False and the values equal to them). A rejected
  flush rolls back and answers 500.
- **Responses.** Every reply passes through its response schema (`Resources.Reply`,
  `Schemas.*PublicOf`). A stored NULL that the public schema does not allow answers 500 after
  the commit has already happened.
- **One router for three tables.** `Resources` holds the handler pattern once. `Entity` values
  carry each router's 404 detail, list key, columns, PUT/PATCH status code and response schema:
  - `VehiclesRouter.Vehicles` and `EquipmentRouter.Equipment` describe those tables as declared.
  - For equipment safety there are two. `EquipmentSafetyRouter.EquipmentSafetyAsWritten` has the
    Boolean `status` column that models.py:54 declares. `EquipmentSafetyRouter.EquipmentSafety`
    has the corrected text column described under "## Findings".
- **Handlers.** Each router module binds its create, PUT and PATCH handlers to the pattern: for
  example, `VehiclesRouter.CreateVehicle` is `Resources.Create` on the dumped body. These
  wrappers state the end-to-end round trip: after the write, a get of the same key answers the
  body. The corrected equipment-safety wrappers use the text column.
  `EquipmentSafetyRouter.CreateEquipmentSafetyAsWritten` shows the declared table refusing
  every create.
- **Libraries as parameters.** The JWT library and bcrypt are parameters: `Crypto.Signer` and
  `Crypto.Hasher`. What the model relies on about them is stated as `Crypto.SignerLaws` and
  `Crypto.HasherSound`. Only lemmas assume these; no operation does.
  - A token the server issued decodes to its own claims until `exp`, and is refused after.
  - No decoded claim set is expired.
  - A password verifies against its own hash.
- **Time.** The clock is an integer number of seconds, passed to every operation that reads it.

Two consequences of the code are worth stating:

- Creates and PUTs need `year` (schemas.py:11), because `VehicleBase.year` is a required `int`.
- A token is accepted up to and including the second of its `exp`. The JWT library refuses a
  token only when `exp < now`. So a token issued with lifetime 0 still passes in the second it
  was issued.

## Model

| member | source | states |
|---|---|---|
| `Decimal.ParseInt` | backEnd/wayne_api/dependencies.py:26 | `int(sub)` gives a number exactly when the subject is a non-empty run of digits with an optional leading `+` or `-` (so `"1a"`, `"--1"`, `"-"` and `""` are refused); the number is the digits' decimal value, negated after `-` |
| `Decimal.ParseIntInverse` | backEnd/wayne_api/routers/auth_routers.py:18 | the subject written as `str(id)` reads back through `int(...)` as exactly `id`, negative ids included |
| `Tables.Table.Insert` | backEnd/wayne_api/models.py:26 | the store, not the constructor, assigns the key: the counter's value, a key not in use; exactly one row is added and the counter advances |
| `Tables.Table.Replace` | backEnd/wayne_api/routers/vehicles_routers.py:51-53 | a commit of an updated object changes that key's row only |
| `Tables.Table.Remove` | backEnd/wayne_api/routers/vehicles_routers.py:80-81 | `session.delete` removes exactly one key, the size drops by one, the counter is untouched |
| `Tables.Window` | backEnd/wayne_api/routers/vehicles_routers.py:31 | `OFFSET`/`LIMIT`: skip `offset` rows, then keep at most `limit`; a negative offset skips nothing and a negative limit keeps all (SQLite's reading) |
| `Tables.Table.Page` | backEnd/wayne_api/routers/vehicles_routers.py:30-32 | a page has at most `limit` entries, each a stored (key, row) pair, in strictly increasing key order; it is as long as `Window` of the keys in use, and its i-th entry is the row under the (max(offset,0)+i)-th smallest key, so the page skips the first `offset` rows and runs on through consecutive keys |
| `Tables.Table.Has` | backEnd/wayne_api/routers/vehicles_routers.py:38 | `session.get` finds a row only under a key in use, so never under an id below 1 or one the counter has not handed out |
| `Tables.Table.PageOfAll` | backEnd/wayne_api/routers/vehicles_routers.py:30 | with no offset and a limit at least the table's size, the page holds every row |
| `Rows.Applied` | backEnd/wayne_api/routers/vehicles_routers.py:51-52 | after a run of `setattr`s, every key an item names holds the last value given for it, and every other attribute is unchanged |
| `Rows.Fits` | backEnd/wayne_api/models.py:27-29 | NULL in a NOT NULL column is refused, and a string or an integer other than 0 or 1 in a Boolean column is refused; any non-NULL value fits a text or integer column, and NULL, a boolean, 0 or 1 fits a nullable Boolean column |
| `Rows.Storable` | backEnd/wayne_api/models.py:53-55 | a row the flush accepts holds a non-NULL value in every NOT NULL column and no string and no integer other than 0 or 1 in a Boolean column; a row with a non-NULL value in each of its text and integer columns is accepted |
| `Rows.SetAttrs` | backEnd/wayne_api/routers/vehicles_routers.py:65-67 | the `setattr` loop computes `Applied` of the old row and the dumped items |
| `Models.NewVehicle` | backEnd/wayne_api/models.py:31-34 | the `Vehicle` constructor sets exactly `type`, `model` and `year` |
| `Models.NewEquipment` | backEnd/wayne_api/models.py:44-46 | the `Equipment` constructor sets exactly `name` and `description` |
| `Models.NewEquipmentSafety` | backEnd/wayne_api/models.py:57-60 | the `EquipmentSafety` constructor sets exactly `name`, `status` and `description` |
| `Models.EmailsUnique` | backEnd/wayne_api/models.py:10 | the unique constraint on `users.email` holds exactly when every user is the only one registered under its email |
| `Schemas.DumpVehicle` | backEnd/wayne_api/routers/vehicles_routers.py:22 | `model_dump()` of a `VehicleBase`, applied to a fresh object, sets exactly what `Vehicle(**...)` sets: type, model and year from the body |
| `Schemas.DumpVehiclePatch` | backEnd/wayne_api/routers/vehicles_routers.py:65 | `model_dump(exclude_unset=True)` assigns each sent field its value (NULL when sent as null), and assigns nothing to omitted fields or any other key |
| `Schemas.VehiclePublicOf` | backEnd/wayne_api/schemas.py:15-19 | `VehiclePublic` validates a row exactly when type and model hold strings and year holds an integer; the response then carries those stored values and the key |
| `Schemas.DumpEquipment` | backEnd/wayne_api/routers/equipment_routers.py:21 | `model_dump()` sets exactly what `Equipment(**...)` sets: name and description from the body |
| `Schemas.DumpEquipmentPatch` | backEnd/wayne_api/routers/equipment_routers.py:64 | `model_dump(exclude_unset=True)` assigns exactly the sent fields, null as NULL |
| `Schemas.EquipmentPublicOf` | backEnd/wayne_api/schemas.py:43-46 | `EquipmentPublic` validates a row exactly when name and description hold strings, and then carries them and the key |
| `Schemas.DumpEquipmentSafety` | backEnd/wayne_api/routers/equipment_safety_routers.py:19 | `model_dump()` sets exactly what `EquipmentSafety(**...)` sets: name, status and description from the body, status as the body's string |
| `Schemas.DumpEquipmentSafetyPatch` | backEnd/wayne_api/routers/equipment_safety_routers.py:61 | `model_dump(exclude_unset=True)` assigns exactly the sent fields, null as NULL |
| `Schemas.EquipmentSafetyPublicOf` | backEnd/wayne_api/schemas.py:70-74 | `EquipmentSafetyPublic` validates a row exactly when name, status and description hold strings, and then carries them and the key |
| `Schemas.PatchItem` | backEnd/wayne_api/schemas.py:24-27 | `model_dump(exclude_unset=True)`: an omitted field gives no item, a field sent as null gives a NULL item, a sent value gives that value |
| `Dependencies.AccessMinutes` | backEnd/wayne_api/dependencies.py:16 | the access-token lifetime is 30 minutes when unconfigured, and n when the variable holds `str(n)`; an empty value fails at import |
| `Dependencies.ConfigFrom` | backEnd/wayne_api/dependencies.py:16 | the configuration's lifetime is the one read from the environment: 30 minutes (1800 seconds) when unset, n when the variable holds `str(n)`, and no configuration when it is empty |
| `Dependencies.VerifyToken` | backEnd/wayne_api/dependencies.py:23-33 | a token that fails decoding gives 401 "Acesso negado"; a decoded token with no subject gives exactly the 500 of a missing subject, and one whose subject is not numeric exactly the 500 of a failed `int()`, and no other case escapes as a 500; an id with no user gives 401; on success the user is the stored row whose key is `int(sub)` |
| `AuthRouter.CreateToken` | backEnd/wayne_api/routers/auth_routers.py:16-20 | `criar_token`: under the signer's laws the token decodes, up to `now + lifetime`, to the claims `sub = str(id)` and `exp = now + lifetime`, and to nothing afterwards; any successful decode has a subject that `int(...)` reads back as `id` |
| `AuthRouter.IssuedTokenVerifies` | backEnd/wayne_api/routers/auth_routers.py:16-20 | `criar_token` puts `sub = str(id)` and `exp = now + lifetime` in the claims, so until `exp` the gate resolves the token to user `id` |
| `AuthRouter.ExpiredTokenRejected` | backEnd/wayne_api/routers/auth_routers.py:17-18 | after `now + lifetime` the gate answers 401 "Acesso negado" for the token |
| `AuthRouter.FindByEmail` | backEnd/wayne_api/routers/auth_routers.py:25 | the lookup by email finds the first user with that email, and finds none exactly when no user has it |
| `AuthRouter.Authenticate` | backEnd/wayne_api/routers/auth_routers.py:24-30 | unknown email exactly when no user has it; wrong password when the password does not verify against the stored hash; otherwise that user, whose hash verifies; with unique emails it succeeds exactly when some user with that email verifies |
| `AuthRouter.AuthenticateStored` | backEnd/wayne_api/routers/auth_routers.py:28-30 | a stored user whose password field is the hash of `p` authenticates with `p` |
| `AuthRouter.Register` | backEnd/wayne_api/routers/auth_routers.py:34-49 | an email in use gives 400 "Email already registered" and no change; otherwise exactly one user is added with `hash(password)` in place of the plaintext, and name, email and admin copied from the body; emails stay unique, and the new user can then authenticate with the password |
| `AuthRouter.Login` | backEnd/wayne_api/routers/auth_routers.py:51-64 | an unknown email and a wrong password both give 401 "Invalid email or password"; otherwise an access token and a refresh token, both for the authenticated user, of type "bearer" |
| `AuthRouter.LoginTokensVerify` | backEnd/wayne_api/routers/auth_routers.py:58-59 | the access token resolves to the logged-in user for the configured lifetime, and the refresh token for exactly seven days and not after |
| `AuthRouter.LoginForm` | backEnd/wayne_api/routers/auth_routers.py:66-77 | the form's `username` is checked as the email; the answer is an access token only |
| `AuthRouter.Refresh` | backEnd/wayne_api/routers/auth_routers.py:80-86 | a refused token is passed on as the gate's error; otherwise a new access token for the gate's user |
| `AuthRouter.RefreshRenews` | backEnd/wayne_api/routers/auth_routers.py:81-82 | any token the gate accepts, a refresh token included, buys an access token that resolves to the same user |
| `AuthRouter.Me` | backEnd/wayne_api/routers/auth_routers.py:89-91 | `/me` answers through `UserBase`, so it echoes the stored password hash along with name, email and admin |
| `Resources.Create` | backEnd/wayne_api/routers/vehicles_routers.py:18-26 | gate error first, then 403 "Operation not permitted" for a non-admin, with the table unchanged; an admin's row is stored under a fresh key and returned with 201 (the same pattern is at equipment_routers.py:17-25 and equipment_safety_routers.py:15-23) |
| `Resources.List` | backEnd/wayne_api/routers/vehicles_routers.py:29-33 | no admin flag needed; defaults offset 0 and limit 10, no upper bound; at most `limit` rows in key order under the router's list key; one row failing the response schema fails the whole list |
| `Resources.PresentAll` | backEnd/wayne_api/routers/vehicles_routers.py:29 | `response_model=VehicleList` validates every row of the page, in order, and succeeds only if each row does |
| `Resources.Get` | backEnd/wayne_api/routers/vehicles_routers.py:36-41 | an absent key gives 404 with the router's detail; a present key returns that row unchanged; no admin flag needed |
| `Resources.Update` | backEnd/wayne_api/routers/vehicles_routers.py:44-70 | PUT and PATCH check existence before the admin flag, so an absent key gives 404 even to a non-admin; on every path short of an admin's storable write (gate error, 404, 403, rejected flush) the table is unchanged; otherwise only that key's row becomes `Applied(old row, items)`, committed even when the response then fails |
| `Resources.Delete` | backEnd/wayne_api/routers/vehicles_routers.py:73-81 | 404 before 403; an admin removes exactly that key and gets 204; every failure leaves the table unchanged |
| `VehiclesRouter.CreateRoundTrip` | backEnd/wayne_api/routers/vehicles_routers.py:22-26 | a created vehicle is the constructor's row built from the body; the flush accepts it; reading it back gives the body's type, model and year plus the assigned id |
| `VehiclesRouter.PutOverwritesAll` | backEnd/wayne_api/routers/vehicles_routers.py:51-52 | PUT overwrites type, model and year whatever they held; the flush accepts the result and it reads back as the body |
| `VehiclesRouter.PatchWritesOnlySent` | backEnd/wayne_api/routers/vehicles_routers.py:65-67 | PATCH writes exactly the fields the client sent, null included; omitted fields and every other attribute keep their values |
| `VehiclesRouter.PatchNullModelRejected` | backEnd/wayne_api/models.py:28 | `model: null` violates NOT NULL, so the flush is rejected |
| `VehiclesRouter.PatchKeepsStorable` | backEnd/wayne_api/models.py:27-29 | a PATCH that does not send `model: null` keeps a storable row storable, since type and year are nullable |
| `VehiclesRouter.PatchNullYearNotServed` | backEnd/wayne_api/schemas.py:15-19 | `year: null` or `type: null` on a storable row (with `model` not sent as null) is accepted by the flush, so it is stored, but the row then fails `VehiclePublic` |
| `VehiclesRouter.CreateVehicle` | backEnd/wayne_api/routers/vehicles_routers.py:18-26 | `create_vehicle`: gate error or 403 with the table unchanged; an admin's vehicle is stored under the next key as the constructor's row, answered with 201, and a get of that key answers the body |
| `VehiclesRouter.UpdateVehicle` | backEnd/wayne_api/routers/vehicles_routers.py:44-55 | `update_vehicle`: gate error, 404, then 403, each with the table unchanged; an admin's PUT overlays the body on the stored row, answers 201 with the body, and a get answers the body |
| `VehiclesRouter.PatchVehicle` | backEnd/wayne_api/routers/vehicles_routers.py:58-70 | `partial_update_vehicle`: `model: null` is rolled back with 500; on a storable row only that key changes, only the sent fields change, and a later get answers what the PATCH answered |
| `EquipmentRouter.CreateRoundTrip` | backEnd/wayne_api/routers/equipment_routers.py:21-25 | a created equipment record holds the body's name and description under a new key and reads back as them |
| `EquipmentRouter.PutOverwritesAll` | backEnd/wayne_api/routers/equipment_routers.py:50-51 | PUT overwrites name and description; the flush accepts the result and it reads back as the body |
| `EquipmentRouter.PatchWritesOnlySent` | backEnd/wayne_api/routers/equipment_routers.py:64-66 | PATCH writes only the supplied fields |
| `EquipmentRouter.PatchNullNameRejected` | backEnd/wayne_api/models.py:41 | `name: null` violates NOT NULL |
| `EquipmentRouter.PatchKeepsStorable` | backEnd/wayne_api/models.py:41-42 | a PATCH that does not send `name: null` keeps a storable row storable |
| `EquipmentRouter.PatchNullDescriptionNotServed` | backEnd/wayne_api/schemas.py:43-46 | `description: null` on a storable row (with `name` not sent as null) is accepted by the flush, so it is stored, but the row then fails `EquipmentPublic` |
| `EquipmentRouter.CreateEquipment` | backEnd/wayne_api/routers/equipment_routers.py:17-25 | `create_equipment`: gate error or 403 with the table unchanged; an admin's record is stored under the next key, answered with 201, and a get of that key answers the body |
| `EquipmentRouter.UpdateEquipment` | backEnd/wayne_api/routers/equipment_routers.py:43-54 | `update_equipment`: gate error, 404, then 403, each with the table unchanged; an admin's PUT overlays the body, answers 200 with it, and a get answers the same |
| `EquipmentRouter.PatchEquipment` | backEnd/wayne_api/routers/equipment_routers.py:57-69 | `partial_update_equipment`: `name: null` is rolled back with 500; on a storable row only the sent fields of that key change, and a later get answers what the PATCH answered |
| `EquipmentSafetyRouter.StatusStringNeverStored` | backEnd/wayne_api/models.py:54 | as declared, the Boolean `status` column refuses the string that every create and PUT body carries |
| `EquipmentSafetyRouter.StatusPatchNeverStored` | backEnd/wayne_api/routers/equipment_safety_routers.py:61-64 | as declared, a PATCH that sends a status string is refused at the flush |
| `EquipmentSafetyRouter.CreateEquipmentSafetyAsWritten` | backEnd/wayne_api/routers/equipment_safety_routers.py:15-23 | `create_equipment_safety` over the table as declared: every admin request ends in 500 and the table never changes |
| `EquipmentSafetyRouter.CreateRoundTrip` | backEnd/wayne_api/routers/equipment_safety_routers.py:19-23 | with a string `status` column, a create stores name, status and description under a new key and reads back as them |
| `EquipmentSafetyRouter.PutOverwritesAll` | backEnd/wayne_api/routers/equipment_safety_routers.py:47-48 | PUT overwrites name, status and description; with the corrected column the flush accepts the result and it reads back as the body |
| `EquipmentSafetyRouter.PatchWritesOnlySent` | backEnd/wayne_api/routers/equipment_safety_routers.py:61-63 | PATCH writes only the supplied fields |
| `EquipmentSafetyRouter.PatchNullNameRejected` | backEnd/wayne_api/models.py:53 | `name: null` violates NOT NULL |
| `EquipmentSafetyRouter.PatchKeepsStorable` | backEnd/wayne_api/models.py:53-55 | with the corrected column, a PATCH that does not send `name: null` keeps a storable row storable |
| `EquipmentSafetyRouter.PatchNullNotServed` | backEnd/wayne_api/schemas.py:70-74 | `status: null` or `description: null` on a storable row (with `name` not sent as null) is accepted by the flush, so it is stored, but the row then fails `EquipmentSafetyPublic` |
| `EquipmentSafetyRouter.CreateEquipmentSafety` | backEnd/wayne_api/routers/equipment_safety_routers.py:15-23 | with the corrected column, `create_equipment_safety` stores an admin's record under the next key, answers 201, and a get of that key answers the body |
| `EquipmentSafetyRouter.UpdateEquipmentSafety` | backEnd/wayne_api/routers/equipment_safety_routers.py:40-51 | with the corrected column, `update_equipment_safety`: gate error, 404, then 403 with the table unchanged; an admin's PUT overlays the body and a get answers it |
| `EquipmentSafetyRouter.PatchEquipmentSafety` | backEnd/wayne_api/routers/equipment_safety_routers.py:54-66 | with the corrected column, `partial_update_equipment_safety`: `name: null` is rolled back; on a storable row only the sent fields change and a later get answers what the PATCH answered |

## Left out

- Cryptography. JWT signing and bcrypt are the parameters `Crypto.Signer` and `Crypto.Hasher`,
  constrained only by `SignerLaws` and `HasherSound`.
- bcrypt's random salt. The hash is a function of the password alone.
- The JWT library's own claim checks other than `exp`, such as a `sub` that is not a string.
  These are folded into `decode` returning None.
- Key, algorithm and environment loading. `Dependencies.AccessMinutes` models only the lifetime
  variable.
- HTTP transport and the extraction of the bearer header (RFC 6750). A request with no
  `Authorization` header is refused by the framework before `verify_token` runs; the model starts
  from the token string.
- Request-body validation (422) and pydantic's type coercion. Bodies are typed Dafny values.
- The `UserPublic` shape. It is declared, but no route answers with it.
- The database engine, sessions and transactions. Tables are maps.
  - The list queries have no `ORDER BY`; key order is an assumption of the model.
  - Negative offsets and limits follow SQLite.
  - Keys come from a counter that never reuses a key. An engine that hands out max+1 would reuse
    the key of a deleted last row.
  - 64-bit key overflow is not modelled.
  - Concurrent requests, and races on the email uniqueness check, are not modelled. The
    uniqueness constraint is the invariant `Models.EmailsUnique`, which `Register` requires
    and preserves.
- `Decimal.ParseInt`: accepts only an optional sign followed by ASCII digits. Python's `int()`
  also accepts surrounding whitespace, `_` between digits and non-ASCII digits; those subjects
  are refused here instead of accepted.
- `AuthRouter.FindByEmail`: takes the lowest key. SQL `.first()` without `ORDER BY` does not
  promise an order, but with unique emails the two agree.
- Wall-clock time. It is an integer number of seconds, and `exp` is truncated to whole seconds
  as the JWT library does.
- Per-router wrappers for list, get and delete. These handlers are `Resources.List`,
  `Resources.Get` and `Resources.Delete` applied to the router's `Entity` value, with nothing
  router-specific beyond that value.
- PUT and PATCH handlers over the equipment-safety table as declared. What they do is stated on
  the rows instead, by `EquipmentSafetyRouter.StatusStringNeverStored` and
  `EquipmentSafetyRouter.StatusPatchNeverStored`.
- The browser front end and the FastAPI app wiring (CORS, router registration).

## Findings

| source | as written | input that shows it | evidently intended | confidence | as-written member | corrected member |
|---|---|---|---|---|---|---|
| backEnd/wayne_api/models.py:54 | `EquipmentSafety.status` is a Boolean column, while `EquipmentSafetyBase.status` is a `str`; SQLAlchemy's Boolean type raises TypeError when it binds a string | an admin sends POST `/equipment-safety/` with `{"name": "Mask", "status": "operational", "description": "d"}`; the flush raises, so the answer is 500 and nothing is stored; every PUT, and every PATCH that sends a status, fails the same way | the status the API accepts is stored and read back | medium, not executed; it rests on SQLAlchemy's strict Boolean binding | `EquipmentSafetyRouter.StatusStringNeverStored` | `EquipmentSafetyRouter.CreateRoundTrip` |
