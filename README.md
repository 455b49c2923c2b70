# Booking administration services — access control and record state

A Dafny model of the two PHP services of a small booking administration
system:

- **Users service.** Registration has a bootstrap rule: the first user needs no token, and every later registration needs an administrador's token. Login issues a session token, and logout clears it. Listing and updating users is for administradores only.
- **Flights service.** Administradores create, list, update and delete aircraft ("naves") and flights. Administradores and gestores list flights with optional filters. Gestores create, list and cancel reservations. A token middleware resolves the caller before any handler runs.

The database is modelled as tables (`Tables.Table`). Each table is a sequence of rows in insertion order, and each row carries its auto-increment id. Every table keeps one invariant: ids strictly increase along it, so they are unique. Handlers are methods. Each returns a `Response` (status code plus the value the PHP code JSON-encodes) and writes only the tables in its `modifies` clause. The parts that only compute are functions: lookups, filters, the role check and the middleware. Lemmas prove the properties the code promises about them: exact-match lookups, "only this record changes", conjunctive filtering, descending order, idempotent cancellation, and logout invalidating a token.

Files:

| file | models |
|---|---|
| `tables.dfy` | ORM tables: `find`, `create`, `update`+save, `delete`, id order |
| `http.dfy` | responses; PHP `empty()` on strings |
| `user_repository.dfy` | `back/users/app/Repositories/UserRepository.php` |
| `users_controller.dfy` | `back/users/app/Controllers/UsersController.php` |
| `airline_controller.dfy` | `back/flights/app/Controllers/AirlineController.php` |
| `flights_entry.dfy` | `back/flights/public/index.php` (preflight and token middleware) |

Points where the code behaves differently from what a reader of the routes might expect; the model follows the code:

- No `activa` status is written when a reservation is created. The stored status is whatever the payload carried, or the database default (`status = None` in the model).
- The first registered user gets whatever role the payload names. The code does not force `administrador`.
- `updateUser` on an unknown id answers 200 with the success message. It does not answer 404.
- Cancelling an already cancelled reservation succeeds again and leaves the same state.
- `register` rejects the token `"0"` as missing, because `!$token` treats it as false. The flights middleware only rejects an absent header (`=== null`), so an empty or `"0"` token goes on to the lookup there.

## Model

| member | source | states |
|---|---|---|
| `Tables.FindRow` | back/flights/app/Controllers/AirlineController.php:43-46 | `find($id)` returns a stored row with that id, and returns nothing exactly when no row has that id |
| `Tables.Replace` | back/flights/app/Controllers/AirlineController.php:48-49 | update-and-save gives the rows keyed `id` the new columns; every other row and every id stays as it was |
| `Tables.Remove` | back/flights/app/Controllers/AirlineController.php:66 | delete keeps exactly the rows whose id differs from `id` |
| `Tables.RemoveAscending` | back/flights/app/Controllers/AirlineController.php:61-66 | after a delete the table stays in id order; it loses exactly one row when the id was found, and none otherwise |
| `Tables.ReversedDescending` | back/flights/app/Controllers/AirlineController.php:176 | reading an id-ordered table backwards gives strictly descending ids and the same rows |
| `Tables.Table.Create` | back/users/app/Repositories/UserRepository.php:8-11 | `create` appends exactly one row under an id no stored row has, and the table stays well keyed |
| `Tables.Table.Save` | back/users/app/Repositories/UserRepository.php:25-28 | saving a record overwrites only that record's columns |
| `Tables.Table.Delete` | back/flights/app/Controllers/AirlineController.php:139 | deleting a record removes only the rows with that id |
| `UserRepo.FirstIndex` | back/users/app/Repositories/UserRepository.php:15-18 | `->first()` of a `where` chain: the earliest matching position, no earlier row matches, none exactly when nothing matches |
| `UserRepo.FindByCredentials` | back/users/app/Repositories/UserRepository.php:13-19 | returns a stored user whose email and password both equal the arguments, the first such; null exactly when none matches |
| `UserRepo.FindByToken` | back/users/app/Repositories/UserRepository.php:31-36 | returns a stored user whose token equals the argument, the first such; null exactly when no user holds it |
| `UserRepo.SetTokenTouchesOnlyToken` | back/users/app/Repositories/UserRepository.php:21-29 | `updateToken(id, t)` changes only the token of user `id`; all other columns and users stay; an unknown id is a no-op |
| `UserRepo.PatchUserTouchesOnlyTarget` | back/users/app/Repositories/UserRepository.php:43-50 | `update(id, data)` overwrites the given fields of user `id` only; an unknown id is a no-op |
| `UserRepo.PatchedFields` | back/users/app/Repositories/UserRepository.php:47-49 | present patch fields are written, absent ones kept, the token untouched (the patch type carries no token column; see Left out); the empty patch changes nothing |
| `UserRepo.ClearedTokenNeverResolves` | back/users/app/Repositories/UserRepository.php:21-36 | after `updateToken(id, null)`, no token lookup returns user `id` |
| `UserRepo.SetTokenResolves` | back/users/app/Repositories/UserRepository.php:21-36 | after `updateToken(id, t)` on a stored user, a lookup of `t` finds a user |
| `UserRepo.UserRepository.GetByEmailAndPassword` | back/users/app/Repositories/UserRepository.php:13-19 | returns a stored user with exactly these credentials, the first in table order; null exactly when none matches |
| `UserRepo.UserRepository.GetByToken` | back/users/app/Repositories/UserRepository.php:31-36 | returns a stored user holding exactly this token, the first in table order; null exactly when nobody holds it |
| `UserRepo.UserRepository.GetAll` | back/users/app/Repositories/UserRepository.php:38-41 | returns every stored user, the whole table in table order |
| `UserRepo.UserRepository.Create` | back/users/app/Repositories/UserRepository.php:8-11 | stores one new user with the payload's columns and no token; `getAll` grows by one |
| `UserRepo.UserRepository.UpdateToken` | back/users/app/Repositories/UserRepository.php:21-29 | the new table equals the old one, except that user `userId` (if stored) has the new token |
| `UserRepo.UserRepository.Update` | back/users/app/Repositories/UserRepository.php:43-50 | the new table equals the old one, except that user `id` (if stored) has the patched fields; an unknown id leaves it unchanged |
| `UsersService.MayRegister` | back/users/app/Controllers/UsersController.php:20-41 | an empty store always admits a registration; a non-empty one admits it exactly when the first Authorization value is not PHP-empty (`''` or `'0'`) and the first user holding it (the one `getByToken` returns) is an administrador |
| `UsersService.UsersController.Register` | back/users/app/Controllers/UsersController.php:17-49 | on admission: 201 and exactly one user appended with the payload's columns; otherwise 403 and no user created |
| `UsersService.UsersController.Login` | back/users/app/Controllers/UsersController.php:51-74 | no credential match: 401 and every token unchanged; a match: that user's token becomes the issued token, the response carries it with the user's role and name, and no other user changes |
| `UsersService.UsersController.Logout` | back/users/app/Controllers/UsersController.php:76-84 | the caller's token becomes null and nothing else changes |
| `UsersService.UsersController.ListUsers` | back/users/app/Controllers/UsersController.php:86-101 | 403 exactly for a caller who is not an administrador; otherwise every stored user |
| `UsersService.UsersController.UpdateUser` | back/users/app/Controllers/UsersController.php:103-120 | non-administrador: 403 and no change; administrador: success message even for an unknown id, which changes nothing |
| `AirlineController.DeniedByRole` | back/flights/app/Controllers/AirlineController.php:196-202 | an absent user is denied; otherwise denied exactly when the role differs from every listed role |
| `AirlineController.NoRoleHierarchy` | back/flights/app/Controllers/AirlineController.php:196-202 | an administrador is denied gestor-only operations and a gestor administrador-only ones; the flight listing admits exactly these two roles |
| `AirlineController.FilterFlights` | back/flights/app/Controllers/AirlineController.php:90-105 | the listing holds exactly the stored flights that agree with every applying filter: origin, destination, departure date |
| `AirlineController.FilterFlightsAscending` | back/flights/app/Controllers/AirlineController.php:91-105 | the filtered flights keep the table's id order (the order the model assumes `get()` reads in) |
| `AirlineController.NoFiltersListsAll` | back/flights/app/Controllers/AirlineController.php:93-105 | filters that are absent, `''` or `'0'` are ignored, so no applying filter lists every flight |
| `AirlineController.FilterReservations` | back/flights/app/Controllers/AirlineController.php:169-174 | keeps exactly the reservations of the user the `user_id` filter names, or all of them when the filter does not apply |
| `AirlineController.FilterReservationsAscending` | back/flights/app/Controllers/AirlineController.php:170-174 | the filtered reservations keep the table's id order |
| `AirlineController.ListedReservationsSpec` | back/flights/app/Controllers/AirlineController.php:169-177 | the reservation listing holds exactly the filtered reservations, in strictly descending id order |
| `AirlineController.CancelTouchesOnlyStatus` | back/flights/app/Controllers/AirlineController.php:187-192 | cancelling sets the target's status to `cancelada` whatever it was; its other columns and every other reservation stay; an unknown id changes nothing |
| `AirlineController.CancelIdempotent` | back/flights/app/Controllers/AirlineController.php:192 | cancelling twice leaves the same table as cancelling once |
| `AirlineController.CreateNave` | back/flights/app/Controllers/AirlineController.php:12-23 | denied: 403, table unchanged; otherwise the payload is appended under a fresh id and returned |
| `AirlineController.ListNaves` | back/flights/app/Controllers/AirlineController.php:25-34 | denied: 403; otherwise every aircraft |
| `AirlineController.UpdateNave` | back/flights/app/Controllers/AirlineController.php:36-52 | denied: 403; unknown id: 404; both leave the table unchanged; otherwise only that aircraft's given fields change |
| `AirlineController.DeleteNave` | back/flights/app/Controllers/AirlineController.php:54-68 | denied: 403; unknown id: 404; both leave the table unchanged; otherwise exactly that aircraft is removed |
| `AirlineController.CreateFlight` | back/flights/app/Controllers/AirlineController.php:70-81 | denied: 403, table unchanged; otherwise the payload is appended under a fresh id and returned |
| `AirlineController.ListFlights` | back/flights/app/Controllers/AirlineController.php:83-107 | administrador and gestor get exactly the matching flights, in the table order the model assumes (ascending id); any other caller gets 403 |
| `AirlineController.UpdateFlight` | back/flights/app/Controllers/AirlineController.php:109-125 | denied: 403; unknown id: 404; both leave the table unchanged; otherwise only that flight's given fields change |
| `AirlineController.DeleteFlight` | back/flights/app/Controllers/AirlineController.php:127-141 | denied: 403; unknown id: 404; both leave the table unchanged; otherwise exactly that flight is removed |
| `AirlineController.CreateReservation` | back/flights/app/Controllers/AirlineController.php:143-160 | denied: 403; missing or unknown flight_id: 400 `Vuelo inexistente`; both add nothing. Otherwise 201 and exactly one reservation, owned by the caller whatever user_id the payload sent |
| `AirlineController.ListReservations` | back/flights/app/Controllers/AirlineController.php:162-178 | denied: 403; otherwise exactly the reservations the filter keeps, in strictly descending id order |
| `AirlineController.CancelReservation` | back/flights/app/Controllers/AirlineController.php:180-194 | denied: 403; unknown id: 404; both leave the table unchanged; otherwise only the target's status becomes `cancelada` |
| `FlightsEntry.Authenticate` | back/flights/public/index.php:31-52 | no Authorization value: 401 `Token no provisto`; a token nobody holds: 401 `Token inválido`; a token some user holds always makes the handler run, on the same request with the first user holding that token (the one `getByToken` returns) attached |
| `FlightsEntry.Entry` | back/flights/public/index.php:7-10 | an OPTIONS request gets 200 before authentication or routing; any other request goes through the token middleware |
| `FlightsEntry.HandlerRunsIffTokenKnown` | back/flights/public/index.php:32-51 | a handler runs exactly when the request is not OPTIONS and its first Authorization value, used verbatim, is some user's token |
| `FlightsEntry.LoggedOutUserNeverAttached` | back/flights/public/index.php:41-51 | after a user's logout, no request reaches a handler with that user attached |
| `FlightsEntry.OldTokenRejectedAfterLogout` | back/flights/public/index.php:41-48 | a token held only by the logged-out user gets 401 `Token inválido` afterwards |

## Left out

- `AirlineController.ListFlights`: the ascending id order of the listing is a modelling assumption. `get()` at AirlineController.php:105 has no `orderBy`, and SQL leaves the row order unspecified.
- `UserRepo.UserRepository.GetAll`: returns the table in the model's assumed ascending id order; `User::query()->get()` at UserRepository.php:40 has no `orderBy`.
- `UsersService.UsersController.ListUsers`: lists users in the same assumed order, through `getAll`.
- `AirlineController.ListNaves`: lists aircraft in the same assumed order; `Nave::all()` at AirlineController.php:32 has no `orderBy`.
- `AirlineController.FilterFlightsAscending`: states the same assumed order; it is a property of the model's tables, not a promise of the database.
- `UserRepo.FindByCredentials`: "first" means first in insertion (ascending id) order, which is an assumption. `->first()` without `orderBy` may return any matching row when several match; the model fixes it to the earliest.
- `UserRepo.FindByToken`: relies on the same assumed order when several users match.
- `UserRepo.UserRepository.GetByEmailAndPassword`: relies on the same assumed order when several users match.
- `UserRepo.UserRepository.GetByToken`: relies on the same assumed order when several users match.
- `UsersService.MayRegister`: relies on the same assumed order when several users match.
- `FlightsEntry.Authenticate`: relies on the same assumed order when several users match.
- HTTP routing, the Slim framework, response headers (Content-Type, CORS headers, the `Cors.php` middlewares) and JSON encoding are left out. A response is modelled as a status plus the value that would be encoded.
- The token `Login` issues comes from `random_bytes`, which is a random source. It is the `freshToken` parameter. Its uniqueness and unpredictability are not modelled, so two users may hold equal tokens, and the lookups return the first holder.
- The ORM's mass assignment is not modelled. Payloads and patches are typed records with the columns of each entity. Extra keys (an `id` or `token` in a payload), columns the models refuse, missing required columns and database errors all depend on the models and the schema. Those are not part of this model.
- `reserved_at` and the initial reservation status are not modelled, because the database fills them in.
- Timestamps are not parsed. `whereDate` compares an abstract date component (`DateTime.date`) of the departure.
- `AirlineController.ReservationMatches` compares the `user_id` query string with the decimal text of the stored id. The database's numeric coercion of other spellings (`'07'`, `' 7'`) is not modelled.
- The users service's own entry point, which attaches the caller to the request, is not part of this model. `Logout`, `ListUsers` and `UpdateUser` receive that caller as a user row, so a request that reaches them with no user attached is not modelled.
- `Login` takes the email and password as strings. A body that lacks them, which makes PHP raise a type error, is not modelled. The same goes for a non-numeric `{id}` in `PUT /users/{id}`.
- Concurrency is not modelled: races between a logout and requests that use the same token, and storage transactions. Each handler runs alone.
- The browser dashboard (`front/js`) is not part of this model. Neither are the flights service's unrouted `UsersController.php`, the route tables, or its `UserRepository.php`, whose single `getByToken` is the lookup `UserRepo.FindByToken` models.
