/**
 * The flights service's controller: aircraft ("naves") and flights, gated
 * to the administrador role (flight listing also to gestor), and the
 * reservation lifecycle, gated to the gestor role.
 *
 * Each handler receives the user the token middleware attached to the
 * request (absent when none was attached) and the tables it works on. A
 * handler that writes names only the table it writes in its `modifies`
 * clause, so every other table keeps its state.
 */
module AirlineController {
  import opened Tables
  import opened Http
  import opened UserRepo

  const CANCELADA := "cancelada"

  const FORBIDDEN: Response<Body> := Response(403, ErrorBody("Acceso denegado"))
  const NOT_FOUND: Response<Body> := Response(404, ErrorBody("Recurso no encontrado"))
  const NO_SUCH_FLIGHT: Response<Body> := Response(400, ErrorBody("Vuelo inexistente"))

  /** An aircraft's columns. */
  datatype Nave = Nave(name: string, model: string, capacity: int)

  /** A partial update of an aircraft: every present field overwrites the stored one. */
  datatype NavePatch = NavePatch(name: Option<string>, model: Option<string>, capacity: Option<int>)

  /** A stored timestamp, split into the calendar day `whereDate` compares and the rest. */
  datatype DateTime = DateTime(date: string, time: string)

  /**
   * A flight's columns. `naveId` is not checked against the naves table;
   * the price is a decimal kept as the text it was given as.
   */
  datatype Flight = Flight(naveId: int, origin: string, destination: string,
                           departure: DateTime, arrival: DateTime, price: string)

  datatype FlightPatch = FlightPatch(naveId: Option<int>, origin: Option<string>, destination: Option<string>,
                                     departure: Option<DateTime>, arrival: Option<DateTime>, price: Option<string>)

  /**
   * A reservation's columns. `status` is None until something writes it:
   * its initial value is a database default outside this model.
   */
  datatype Reservation = Reservation(userId: int, flightId: int, status: Option<string>)

  /** The body of POST /reservations; `userId` is whatever the client sent. */
  datatype ReservationPayload = ReservationPayload(userId: Option<int>, flightId: Option<int>, status: Option<string>)

  /** The query string of GET /flights. */
  datatype FlightFilters = FlightFilters(origin: Option<string>, destination: Option<string>, date: Option<string>)

  /** The JSON values the flights service answers with. */
  datatype Body =
    | ErrorBody(error: string)
    | MessageBody(message: string)
    | NaveJson(nave: Row<Nave>)
    | NavesJson(naves: seq<Row<Nave>>)
    | FlightJson(flight: Row<Flight>)
    | FlightsJson(flights: seq<Row<Flight>>)
    | ReservationJson(reservation: Row<Reservation>)
    | ReservationsJson(reservations: seq<Row<Reservation>>)
    | NoBody

  /**
   * `deniedByRole`: an absent user is always denied; otherwise the user is
   * denied exactly when its role is not strictly equal to one of `roles`.
   */
  function DeniedByRole(user: Option<Row<User>>, roles: seq<string>): (r: bool)
    ensures user.None? ==> r
    ensures user.Some? ==> (r <==> forall i :: 0 <= i < |roles| ==> roles[i] != user.value.attrs.role)
  {
    user.None? || user.value.attrs.role !in roles
  }

  /**
   * Roles form no hierarchy: an administrador is denied gestor-only
   * operations and a gestor administrador-only ones, while flight listing
   * lets both through and no other role.
   */
  lemma NoRoleHierarchy(u: Row<User>)
    ensures u.attrs.role == ADMIN ==> DeniedByRole(Some(u), [GESTOR])
    ensures u.attrs.role == GESTOR ==> DeniedByRole(Some(u), [ADMIN])
    ensures !DeniedByRole(Some(u), [ADMIN, GESTOR]) <==> u.attrs.role == ADMIN || u.attrs.role == GESTOR
  {
  }

  /** A query parameter takes part in the query only when present and not PHP-empty. */
  predicate Applies(param: Option<string>)
  {
    param.Some? && !PhpEmpty(param.value)
  }

  /** A flight passes the listing's `where` chain: it agrees with every filter that applies. */
  predicate FlightMatches(f: Flight, q: FlightFilters)
  {
    (Applies(q.origin) ==> f.origin == q.origin.value) &&
    (Applies(q.destination) ==> f.destination == q.destination.value) &&
    (Applies(q.date) ==> f.departure.date == q.date.value)
  }

  /** The flights `listFlights` returns: those that match every filter that applies, in table order. */
  function FilterFlights(t: seq<Row<Flight>>, q: FlightFilters): (r: seq<Row<Flight>>)
    ensures forall k :: 0 <= k < |r| ==> r[k] in t && FlightMatches(r[k].attrs, q)
    ensures forall k :: 0 <= k < |t| && FlightMatches(t[k].attrs, q) ==> t[k] in r
    ensures |r| <= |t|
  {
    if t == [] then []
    else if FlightMatches(t[0].attrs, q) then [t[0]] + FilterFlights(t[1..], q)
    else FilterFlights(t[1..], q)
  }

  /** Filtering keeps the table's id order. */
  lemma {:induction false} FilterFlightsAscending(t: seq<Row<Flight>>, q: FlightFilters)
    requires Ascending(t)
    ensures Ascending(FilterFlights(t, q))
  {
    if t != [] {
      FilterFlightsAscending(t[1..], q);
      var rest := FilterFlights(t[1..], q);
      forall k | 0 <= k < |rest|
        ensures t[0].id < rest[k].id
      {
        assert rest[k] in t[1..];
      }
      if FlightMatches(t[0].attrs, q) {
        ConsAscending(t[0], rest);
      }
    }
  }

  /** Absent and empty filters are ignored: with none that applies, every flight is listed, in order. */
  lemma {:induction false} NoFiltersListsAll(t: seq<Row<Flight>>, q: FlightFilters)
    requires !Applies(q.origin) && !Applies(q.destination) && !Applies(q.date)
    ensures FilterFlights(t, q) == t
  {
    if t != [] {
      NoFiltersListsAll(t[1..], q);
      assert [t[0]] + t[1..] == t;
    }
  }

  /** Decimal text of an id, as a `user_id` query parameter spells it. */
  function DecimalText(n: int): string
    decreases if n < 0 then 1 - n else n
  {
    if n < 0 then "-" + DecimalText(-n)
    else if n < 10 then ["0123456789"[n]]
    else DecimalText(n / 10) + ["0123456789"[n % 10]]
  }

  /** A reservation passes the listing's filter: no `user_id` filter applies, or it names the reservation's user. */
  predicate ReservationMatches(r: Reservation, userIdFilter: Option<string>)
  {
    Applies(userIdFilter) ==> DecimalText(r.userId) == userIdFilter.value
  }

  /** The reservations the `user_id` filter keeps, in table order. */
  function FilterReservations(t: seq<Row<Reservation>>, userIdFilter: Option<string>): (r: seq<Row<Reservation>>)
    ensures forall k :: 0 <= k < |r| ==> r[k] in t && ReservationMatches(r[k].attrs, userIdFilter)
    ensures forall k :: 0 <= k < |t| && ReservationMatches(t[k].attrs, userIdFilter) ==> t[k] in r
  {
    if t == [] then []
    else if ReservationMatches(t[0].attrs, userIdFilter) then [t[0]] + FilterReservations(t[1..], userIdFilter)
    else FilterReservations(t[1..], userIdFilter)
  }

  /** Filtering keeps the table's id order. */
  lemma {:induction false} FilterReservationsAscending(t: seq<Row<Reservation>>, userIdFilter: Option<string>)
    requires Ascending(t)
    ensures Ascending(FilterReservations(t, userIdFilter))
  {
    if t != [] {
      FilterReservationsAscending(t[1..], userIdFilter);
      var rest := FilterReservations(t[1..], userIdFilter);
      forall k | 0 <= k < |rest|
        ensures t[0].id < rest[k].id
      {
        assert rest[k] in t[1..];
      }
      if ReservationMatches(t[0].attrs, userIdFilter) {
        ConsAscending(t[0], rest);
      }
    }
  }

  /** The reservation listing: the kept reservations, newest (highest id) first. */
  function ListedReservations(t: seq<Row<Reservation>>, userIdFilter: Option<string>): seq<Row<Reservation>>
  {
    Reversed(FilterReservations(t, userIdFilter))
  }

  /**
   * The listing holds exactly the reservations that pass the filter, in
   * strictly descending id order.
   */
  lemma ListedReservationsSpec(t: seq<Row<Reservation>>, userIdFilter: Option<string>)
    requires Ascending(t)
    ensures Descending(ListedReservations(t, userIdFilter))
    ensures forall x :: x in ListedReservations(t, userIdFilter) <==> x in t && ReservationMatches(x.attrs, userIdFilter)
  {
    var kept := FilterReservations(t, userIdFilter);
    FilterReservationsAscending(t, userIdFilter);
    ReversedDescending(kept);
    forall x | x in t && ReservationMatches(x.attrs, userIdFilter)
      ensures x in kept
    {
      var k :| 0 <= k < |t| && t[k] == x;
    }
  }

  /** The table after `cancelReservation(id)`: the status of reservation `id`, if stored, is overwritten. */
  function CancelIn(t: seq<Row<Reservation>>, id: int): seq<Row<Reservation>>
  {
    match FindRow(t, id)
    case None => t
    case Some(row) => Replace(t, id, row.attrs.(status := Some(CANCELADA)))
  }

  /**
   * Cancelling overwrites one field of one record, whatever it held: the
   * target's status becomes `cancelada`, its other columns and every other
   * reservation stay; an unknown id changes nothing.
   */
  lemma CancelTouchesOnlyStatus(t: seq<Row<Reservation>>, id: int)
    requires Ascending(t)
    ensures |CancelIn(t, id)| == |t|
    ensures forall k :: 0 <= k < |t| && t[k].id != id ==> CancelIn(t, id)[k] == t[k]
    ensures forall k :: 0 <= k < |t| && t[k].id == id ==>
      CancelIn(t, id)[k] == Row(id, t[k].attrs.(status := Some(CANCELADA)))
    ensures FindRow(t, id).None? ==> CancelIn(t, id) == t
  {
  }

  /** Cancelling twice leaves the same table as cancelling once. */
  lemma CancelIdempotent(t: seq<Row<Reservation>>, id: int)
    requires Ascending(t)
    ensures CancelIn(CancelIn(t, id), id) == CancelIn(t, id)
  {
  }

  /** The columns of `n` after `$nave->update($patch)`. */
  function PatchedNave(n: Nave, p: NavePatch): Nave
  {
    Nave(if p.name.Some? then p.name.value else n.name,
         if p.model.Some? then p.model.value else n.model,
         if p.capacity.Some? then p.capacity.value else n.capacity)
  }

  /** The columns of `f` after `$flight->update($patch)`. */
  function PatchedFlight(f: Flight, p: FlightPatch): Flight
  {
    Flight(if p.naveId.Some? then p.naveId.value else f.naveId,
           if p.origin.Some? then p.origin.value else f.origin,
           if p.destination.Some? then p.destination.value else f.destination,
           if p.departure.Some? then p.departure.value else f.departure,
           if p.arrival.Some? then p.arrival.value else f.arrival,
           if p.price.Some? then p.price.value else f.price)
  }

  /** POST /naves: an administrador stores the payload as a new aircraft under a fresh id. */
  method CreateNave(naves: Table<Nave>, user: Option<Row<User>>, payload: Nave) returns (resp: Response<Body>)
    requires naves.Valid()
    modifies naves
    ensures naves.Valid()
    ensures DeniedByRole(user, [ADMIN]) ==> resp == FORBIDDEN && unchanged(naves)
    ensures !DeniedByRole(user, [ADMIN]) ==>
      resp.status == 200 && resp.body.NaveJson? && resp.body.nave.attrs == payload &&
      FindRow(old(naves.rows), resp.body.nave.id).None? &&
      naves.rows == old(naves.rows) + [resp.body.nave]
  {
    if DeniedByRole(user, [ADMIN]) {
      return FORBIDDEN;
    }
    var nave := naves.Create(payload);
    resp := Response(200, NaveJson(nave));
  }

  /** GET /naves: every aircraft, for an administrador only. */
  method ListNaves(naves: Table<Nave>, user: Option<Row<User>>) returns (resp: Response<Body>)
    ensures DeniedByRole(user, [ADMIN]) ==> resp == FORBIDDEN
    ensures !DeniedByRole(user, [ADMIN]) ==> resp == Response(200, NavesJson(naves.rows))
  {
    if DeniedByRole(user, [ADMIN]) {
      return FORBIDDEN;
    }
    resp := Response(200, NavesJson(naves.rows));
  }

  /**
   * PUT /naves/{id}: an unknown id is 404 and changes nothing; otherwise
   * the present fields of that one aircraft are overwritten.
   */
  method UpdateNave(naves: Table<Nave>, user: Option<Row<User>>, id: int, patch: NavePatch) returns (resp: Response<Body>)
    requires naves.Valid()
    modifies naves
    ensures naves.Valid()
    ensures DeniedByRole(user, [ADMIN]) ==> resp == FORBIDDEN && unchanged(naves)
    ensures !DeniedByRole(user, [ADMIN]) && FindRow(old(naves.rows), id).None? ==> resp == NOT_FOUND && unchanged(naves)
    ensures !DeniedByRole(user, [ADMIN]) && FindRow(old(naves.rows), id).Some? ==>
      resp == Response(200, MessageBody("Nave actualizada")) &&
      |naves.rows| == |old(naves.rows)| &&
      forall k :: 0 <= k < |naves.rows| ==>
        naves.rows[k] == if old(naves.rows)[k].id == id
                         then Row(id, PatchedNave(old(naves.rows)[k].attrs, patch))
                         else old(naves.rows)[k]
  {
    if DeniedByRole(user, [ADMIN]) {
      return FORBIDDEN;
    }
    var nave := FindRow(naves.rows, id);
    if nave.None? {
      return NOT_FOUND;
    }
    FoundRowIsOnly(naves.rows, id);
    naves.Save(id, PatchedNave(nave.value.attrs, patch));
    resp := Response(200, MessageBody("Nave actualizada"));
  }

  /**
   * DELETE /naves/{id}: an unknown id is 404 and changes nothing; otherwise
   * exactly that aircraft leaves the table.
   */
  method DeleteNave(naves: Table<Nave>, user: Option<Row<User>>, id: int) returns (resp: Response<Body>)
    requires naves.Valid()
    modifies naves
    ensures naves.Valid()
    ensures DeniedByRole(user, [ADMIN]) ==> resp == FORBIDDEN && unchanged(naves)
    ensures !DeniedByRole(user, [ADMIN]) && FindRow(old(naves.rows), id).None? ==> resp == NOT_FOUND && unchanged(naves)
    ensures !DeniedByRole(user, [ADMIN]) && FindRow(old(naves.rows), id).Some? ==>
      resp == Response(200, MessageBody("Nave eliminada")) &&
      naves.rows == Remove(old(naves.rows), id) &&
      |naves.rows| == |old(naves.rows)| - 1
  {
    if DeniedByRole(user, [ADMIN]) {
      return FORBIDDEN;
    }
    var nave := FindRow(naves.rows, id);
    if nave.None? {
      return NOT_FOUND;
    }
    RemoveAscending(naves.rows, id);
    naves.Delete(id);
    resp := Response(200, MessageBody("Nave eliminada"));
  }

  /** POST /flights: an administrador stores the payload as a new flight under a fresh id. */
  method CreateFlight(flights: Table<Flight>, user: Option<Row<User>>, payload: Flight) returns (resp: Response<Body>)
    requires flights.Valid()
    modifies flights
    ensures flights.Valid()
    ensures DeniedByRole(user, [ADMIN]) ==> resp == FORBIDDEN && unchanged(flights)
    ensures !DeniedByRole(user, [ADMIN]) ==>
      resp.status == 200 && resp.body.FlightJson? && resp.body.flight.attrs == payload &&
      FindRow(old(flights.rows), resp.body.flight.id).None? &&
      flights.rows == old(flights.rows) + [resp.body.flight]
  {
    if DeniedByRole(user, [ADMIN]) {
      return FORBIDDEN;
    }
    var flight := flights.Create(payload);
    resp := Response(200, FlightJson(flight));
  }

  /**
   * GET /flights: for an administrador or a gestor, exactly the flights
   * that match every filter that applies, in id order.
   */
  method ListFlights(flights: Table<Flight>, user: Option<Row<User>>, filters: FlightFilters) returns (resp: Response<Body>)
    requires flights.Valid()
    ensures DeniedByRole(user, [ADMIN, GESTOR]) ==> resp == FORBIDDEN
    ensures !DeniedByRole(user, [ADMIN, GESTOR]) ==>
      resp.status == 200 && resp.body.FlightsJson? &&
      Ascending(resp.body.flights) &&
      (forall k :: 0 <= k < |resp.body.flights| ==>
        resp.body.flights[k] in flights.rows && FlightMatches(resp.body.flights[k].attrs, filters)) &&
      (forall k :: 0 <= k < |flights.rows| && FlightMatches(flights.rows[k].attrs, filters) ==>
        flights.rows[k] in resp.body.flights)
  {
    if DeniedByRole(user, [ADMIN, GESTOR]) {
      return FORBIDDEN;
    }
    FilterFlightsAscending(flights.rows, filters);
    resp := Response(200, FlightsJson(FilterFlights(flights.rows, filters)));
  }

  /**
   * PUT /flights/{id}: an unknown id is 404 and changes nothing; otherwise
   * the present fields of that one flight are overwritten.
   */
  method UpdateFlight(flights: Table<Flight>, user: Option<Row<User>>, id: int, patch: FlightPatch) returns (resp: Response<Body>)
    requires flights.Valid()
    modifies flights
    ensures flights.Valid()
    ensures DeniedByRole(user, [ADMIN]) ==> resp == FORBIDDEN && unchanged(flights)
    ensures !DeniedByRole(user, [ADMIN]) && FindRow(old(flights.rows), id).None? ==> resp == NOT_FOUND && unchanged(flights)
    ensures !DeniedByRole(user, [ADMIN]) && FindRow(old(flights.rows), id).Some? ==>
      resp == Response(200, MessageBody("Vuelo actualizado")) &&
      |flights.rows| == |old(flights.rows)| &&
      forall k :: 0 <= k < |flights.rows| ==>
        flights.rows[k] == if old(flights.rows)[k].id == id
                           then Row(id, PatchedFlight(old(flights.rows)[k].attrs, patch))
                           else old(flights.rows)[k]
  {
    if DeniedByRole(user, [ADMIN]) {
      return FORBIDDEN;
    }
    var flight := FindRow(flights.rows, id);
    if flight.None? {
      return NOT_FOUND;
    }
    FoundRowIsOnly(flights.rows, id);
    flights.Save(id, PatchedFlight(flight.value.attrs, patch));
    resp := Response(200, MessageBody("Vuelo actualizado"));
  }

  /**
   * DELETE /flights/{id}: an unknown id is 404 and changes nothing;
   * otherwise exactly that flight leaves the table.
   */
  method DeleteFlight(flights: Table<Flight>, user: Option<Row<User>>, id: int) returns (resp: Response<Body>)
    requires flights.Valid()
    modifies flights
    ensures flights.Valid()
    ensures DeniedByRole(user, [ADMIN]) ==> resp == FORBIDDEN && unchanged(flights)
    ensures !DeniedByRole(user, [ADMIN]) && FindRow(old(flights.rows), id).None? ==> resp == NOT_FOUND && unchanged(flights)
    ensures !DeniedByRole(user, [ADMIN]) && FindRow(old(flights.rows), id).Some? ==>
      resp == Response(200, MessageBody("Vuelo eliminado")) &&
      flights.rows == Remove(old(flights.rows), id) &&
      |flights.rows| == |old(flights.rows)| - 1
  {
    if DeniedByRole(user, [ADMIN]) {
      return FORBIDDEN;
    }
    var flight := FindRow(flights.rows, id);
    if flight.None? {
      return NOT_FOUND;
    }
    RemoveAscending(flights.rows, id);
    flights.Delete(id);
    resp := Response(200, MessageBody("Vuelo eliminado"));
  }

  /**
   * POST /reservations: a gestor books a stored flight. The reservation is
   * always recorded under the caller's id, whatever `user_id` the payload
   * carried; a missing or unknown `flight_id` is 400 and books nothing.
   */
  method CreateReservation(flights: Table<Flight>, reservations: Table<Reservation>,
                           user: Option<Row<User>>, payload: ReservationPayload) returns (resp: Response<Body>)
    requires reservations.Valid()
    modifies reservations
    ensures reservations.Valid()
    ensures DeniedByRole(user, [GESTOR]) ==> resp == FORBIDDEN && unchanged(reservations)
    ensures (!DeniedByRole(user, [GESTOR]) &&
             (payload.flightId.None? || FindRow(flights.rows, payload.flightId.value).None?)) ==>
      resp == NO_SUCH_FLIGHT && unchanged(reservations)
    ensures (!DeniedByRole(user, [GESTOR]) &&
             payload.flightId.Some? && FindRow(flights.rows, payload.flightId.value).Some?) ==>
      resp.status == 201 && resp.body.ReservationJson? &&
      resp.body.reservation.attrs == Reservation(user.value.id, payload.flightId.value, payload.status) &&
      FindRow(old(reservations.rows), resp.body.reservation.id).None? &&
      reservations.rows == old(reservations.rows) + [resp.body.reservation]
  {
    if DeniedByRole(user, [GESTOR]) {
      return FORBIDDEN;
    }
    var data := payload.(userId := Some(user.value.id));
    var flight := if data.flightId.Some? then FindRow(flights.rows, data.flightId.value) else None;
    if flight.None? {
      return NO_SUCH_FLIGHT;
    }
    var reservation := reservations.Create(Reservation(data.userId.value, data.flightId.value, data.status));
    resp := Response(201, ReservationJson(reservation));
  }

  /**
   * GET /reservations: for a gestor, the reservations of the user named by
   * a `user_id` filter that applies (all of them otherwise), newest first.
   */
  method ListReservations(reservations: Table<Reservation>, user: Option<Row<User>>,
                          userIdFilter: Option<string>) returns (resp: Response<Body>)
    requires reservations.Valid()
    ensures DeniedByRole(user, [GESTOR]) ==> resp == FORBIDDEN
    ensures !DeniedByRole(user, [GESTOR]) ==>
      resp.status == 200 && resp.body.ReservationsJson? &&
      Descending(resp.body.reservations) &&
      (forall x :: x in resp.body.reservations <==>
        x in reservations.rows && ReservationMatches(x.attrs, userIdFilter))
  {
    if DeniedByRole(user, [GESTOR]) {
      return FORBIDDEN;
    }
    ListedReservationsSpec(reservations.rows, userIdFilter);
    resp := Response(200, ReservationsJson(ListedReservations(reservations.rows, userIdFilter)));
  }

  /**
   * PUT /reservations/{id}/cancel: an unknown id is 404 and changes
   * nothing; otherwise the status of that one reservation becomes
   * `cancelada`, whatever it was.
   */
  method CancelReservation(reservations: Table<Reservation>, user: Option<Row<User>>, id: int) returns (resp: Response<Body>)
    requires reservations.Valid()
    modifies reservations
    ensures reservations.Valid()
    ensures DeniedByRole(user, [GESTOR]) ==> resp == FORBIDDEN && unchanged(reservations)
    ensures !DeniedByRole(user, [GESTOR]) && FindRow(old(reservations.rows), id).None? ==>
      resp == NOT_FOUND && unchanged(reservations)
    ensures !DeniedByRole(user, [GESTOR]) && FindRow(old(reservations.rows), id).Some? ==>
      resp == Response(200, MessageBody("Reserva cancelada")) &&
      reservations.rows == CancelIn(old(reservations.rows), id) &&
      |reservations.rows| == |old(reservations.rows)| &&
      forall k :: 0 <= k < |reservations.rows| ==>
        reservations.rows[k] == if old(reservations.rows)[k].id == id
                                then Row(id, old(reservations.rows)[k].attrs.(status := Some(CANCELADA)))
                                else old(reservations.rows)[k]
  {
    if DeniedByRole(user, [GESTOR]) {
      return FORBIDDEN;
    }
    var reservation := FindRow(reservations.rows, id);
    if reservation.None? {
      return NOT_FOUND;
    }
    CancelTouchesOnlyStatus(reservations.rows, id);
    reservations.Save(id, reservation.value.attrs.(status := Some(CANCELADA)));
    resp := Response(200, MessageBody("Reserva cancelada"));
  }
}
