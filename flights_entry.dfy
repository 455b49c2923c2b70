/**
 * The flights service's front door: the CORS preflight short-circuit and
 * the token middleware that runs before every route handler.
 *
 * The middleware is a chain of checks that either answers the request
 * itself or passes it on, with the resolved user attached, to the route's
 * handler; it changes no stored state, so it is modelled as functions.
 */
module FlightsEntry {
  import opened Tables
  import opened Http
  import opened UserRepo
  import AirlineController

  type Body = AirlineController.Body

  const NO_TOKEN := "Token no provisto"
  const BAD_TOKEN := "Token inválido"

  /**
   * What the entry point sees of a request: the HTTP method, the values of
   * its Authorization header in order, and the user attribute (absent until
   * the middleware attaches one).
   */
  datatype Request = Request(httpMethod: string, authorization: seq<string>, user: Option<Row<User>>)

  /** Either the request is answered here, or the handler runs on the given request. */
  datatype Outcome = Respond(response: Response<Body>) | Handle(request: Request)

  /**
   * The token middleware. The token is the first Authorization value used
   * verbatim; no value at all is 401 `Token no provisto`, a token no user
   * holds is 401 `Token inválido`, and otherwise the handler runs with the
   * first user holding that token attached.
   */
  function Authenticate(req: Request, users: seq<Row<User>>): (o: Outcome)
    ensures |req.authorization| == 0 ==> o == Respond(Response(401, AirlineController.ErrorBody(NO_TOKEN)))
    ensures |req.authorization| > 0 && (forall k :: 0 <= k < |users| ==> users[k].attrs.token != Some(req.authorization[0])) ==>
      o == Respond(Response(401, AirlineController.ErrorBody(BAD_TOKEN)))
    ensures |req.authorization| > 0 && (exists k :: 0 <= k < |users| && users[k].attrs.token == Some(req.authorization[0])) ==>
      o.Handle?
    ensures o.Handle? ==>
      |req.authorization| > 0 &&
      o.request.httpMethod == req.httpMethod && o.request.authorization == req.authorization &&
      o.request.user.Some? && o.request.user.value in users &&
      o.request.user.value.attrs.token == Some(req.authorization[0])
    ensures o.Handle? ==>
      exists i :: 0 <= i < |users| && users[i] == o.request.user.value &&
        forall j :: 0 <= j < i ==> users[j].attrs.token != Some(req.authorization[0])
    ensures o.Respond? ==> o.response.status == 401
  {
    var token := if |req.authorization| > 0 then Some(req.authorization[0]) else None;
    if token.None? then
      Respond(Response(401, AirlineController.ErrorBody(NO_TOKEN)))
    else
      match FindByToken(users, token.value)
      case None => Respond(Response(401, AirlineController.ErrorBody(BAD_TOKEN)))
      case Some(user) => Handle(req.(user := Some(user)))
  }

  /**
   * `public/index.php` up to routing: an OPTIONS request is answered 200
   * before authentication or routing; anything else goes through the token
   * middleware.
   */
  function Entry(req: Request, users: seq<Row<User>>): (o: Outcome)
    ensures req.httpMethod == "OPTIONS" ==> o == Respond(Response(200, AirlineController.NoBody))
    ensures req.httpMethod != "OPTIONS" ==> o == Authenticate(req, users)
  {
    if req.httpMethod == "OPTIONS" then Respond(Response(200, AirlineController.NoBody))
    else Authenticate(req, users)
  }

  /**
   * A request reaches its handler exactly when it is not a preflight and its
   * first Authorization value is some user's token.
   */
  lemma HandlerRunsIffTokenKnown(req: Request, users: seq<Row<User>>)
    ensures Entry(req, users).Handle? <==>
      req.httpMethod != "OPTIONS" && |req.authorization| > 0 &&
      exists k :: 0 <= k < |users| && users[k].attrs.token == Some(req.authorization[0])
  {
  }

  /**
   * Once a user has logged out (the token of `id` set to null), no request
   * reaches a handler with that user attached.
   */
  lemma LoggedOutUserNeverAttached(req: Request, users: seq<Row<User>>, id: int)
    requires Ascending(users)
    ensures var o := Entry(req, SetToken(users, id, None));
      o.Handle? ==> o.request.user.value.id != id
  {
  }

  /**
   * A token held only by user `id` stops working at that user's logout:
   * a later request bearing it gets 401 `Token inválido`.
   */
  lemma OldTokenRejectedAfterLogout(req: Request, users: seq<Row<User>>, id: int)
    requires Ascending(users)
    requires req.httpMethod != "OPTIONS" && |req.authorization| > 0
    requires forall k :: 0 <= k < |users| && users[k].attrs.token == Some(req.authorization[0]) ==> users[k].id == id
    ensures Entry(req, SetToken(users, id, None)) == Respond(Response(401, AirlineController.ErrorBody(BAD_TOKEN)))
  {
  }
}
