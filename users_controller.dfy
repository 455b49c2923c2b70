/**
 * The users service's controller: registration with its bootstrap rule,
 * login and logout (issuing and clearing the session token), and the
 * administrator-only listing and update of users.
 *
 * Handlers that need an authenticated caller receive the user that the
 * service's token middleware attached to the request.
 */
module UsersService {
  import opened Tables
  import opened Http
  import opened UserRepo

  const ONLY_ADMINS := "Solo administradores pueden registrar usuarios"
  const BAD_CREDENTIALS := "Credenciales inválidas"
  const DENIED := "Acceso denegado"
  const LOGGED_OUT := "Sesión cerrada correctamente"
  const USER_UPDATED := "Usuario actualizado correctamente"

  /** The JSON values the users service answers with. */
  datatype Body =
    | ErrorBody(error: string)
    | MessageBody(message: string)
    | UserJson(user: Row<User>)
    | UsersJson(users: seq<Row<User>>)
    | LoginJson(token: string, role: string, name: string)

  /**
   * Whether `register` goes on to create the user: always while the table
   * is empty; otherwise only when the first Authorization header value is a
   * non-empty token that the first user holding it, an administrador, holds.
   */
  function MayRegister(users: seq<Row<User>>, authorization: seq<string>): (r: bool)
    ensures |users| == 0 ==> r
    ensures |users| > 0 && (|authorization| == 0 || PhpEmpty(authorization[0])) ==> !r
    ensures |users| > 0 ==>
      (r <==>
        |authorization| > 0 && !PhpEmpty(authorization[0]) &&
        exists k :: 0 <= k < |users| && users[k].attrs.token == Some(authorization[0]) && users[k].attrs.role == ADMIN &&
          forall j :: 0 <= j < k ==> users[j].attrs.token != Some(authorization[0]))
  {
    |users| == 0 ||
    (|authorization| > 0 && !PhpEmpty(authorization[0]) &&
     match FindByToken(users, authorization[0])
     case None => false
     case Some(current) => current.attrs.role == ADMIN)
  }

  class UsersController {
    const userRepo: UserRepository

    ghost predicate Valid()
      reads this, userRepo, userRepo.users
    {
      userRepo.Valid()
    }

    constructor (repo: UserRepository)
      requires repo.Valid()
      ensures Valid() && userRepo == repo
    {
      userRepo := repo;
    }

    /**
     * POST /register. The first user is created without any token; after
     * that only an administrador's token lets a registration through.
     */
    method Register(payload: UserPayload, authorization: seq<string>) returns (resp: Response<Body>)
      requires Valid()
      modifies userRepo.users
      ensures Valid()
      ensures !MayRegister(old(userRepo.users.rows), authorization) ==>
        resp == Response(403, ErrorBody(ONLY_ADMINS)) && userRepo.users.rows == old(userRepo.users.rows)
      ensures MayRegister(old(userRepo.users.rows), authorization) ==>
        resp.status == 201 && resp.body.UserJson? &&
        resp.body.user.attrs == User(payload.name, payload.email, payload.password, payload.role, None) &&
        userRepo.users.rows == old(userRepo.users.rows) + [resp.body.user]
    {
      var users := userRepo.GetAll();
      if |users| > 0 {
        var token := if |authorization| > 0 then Some(authorization[0]) else None;
        if token.None? || PhpEmpty(token.value) {
          return Response(403, ErrorBody(ONLY_ADMINS));
        }
        var currentUser := userRepo.GetByToken(token.value);
        if currentUser.None? || currentUser.value.attrs.role != ADMIN {
          return Response(403, ErrorBody(ONLY_ADMINS));
        }
      }
      var created := userRepo.Create(payload);
      resp := Response(201, UserJson(created));
    }

    /**
     * POST /login. `freshToken` stands for the random token the service
     * draws. On a credential match it becomes that user's stored token and
     * is returned with the user's role and name; otherwise 401 and no token
     * changes.
     */
    method Login(email: string, password: string, freshToken: string) returns (resp: Response<Body>)
      requires Valid()
      modifies userRepo.users
      ensures Valid()
      ensures FindByCredentials(old(userRepo.users.rows), email, password).None? ==>
        resp == Response(401, ErrorBody(BAD_CREDENTIALS)) && userRepo.users.rows == old(userRepo.users.rows)
      ensures FindByCredentials(old(userRepo.users.rows), email, password).Some? ==>
        var user := FindByCredentials(old(userRepo.users.rows), email, password).value;
        resp == Response(200, LoginJson(freshToken, user.attrs.role, user.attrs.name)) &&
        userRepo.users.rows == SetToken(old(userRepo.users.rows), user.id, Some(freshToken)) &&
        |userRepo.users.rows| == |old(userRepo.users.rows)| &&
        forall k :: 0 <= k < |userRepo.users.rows| ==>
          userRepo.users.rows[k] == if old(userRepo.users.rows)[k].id == user.id
                                    then Row(user.id, old(userRepo.users.rows)[k].attrs.(token := Some(freshToken)))
                                    else old(userRepo.users.rows)[k]
    {
      var user := userRepo.GetByEmailAndPassword(email, password);
      if user.None? {
        return Response(401, ErrorBody(BAD_CREDENTIALS));
      }
      userRepo.UpdateToken(user.value.id, Some(freshToken));
      resp := Response(200, LoginJson(freshToken, user.value.attrs.role, user.value.attrs.name));
    }

    /** POST /logout: clears the caller's stored token; every other column and user is unchanged. */
    method Logout(caller: Row<User>) returns (resp: Response<Body>)
      requires Valid()
      modifies userRepo.users
      ensures Valid()
      ensures resp == Response(200, MessageBody(LOGGED_OUT))
      ensures userRepo.users.rows == SetToken(old(userRepo.users.rows), caller.id, None)
      ensures |userRepo.users.rows| == |old(userRepo.users.rows)|
      ensures forall k :: 0 <= k < |userRepo.users.rows| ==>
        userRepo.users.rows[k] == if old(userRepo.users.rows)[k].id == caller.id
                                  then Row(caller.id, old(userRepo.users.rows)[k].attrs.(token := None))
                                  else old(userRepo.users.rows)[k]
    {
      userRepo.UpdateToken(caller.id, None);
      resp := Response(200, MessageBody(LOGGED_OUT));
    }

    /** GET /users: every stored user for an administrador, 403 for anyone else. */
    method ListUsers(caller: Row<User>) returns (resp: Response<Body>)
      ensures caller.attrs.role != ADMIN <==> resp.status == 403
      ensures caller.attrs.role != ADMIN ==> resp.body == ErrorBody(DENIED)
      ensures caller.attrs.role == ADMIN ==> resp.status == 200 && resp.body == UsersJson(userRepo.users.rows)
    {
      if caller.attrs.role != ADMIN {
        return Response(403, ErrorBody(DENIED));
      }
      var users := userRepo.GetAll();
      resp := Response(200, UsersJson(users));
    }

    /**
     * PUT /users/{id}: an administrador overwrites the given fields of user
     * `id`. An id that matches no user changes nothing and still reports
     * success; anyone else gets 403 and nothing changes.
     */
    method UpdateUser(caller: Row<User>, id: int, payload: UserPatch) returns (resp: Response<Body>)
      requires Valid()
      modifies userRepo.users
      ensures Valid()
      ensures caller.attrs.role != ADMIN ==>
        resp == Response(403, ErrorBody(DENIED)) && userRepo.users.rows == old(userRepo.users.rows)
      ensures caller.attrs.role == ADMIN ==>
        resp == Response(200, MessageBody(USER_UPDATED)) &&
        userRepo.users.rows == PatchUser(old(userRepo.users.rows), id, payload)
      ensures caller.attrs.role == ADMIN && FindRow(old(userRepo.users.rows), id).None? ==>
        userRepo.users.rows == old(userRepo.users.rows)
    {
      if caller.attrs.role != ADMIN {
        return Response(403, ErrorBody(DENIED));
      }
      userRepo.Update(id, payload);
      resp := Response(200, MessageBody(USER_UPDATED));
    }
  }
}
