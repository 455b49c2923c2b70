/**
 * The users service's repository over the `users` table: exact-match
 * lookups by credentials and by token, and the writes that create a user,
 * set or clear a user's session token, and overwrite a user's fields.
 */
module UserRepo {
  import opened Tables

  /**
   * A user's columns. The password is an opaque credential compared as
   * stored; `token` is null until the first login and after a logout.
   */
  datatype User = User(name: string, email: string, password: string, role: string, token: Option<string>)

  /** The two role values the services check for, compared as exact strings. */
  const ADMIN := "administrador"
  const GESTOR := "gestor"

  /** The columns a registration supplies. */
  datatype UserPayload = UserPayload(name: string, email: string, password: string, role: string)

  /** A partial update: every present field overwrites the stored one. */
  datatype UserPatch = UserPatch(name: Option<string>, email: Option<string>, password: Option<string>, role: Option<string>)

  /** The two `where` chains the repository runs against the table. */
  datatype UserQuery = ByCredentials(email: string, password: string) | ByToken(token: string)

  predicate Matches(u: User, q: UserQuery)
  {
    match q
    case ByCredentials(email, password) => u.email == email && u.password == password
    case ByToken(token) => u.token == Some(token)
  }

  /** Position of `->first()` for a query: the earliest matching row, if any. */
  function FirstIndex(users: seq<Row<User>>, q: UserQuery): (r: Option<nat>)
    ensures r.Some? ==> r.value < |users| && Matches(users[r.value].attrs, q)
    ensures r.Some? ==> forall j :: 0 <= j < r.value ==> !Matches(users[j].attrs, q)
    ensures r.None? <==> forall j :: 0 <= j < |users| ==> !Matches(users[j].attrs, q)
  {
    if users == [] then None
    else if Matches(users[0].attrs, q) then Some(0)
    else
      match FirstIndex(users[1..], q)
      case None =>
        assert forall j :: 1 <= j < |users| ==> users[j] == users[1..][j - 1];
        None
      case Some(i) =>
        assert forall j :: 1 <= j < i + 1 ==> users[j] == users[1..][j - 1];
        Some(i + 1)
  }

  /** `getByEmailAndPassword`: the first user whose email and password both equal the arguments. */
  function FindByCredentials(users: seq<Row<User>>, email: string, password: string): (r: Option<Row<User>>)
    ensures r.Some? ==> r.value in users && r.value.attrs.email == email && r.value.attrs.password == password
    ensures r.Some? ==>
      exists i :: 0 <= i < |users| && users[i] == r.value &&
        forall j :: 0 <= j < i ==> !(users[j].attrs.email == email && users[j].attrs.password == password)
    ensures r.None? <==> forall j :: 0 <= j < |users| ==> !(users[j].attrs.email == email && users[j].attrs.password == password)
  {
    match FirstIndex(users, ByCredentials(email, password))
    case None => None
    case Some(i) => Some(users[i])
  }

  /** `getByToken`: the first user whose stored token equals the argument exactly. */
  function FindByToken(users: seq<Row<User>>, token: string): (r: Option<Row<User>>)
    ensures r.Some? ==> r.value in users && r.value.attrs.token == Some(token)
    ensures r.Some? ==>
      exists i :: 0 <= i < |users| && users[i] == r.value &&
        forall j :: 0 <= j < i ==> users[j].attrs.token != Some(token)
    ensures r.None? <==> forall j :: 0 <= j < |users| ==> users[j].attrs.token != Some(token)
  {
    match FirstIndex(users, ByToken(token))
    case None => None
    case Some(i) => Some(users[i])
  }

  /** The table after `updateToken(id, token)`: find the user, assign the token, save. */
  function SetToken(users: seq<Row<User>>, id: int, token: Option<string>): seq<Row<User>>
  {
    match FindRow(users, id)
    case None => users
    case Some(row) => Replace(users, id, row.attrs.(token := token))
  }

  /** The columns of `u` after `$user->update($patch)`. */
  function Patched(u: User, p: UserPatch): User
  {
    u.(name := if p.name.Some? then p.name.value else u.name,
       email := if p.email.Some? then p.email.value else u.email,
       password := if p.password.Some? then p.password.value else u.password,
       role := if p.role.Some? then p.role.value else u.role)
  }

  /** The table after `update(id, patch)`: overwrite the user's fields only when the user exists. */
  function PatchUser(users: seq<Row<User>>, id: int, p: UserPatch): seq<Row<User>>
  {
    match FindRow(users, id)
    case None => users
    case Some(row) => Replace(users, id, Patched(row.attrs, p))
  }

  /**
   * `updateToken` touches one field of one record: the user keyed `id`
   * gets the new token and keeps every other column; every other user is
   * unchanged; an unknown id leaves the table as it was.
   */
  lemma SetTokenTouchesOnlyToken(users: seq<Row<User>>, id: int, token: Option<string>)
    requires Ascending(users)
    ensures |SetToken(users, id, token)| == |users|
    ensures forall k :: 0 <= k < |users| && users[k].id != id ==> SetToken(users, id, token)[k] == users[k]
    ensures forall k :: 0 <= k < |users| && users[k].id == id ==>
      SetToken(users, id, token)[k] == Row(id, users[k].attrs.(token := token))
    ensures FindRow(users, id).None? ==> SetToken(users, id, token) == users
  {
  }

  /**
   * `update` overwrites the present fields of the user keyed `id` and
   * nothing else; an unknown id is a no-op.
   */
  lemma PatchUserTouchesOnlyTarget(users: seq<Row<User>>, id: int, p: UserPatch)
    requires Ascending(users)
    ensures |PatchUser(users, id, p)| == |users|
    ensures forall k :: 0 <= k < |users| && users[k].id != id ==> PatchUser(users, id, p)[k] == users[k]
    ensures forall k :: 0 <= k < |users| && users[k].id == id ==>
      PatchUser(users, id, p)[k] == Row(id, Patched(users[k].attrs, p))
    ensures FindRow(users, id).None? ==> PatchUser(users, id, p) == users
  {
  }

  /** Every present field of a patch is written, every absent one keeps its value, and the token is never touched. */
  lemma PatchedFields(u: User, p: UserPatch)
    ensures Patched(u, p).token == u.token
    ensures Patched(u, p).name == (if p.name.Some? then p.name.value else u.name)
    ensures Patched(u, p).email == (if p.email.Some? then p.email.value else u.email)
    ensures Patched(u, p).password == (if p.password.Some? then p.password.value else u.password)
    ensures Patched(u, p).role == (if p.role.Some? then p.role.value else u.role)
    ensures p == UserPatch(None, None, None, None) ==> Patched(u, p) == u
  {
  }

  /** After `updateToken(id, null)`, no token lookup ever returns user `id` again. */
  lemma ClearedTokenNeverResolves(users: seq<Row<User>>, id: int, s: string)
    requires Ascending(users)
    ensures FindByToken(SetToken(users, id, None), s).Some? ==> FindByToken(SetToken(users, id, None), s).value.id != id
  {
  }

  /** After `updateToken(id, t)` on a stored user, looking `t` up finds a user holding `t`. */
  lemma SetTokenResolves(users: seq<Row<User>>, id: int, t: string)
    requires Ascending(users)
    requires FindRow(users, id).Some?
    ensures FindByToken(SetToken(users, id, Some(t)), t).Some?
  {
  }

  /**
   * The repository: a thin layer over the `users` table. The PHP class
   * keeps no state of its own; `users` is the table it queries.
   */
  class UserRepository {
    const users: Table<User>

    ghost predicate Valid()
      reads this, users
    {
      users.Valid()
    }

    constructor (users: Table<User>)
      requires users.Valid()
      ensures Valid() && this.users == users
    {
      this.users := users;
    }

    /** `create`: stores one new user with a fresh id and no token. */
    method Create(data: UserPayload) returns (created: Row<User>)
      requires Valid()
      modifies users
      ensures Valid()
      ensures created.attrs == User(data.name, data.email, data.password, data.role, None)
      ensures FindRow(old(users.rows), created.id).None?
      ensures users.rows == old(users.rows) + [created]
      ensures |GetAll()| == |old(GetAll())| + 1
    {
      created := users.Create(User(data.name, data.email, data.password, data.role, None));
    }

    /** `getByEmailAndPassword`: the first stored user with exactly these credentials, or null. */
    function GetByEmailAndPassword(email: string, password: string): (r: Option<Row<User>>)
      reads this, users
      ensures r.Some? ==> r.value in users.rows && r.value.attrs.email == email && r.value.attrs.password == password
      ensures r.Some? ==>
        exists i :: 0 <= i < |users.rows| && users.rows[i] == r.value &&
          forall j :: 0 <= j < i ==> !(users.rows[j].attrs.email == email && users.rows[j].attrs.password == password)
      ensures r.None? <==>
        forall j :: 0 <= j < |users.rows| ==> !(users.rows[j].attrs.email == email && users.rows[j].attrs.password == password)
    {
      FindByCredentials(users.rows, email, password)
    }

    /** `updateToken`: sets the token of user `userId`, if stored; nothing else changes. */
    method UpdateToken(userId: int, token: Option<string>)
      requires Valid()
      modifies users
      ensures Valid()
      ensures users.rows == SetToken(old(users.rows), userId, token)
      ensures |users.rows| == |old(users.rows)|
      ensures forall k :: 0 <= k < |users.rows| ==>
        users.rows[k] == if old(users.rows)[k].id == userId
                         then Row(userId, old(users.rows)[k].attrs.(token := token))
                         else old(users.rows)[k]
    {
      SetTokenTouchesOnlyToken(users.rows, userId, token);
      var user := FindRow(users.rows, userId);
      if user.Some? {
        users.Save(userId, user.value.attrs.(token := token));
      }
    }

    /** `getByToken`: the first stored user whose token is exactly `token`, or null. */
    function GetByToken(token: string): (r: Option<Row<User>>)
      reads this, users
      ensures r.Some? ==> r.value in users.rows && r.value.attrs.token == Some(token)
      ensures r.Some? ==>
        exists i :: 0 <= i < |users.rows| && users.rows[i] == r.value &&
          forall j :: 0 <= j < i ==> users.rows[j].attrs.token != Some(token)
      ensures r.None? <==> forall j :: 0 <= j < |users.rows| ==> users.rows[j].attrs.token != Some(token)
    {
      FindByToken(users.rows, token)
    }

    /** `getAll`: every stored user, in table order. */
    function GetAll(): (r: seq<Row<User>>)
      reads this, users
      ensures |r| == |users.rows|
      ensures forall k :: 0 <= k < |r| ==> r[k] == users.rows[k]
    {
      users.rows
    }

    /** `update`: overwrites the given fields of user `id` when it exists; a no-op otherwise. */
    method Update(id: int, data: UserPatch)
      requires Valid()
      modifies users
      ensures Valid()
      ensures users.rows == PatchUser(old(users.rows), id, data)
      ensures FindRow(old(users.rows), id).None? ==> users.rows == old(users.rows)
      ensures |users.rows| == |old(users.rows)|
      ensures forall k :: 0 <= k < |users.rows| ==>
        users.rows[k] == if old(users.rows)[k].id == id
                         then Row(id, Patched(old(users.rows)[k].attrs, data))
                         else old(users.rows)[k]
    {
      PatchUserTouchesOnlyTarget(users.rows, id, data);
      var user := FindRow(users.rows, id);
      if user.Some? {
        users.Save(id, Patched(user.value.attrs, data));
      }
    }
  }
}
