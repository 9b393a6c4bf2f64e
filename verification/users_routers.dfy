/** The users-service endpoints: payload constraints and the mapping of table results to HTTP answers. */
module UsersRouter {
  import opened Wrappers
  import opened Web
  import opened UsersCrud

  const USER_NOT_FOUND: string := "Usuario no encontrado"

  /** The `UserIn` payload. */
  datatype UserIn = UserIn(name: string, email: string)

  /** `UserIn`'s field constraints: name of 1 to 100 characters, email of 1 to 120. */
  predicate ValidUserIn(p: UserIn) {
    1 <= |p.name| <= 100 && 1 <= |p.email| <= 120
  }

  /** `GET /`: 200 with every user. */
  method ListUsers(db: UserTable) returns (a: Answer<seq<User>>)
    ensures a == Ok(200, db.rows)
  {
    var all := db.ListUsers();
    a := Ok(200, all);
  }

  /** `POST /`: 422 for a payload outside the constraints, 409 with the table's message for a
      duplicate email, otherwise 201 with the stored user. */
  method CreateUser(db: UserTable, payload: UserIn) returns (a: Answer<User>)
    requires db.Valid()
    modifies db
    ensures db.Valid()
    ensures !ValidUserIn(payload) ==> a == Unprocessable && db.rows == old(db.rows)
    ensures ValidUserIn(payload) && (exists i :: 0 <= i < |old(db.rows)| && old(db.rows)[i].email == payload.email) ==>
              a == Raised(HttpException(409, EMAIL_TAKEN)) && db.rows == old(db.rows)
    ensures ValidUserIn(payload) && (forall i :: 0 <= i < |old(db.rows)| ==> old(db.rows)[i].email != payload.email) ==>
              && a == Ok(201, User(|old(db.rows)| + 1, payload.name, payload.email))
              && db.rows == old(db.rows) + [a.body]
  {
    if !ValidUserIn(payload) {
      return Unprocessable;
    }
    var r := db.CreateUser(payload.name, payload.email);
    match r
    case Success(u) => a := Ok(201, u);
    case Failure(msg) => a := Raised(HttpException(409, msg));
  }

  /** `GET /{user_id}`: 200 with the user that has this id, or 404 "Usuario no encontrado". */
  function GetUser(db: UserTable, userId: int): (a: Answer<User>)
    reads db
    requires db.Valid()
    ensures a.Ok? <==> exists i :: 0 <= i < |db.rows| && db.rows[i].id == userId
    ensures a.Ok? ==> a.status == 200 && a.body.id == userId && a.body in db.rows
    ensures !a.Ok? ==> a == Raised(HttpException(404, USER_NOT_FOUND))
  {
    match db.GetUserById(userId)
    case None => Raised(HttpException(404, USER_NOT_FOUND))
    case Some(u) => Ok(200, u)
  }
}
