/** The users table and its four operations. */
module UsersCrud {
  import opened Wrappers
  import Lookup

  /** A row of `users` (fields as `UserOut` exposes them). */
  datatype User = User(id: int, name: string, email: string)

  const EMAIL_TAKEN: string := "Email ya registrado"

  /** No two rows share an email. */
  ghost predicate EmailsUnique(rows: seq<User>) {
    forall i, j :: 0 <= i < j < |rows| ==> rows[i].email != rows[j].email
  }

  class UserTable {
    var rows: seq<User>

    /** Ids are assigned 1, 2, 3, ... in insertion order, and `create_user` keeps emails unique. */
    ghost predicate Valid()
      reads this
    {
      && (forall i :: 0 <= i < |rows| ==> rows[i].id == i + 1)
      && EmailsUnique(rows)
    }

    constructor ()
      ensures Valid() && rows == []
    {
      rows := [];
    }

    /** `list_users`: every row, in insertion order; the table is not changed. */
    method ListUsers() returns (r: seq<User>)
      ensures r == rows
    {
      r := rows;
    }

    /** `get_user_by_email`: the first row with this email, or `None`. */
    function GetUserByEmail(email: string): (u: Option<User>)
      reads this
      ensures u.None? <==> forall i :: 0 <= i < |rows| ==> rows[i].email != email
      ensures u.Some? ==> exists i :: 0 <= i < |rows| && rows[i] == u.value && u.value.email == email
                                      && forall j :: 0 <= j < i ==> rows[j].email != email
    {
      var i := Lookup.FirstIndex(rows, (x: User) => x.email == email);
      if i < |rows| then Some(rows[i]) else None
    }

    /** `get_user_by_id`: the row with this id, or `None`. */
    function GetUserById(userId: int): (u: Option<User>)
      reads this
      requires Valid()
      ensures u.None? <==> forall i :: 0 <= i < |rows| ==> rows[i].id != userId
      ensures u.Some? ==> u.value.id == userId && u.value in rows
    {
      var i := Lookup.FirstIndex(rows, (x: User) => x.id == userId);
      if i < |rows| then Some(rows[i]) else None
    }

    /** `create_user`: refuses an email already present (`ValueError`), otherwise appends one user
        with the next id and returns it. */
    method CreateUser(name: string, email: string) returns (r: Result<User, string>)
      requires Valid()
      modifies this
      ensures Valid()
      ensures (exists i :: 0 <= i < |old(rows)| && old(rows)[i].email == email) ==>
                r == Failure(EMAIL_TAKEN) && rows == old(rows)
      ensures (forall i :: 0 <= i < |old(rows)| ==> old(rows)[i].email != email) ==>
                r == Success(User(|old(rows)| + 1, name, email)) && rows == old(rows) + [r.value]
    {
      if GetUserByEmail(email).Some? {
        return Failure(EMAIL_TAKEN);
      }
      var u := User(|rows| + 1, name, email);
      rows := rows + [u];
      r := Success(u);
    }
  }
}
