/**
 * The user resolver of backend/resolvers/user.resolover.ts over an
 * in-memory user table: `users`, `user`, `signUp`, `login`, `logout`.
 * The table stands for the store's user table with an auto-increment id.
 */
module UserResolver {
  import opened Wrappers
  import opened Domain
  import opened JsNumber

  const InvalidCredentials := "Invalid credentials"
  /** Stands for the store's own error when an id argument is not a number (parseInt gave NaN). */
  const InvalidId := "Invalid id"

  datatype SignUpInput = SignUpInput(username: string, name: string, password: string, gender: Gender)

  datatype LogoutResponse = LogoutResponse(status: string, message: string)

  /** No two rows share an id (the table's primary key). */
  ghost predicate UniqueIds(users: seq<User>)
  {
    forall i, j :: 0 <= i < |users| && 0 <= j < |users| && users[i].id == users[j].id ==> i == j
  }

  /** findUnique by id. */
  function UserById(users: seq<User>, id: int): (r: Option<User>)
    ensures r.Some? ==> r.value in users && r.value.id == id
    ensures r.None? <==> forall u :: u in users ==> u.id != id
  {
    if users == [] then None
    else if users[0].id == id then Some(users[0])
    else UserById(users[1..], id)
  }

  /** A lookup by username: the first row, in table order, with that username. */
  function UserByUsername(users: seq<User>, username: string): (r: Option<User>)
    ensures r.Some? ==> r.value in users && r.value.username == username
    ensures r.None? <==> forall u :: u in users ==> u.username != username
    ensures r.Some? ==> exists i :: 0 <= i < |users| && users[i] == r.value &&
                                     forall j :: 0 <= j < i ==> users[j].username != username
  {
    if users == [] then None
    else if users[0].username == username then Some(users[0])
    else
      UserByUsername(users[1..], username)
  }

  /** With unique ids, the row with a given id is the one found. */
  lemma {:induction false} UserByIdFinds(users: seq<User>, u: User)
    requires UniqueIds(users) && u in users
    ensures UserById(users, u.id) == Some(u)
  {
    var k :| 0 <= k < |users| && users[k] == u;
    var r := UserById(users, u.id);
    var j :| 0 <= j < |users| && users[j] == r.value;
  }

  /** `users`: every stored user, in table order. */
  function AllUsers(users: seq<User>): (r: seq<User>)
    ensures forall u :: u in r <==> u in users
    ensures |r| == |users|
  {
    users
  }

  /** `user(userId)`: the row whose id is parseInt(userId), or null; a NaN id makes the store throw. */
  function FindUser(users: seq<User>, userId: string): (r: Result<Option<User>>)
    ensures ParseInt(userId).None? <==> r.Err?
    ensures r.Ok? && r.value.Some? ==> r.value.value in users && ParseInt(userId) == Some(r.value.value.id)
    ensures r.Ok? && r.value.None? ==> forall u :: u in users ==> Some(u.id) != ParseInt(userId)
  {
    match ParseInt(userId)
    case None => Err(InvalidId)
    case Some(id) => Ok(UserById(users, id))
  }

  /** A stored user is found again by the id string the API shows for it. */
  lemma FindUserByShownId(users: seq<User>, u: User)
    requires UniqueIds(users) && u in users
    ensures FindUser(users, Show(u.id)) == Ok(Some(u))
  {
    ParseIntShow(u.id);
    UserByIdFinds(users, u);
  }

  /**
   * `login`: the stored user when a row with that username exists and its
   * stored password equals the given one (plain-text equality); otherwise
   * the one message 'Invalid credentials', whichever check failed.
   */
  function Login(users: seq<User>, username: string, password: string): (r: Result<User>)
    ensures r.Ok? <==> UserByUsername(users, username).Some? && UserByUsername(users, username).value.password == password
    ensures r.Ok? ==> r.value in users && r.value.username == username && r.value.password == password
    ensures r.Err? ==> r == Err(InvalidCredentials)
  {
    match UserByUsername(users, username)
    case Some(u) => if u.password == password then Ok(u) else Err(InvalidCredentials)
    case None => Err(InvalidCredentials)
  }

  /** No two rows share a username. */
  ghost predicate UniqueUsernames(users: seq<User>)
  {
    forall i, j :: 0 <= i < |users| && 0 <= j < |users| && users[i].username == users[j].username ==> i == j
  }

  /** When usernames are unique, login succeeds exactly for a stored (username, password) pair. */
  lemma LoginIffStored(users: seq<User>, username: string, password: string)
    requires UniqueUsernames(users)
    ensures Login(users, username, password).Ok? <==> exists u :: u in users && u.username == username && u.password == password
  {
    if u :| u in users && u.username == username && u.password == password {
      var found := UserByUsername(users, username);
      var i :| 0 <= i < |users| && users[i] == u;
      var j :| 0 <= j < |users| && users[j] == found.value;
      assert i == j;
    }
  }

  /** `logout`: a constant answer; it reads and changes no table, so calling it again answers the same. */
  function Logout(): (r: LogoutResponse)
    ensures r.status == "SUCCESS" && r.message == "Logged out successfully"
  {
    LogoutResponse("SUCCESS", "Logged out successfully")
  }

  /** The user table. Rows are kept in id order; ids come from an auto-increment counter. */
  class UserTable {
    var rows: seq<User>
    var nextId: int

    ghost predicate Valid()
      reads this
    {
      (forall i, j :: 0 <= i < j < |rows| ==> rows[i].id < rows[j].id) &&
      (forall i :: 0 <= i < |rows| ==> rows[i].id < nextId)
    }

    constructor ()
      ensures Valid() && rows == [] && nextId == 1
    {
      rows := [];
      nextId := 1;
    }

    /** `signUp`: inserts one row with the input's fields, the password unchanged and an empty profile picture. */
    method SignUp(input: SignUpInput) returns (u: User)
      requires Valid()
      modifies this
      ensures Valid() && UniqueIds(rows)
      ensures u == User(old(nextId), input.username, input.name, input.password, "", input.gender)
      ensures rows == old(rows) + [u] && nextId == old(nextId) + 1
      ensures forall v :: v in old(rows) ==> v.id != u.id
    {
      u := User(nextId, input.username, input.name, input.password, "", input.gender);
      rows := rows + [u];
      nextId := nextId + 1;
    }
  }
}
