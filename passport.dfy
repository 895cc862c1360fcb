/**
 * backend/passport.config.ts: the local-strategy verify callback and the
 * session's serialize/deserialize pair. The user-table lookups may throw
 * (a store fault, passed in as `fault`), and the hash comparison is the
 * `compare` parameter: it answers whether a plain password matches a
 * stored hash, or throws.
 */
module Passport {
  import opened Wrappers
  import opened Domain
  import opened UserResolver

  /** A callback argument: a JavaScript string, or any value of another type. */
  datatype Arg = Str(s: string) | NotString

  /** What the callback hands to `done`: a user, `false` with an info message, or an error. */
  datatype Verdict = Authenticated(user: User) | Rejected(message: string) | Errored(error: string)

  /** bcrypt.compare(plain, hash): true or false, or an error it throws. */
  type Compare = (string, string) -> Result<bool>

  /**
   * The verify callback: non-string arguments, an unknown username and a
   * password that does not match the stored hash are all rejected with
   * the same message; a thrown lookup or comparison error is passed on.
   */
  function Verify(users: seq<User>, fault: Option<string>, compare: Compare, username: Arg, password: Arg): (v: Verdict)
    ensures v.Rejected? ==> v.message == InvalidCredentials
    ensures v.Authenticated? <==>
      username.Str? && password.Str? && fault.None? &&
      UserByUsername(users, username.s).Some? &&
      compare(password.s, UserByUsername(users, username.s).value.password) == Ok(true)
    ensures v.Authenticated? ==> v.user in users && v.user == UserByUsername(users, username.s).value
    ensures v.Errored? && fault.Some? ==> v.error == fault.value
    ensures v.Errored? && fault.None? ==>
      username.Str? && password.Str? && UserByUsername(users, username.s).Some? &&
      compare(password.s, UserByUsername(users, username.s).value.password) == Err(v.error)
    ensures v.Errored? <==>
      username.Str? && password.Str? &&
      (fault.Some? ||
       (UserByUsername(users, username.s).Some? &&
        compare(password.s, UserByUsername(users, username.s).value.password).Err?))
  {
    if !username.Str? || !password.Str? then Rejected(InvalidCredentials)
    else if fault.Some? then Errored(fault.value)
    else match UserByUsername(users, username.s)
      case None => Rejected(InvalidCredentials)
      case Some(u) =>
        match compare(password.s, u.password)
        case Err(e) => Errored(e)
        case Ok(valid) => if valid then Authenticated(u) else Rejected(InvalidCredentials)
  }

  /**
   * The three rejection causes give the same verdict: a caller cannot tell a
   * malformed request, an unknown username and a wrong password apart.
   */
  lemma {:induction false} RejectionsIndistinguishable(users: seq<User>, compare: Compare, name: string, password: string, known: User)
    requires UserByUsername(users, name) == Some(known)
    requires compare(password, known.password) == Ok(false)
    ensures Verify(users, None, compare, NotString, Str(password)) == Rejected(InvalidCredentials)
    ensures Verify(users, None, compare, Str(name), NotString) == Rejected(InvalidCredentials)
    ensures Verify(users, None, compare, Str(name), Str(password)) == Rejected(InvalidCredentials)
    ensures Verify(Without(users, name), None, compare, Str(name), Str(password)) == Rejected(InvalidCredentials)
  {
    WithoutHasNo(users, name);
  }

  /** The table with every row of that username removed. */
  function Without(users: seq<User>, username: string): (r: seq<User>)
    ensures forall u :: u in r <==> u in users && u.username != username
  {
    if users == [] then []
    else (if users[0].username == username then [] else [users[0]]) + Without(users[1..], username)
  }

  lemma WithoutHasNo(users: seq<User>, username: string)
    ensures UserByUsername(Without(users, username), username) == None
  {
  }

  /** serializeUser: the session keeps only the user's id. */
  function SerializeUser(u: User): (id: int)
    ensures id == u.id
  {
    u.id
  }

  /** deserializeUser: the row with that id, or null; a thrown lookup error is passed on. */
  function DeserializeUser(users: seq<User>, fault: Option<string>, id: int): (r: Result<Option<User>>)
    ensures fault.Some? ==> r == Err(fault.value)
    ensures fault.None? ==> r.Ok?
    ensures r.Ok? && r.value.Some? ==> r.value.value in users && r.value.value.id == id
    ensures r.Ok? && r.value.None? ==> forall u :: u in users ==> u.id != id
  {
    if fault.Some? then Err(fault.value) else Ok(UserById(users, id))
  }

  /**
   * The session round trip: deserializing what was serialized gives back
   * the same stored user, and null once that row is gone.
   */
  lemma SessionRoundTrip(users: seq<User>, u: User)
    requires UniqueIds(users)
    ensures u in users ==> DeserializeUser(users, None, SerializeUser(u)) == Ok(Some(u))
    ensures (forall v :: v in users ==> v.id != u.id) ==> DeserializeUser(users, None, SerializeUser(u)) == Ok(None)
  {
    if u in users {
      UserByIdFinds(users, u);
    }
  }
}
