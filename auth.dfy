/**
 * Registration and login (src/app/api/auth/register/route.ts and
 * src/app/api/auth/login/route.ts) as a small state machine over the
 * `users` table and the session record. Hashing and comparison are the
 * parameters `hashOf` and `matches`, the new user's id and the clock are
 * inputs, and the body is what `request.json()` settles to.
 */
module Auth {
  import opened Wrappers
  import opened Strings
  import opened Http

  /** A row of the `users` table (src/lib/db/schema-pg.ts lines 4-10). */
  datatype User = User(id: string, username: string, passwordHash: string, displayName: Option<string>, createdAt: int)

  /** The `{ username, password }` body. */
  datatype Credentials = Credentials(username: Option<string>, password: Option<string>)

  /** What the session record holds. */
  datatype SessionData = SessionData(isLoggedIn: bool, userId: Option<string>, username: Option<string>)

  datatype Rejection = Rejection(status: nat, message: string)

  /** `username.trim().toLowerCase()`: the form usernames are stored and looked up in. */
  function NormalizeUsername(username: string): (r: string)
    ensures Trimmed(r) && |r| == |Trim(username)|
  {
    var t := Trim(username);
    forall i | 0 <= i < |t| ensures IsSpace(ToLower(t)[i]) <==> IsSpace(t[i]) {
      ToLowerKeepsSpace(t[i]);
    }
    ToLower(t)
  }

  /** Normalising twice is normalising once. */
  lemma NormalizeIdempotent(username: string)
    ensures NormalizeUsername(NormalizeUsername(username)) == NormalizeUsername(username)
  {
    var n := NormalizeUsername(username);
    TrimOfTrimmed(n);
    ToLowerIdempotent(Trim(username));
  }

  /** White space around a name does not change the user it names. */
  lemma NormalizeIgnoresPadding(p: string, name: string, q: string)
    requires AllSpace(p) && AllSpace(q)
    ensures NormalizeUsername(p + name + q) == NormalizeUsername(name)
  {
    TrimSurrounded(p, name, q);
  }

  /** Names that agree once lower-cased (ASCII) name the same user. */
  lemma NormalizeIgnoresCase(a: string, b: string)
    requires ToLower(a) == ToLower(b)
    ensures NormalizeUsername(a) == NormalizeUsername(b)
  {
    TrimLower(a);
    TrimLower(b);
  }

  /** A name typed in another case and with white space around it is the
      same user as the name without either. */
  lemma NormalizeIgnoresCaseAndPadding(p: string, typed: string, q: string, name: string)
    requires AllSpace(p) && AllSpace(q) && ToLower(typed) == ToLower(name)
    ensures NormalizeUsername(p + typed + q) == NormalizeUsername(name)
  {
    NormalizeIgnoresPadding(p, typed, q);
    NormalizeIgnoresCase(typed, name);
  }

  /** `!username || !username.trim()`. */
  predicate UsernameMissing(username: Option<string>) {
    !Truthy(username) || Trim(username.value) == ""
  }

  /** The index of the first row with this stored username (`.limit(1)`). */
  function FindUser(users: seq<User>, username: string): (r: Option<nat>)
    ensures r.Some? ==> r.value < |users| && users[r.value].username == username
    ensures r.Some? ==> forall i :: 0 <= i < r.value ==> users[i].username != username
    ensures r.None? ==> forall i :: 0 <= i < |users| ==> users[i].username != username
  {
    if users == [] then None
    else if users[0].username == username then Some(0)
    else match FindUser(users[1..], username)
      case None => None
      case Some(i) => Some(i + 1)
  }

  /** No two rows share a username: the column's `unique()` constraint. */
  predicate UniqueUsernames(users: seq<User>) {
    forall i, j :: 0 <= i < j < |users| ==> users[i].username != users[j].username
  }

  // ---------------------------------------------------------------------
  // Registration
  // ---------------------------------------------------------------------

  /** The stored username, the display name and the password of an accepted registration. */
  datatype Registration = Registration(username: string, displayName: string, password: string)

  /** The guards of the register route, in order. */
  function CheckRegister(users: seq<User>, body: Credentials): (r: Result<Registration, Rejection>)
    ensures UsernameMissing(body.username) ==> r == Err(Rejection(400, "Username is required"))
    ensures !UsernameMissing(body.username) && (!Truthy(body.password) || |body.password.value| < 4) ==>
              r == Err(Rejection(400, "Password must be at least 4 characters"))
    ensures r.Ok? <==> && !UsernameMissing(body.username) && Truthy(body.password) && |body.password.value| >= 4
                       && FindUser(users, NormalizeUsername(body.username.value)).None?
    ensures r.Ok? ==> r.value == Registration(NormalizeUsername(body.username.value), Trim(body.username.value), body.password.value)
  {
    if UsernameMissing(body.username) then Err(Rejection(400, "Username is required"))
    else if !Truthy(body.password) || |body.password.value| < 4 then Err(Rejection(400, "Password must be at least 4 characters"))
    else
      var name := NormalizeUsername(body.username.value);
      if FindUser(users, name).Some? then Err(Rejection(409, "Username already taken"))
      else Ok(Registration(name, Trim(body.username.value), body.password.value))
  }

  /** The row an accepted registration inserts. */
  function NewUser(reg: Registration, id: string, now: int, hashOf: string -> string): User {
    User(id, reg.username, hashOf(reg.password), Some(reg.displayName), now)
  }

  /** Some row already has this id: the insert then fails on the primary key. */
  predicate IdTaken(users: seq<User>, id: string) {
    exists u :: u in users && u.id == id
  }

  /** No two rows share an id: the primary key. */
  predicate UniqueIds(users: seq<User>) {
    forall i, j :: 0 <= i < j < |users| ==> users[i].id != users[j].id
  }

  /** The table after a registration request. */
  function RegisteredUsers(users: seq<User>, body: Outcome<Credentials>, id: string, now: int, hashOf: string -> string): seq<User> {
    if body.Threw? then users
    else match CheckRegister(users, body.value)
      case Err(_) => users
      case Ok(reg) => if IdTaken(users, id) then users else users + [NewUser(reg, id, now, hashOf)]
  }

  /** The reply to a registration request. */
  function RegisterReply(users: seq<User>, body: Outcome<Credentials>, id: string): Reply<bool> {
    if body.Threw? then ErrorJson(500, "Registration failed")
    else match CheckRegister(users, body.value)
      case Err(r) => ErrorJson(r.status, r.message)
      case Ok(_) => if IdTaken(users, id) then ErrorJson(500, "Registration failed") else Json(200, true)
  }

  /** A name that is already taken is a 409, and the table does not change. */
  lemma DuplicateRejected(users: seq<User>, body: Credentials, id: string, now: int, hashOf: string -> string)
    requires !UsernameMissing(body.username) && Truthy(body.password) && |body.password.value| >= 4
    requires exists i :: 0 <= i < |users| && users[i].username == NormalizeUsername(body.username.value)
    ensures RegisterReply(users, Returned(body), id) == ErrorJson(409, "Username already taken")
    ensures RegisteredUsers(users, Returned(body), id, now, hashOf) == users
  {
  }

  /** An accepted registration whose new id is already in use fails on the
      insert: 500, and the table does not change. */
  lemma IdCollisionFails(users: seq<User>, body: Credentials, id: string, now: int, hashOf: string -> string)
    requires CheckRegister(users, body).Ok?
    requires exists i :: 0 <= i < |users| && users[i].id == id
    ensures RegisterReply(users, Returned(body), id) == ErrorJson(500, "Registration failed")
    ensures RegisteredUsers(users, Returned(body), id, now, hashOf) == users
  {
    var i :| 0 <= i < |users| && users[i].id == id;
    assert users[i] in users;
  }

  /** Registration keeps usernames unique. */
  lemma RegisterKeepsUnique(users: seq<User>, body: Outcome<Credentials>, id: string, now: int, hashOf: string -> string)
    requires UniqueUsernames(users)
    ensures UniqueUsernames(RegisteredUsers(users, body, id, now, hashOf))
  {
    var after := RegisteredUsers(users, body, id, now, hashOf);
    if after != users {
      var reg := CheckRegister(users, body.value).value;
      assert after == users + [NewUser(reg, id, now, hashOf)];
      forall i, j | 0 <= i < j < |after| ensures after[i].username != after[j].username {
        if j == |users| {
          assert after[i] == users[i];
        }
      }
    }
  }

  /** Registration keeps ids unique, and a successful one adds a row with the new id. */
  lemma RegisterKeepsIdsUnique(users: seq<User>, body: Outcome<Credentials>, id: string, now: int, hashOf: string -> string)
    requires UniqueIds(users)
    ensures UniqueIds(RegisteredUsers(users, body, id, now, hashOf))
    ensures RegisterReply(users, body, id).Json? ==>
              RegisteredUsers(users, body, id, now, hashOf)[..|users|] == users
              && |RegisteredUsers(users, body, id, now, hashOf)| == |users| + 1
              && RegisteredUsers(users, body, id, now, hashOf)[|users|].id == id
  {
    var after := RegisteredUsers(users, body, id, now, hashOf);
    if after != users {
      var reg := CheckRegister(users, body.value).value;
      assert after == users + [NewUser(reg, id, now, hashOf)];
      forall i, j | 0 <= i < j < |after| ensures after[i].id != after[j].id {
        if j == |users| {
          assert after[i] == users[i] && users[i] in users;
        }
      }
    }
  }

  /** Stored usernames are normalised, and re-normalising one changes nothing. */
  lemma RegisteredNameNormal(users: seq<User>, body: Credentials)
    requires CheckRegister(users, body).Ok?
    ensures NormalizeUsername(CheckRegister(users, body).value.username) == CheckRegister(users, body).value.username
    ensures CheckRegister(users, body).value.displayName != ""
  {
    NormalizeIdempotent(body.username.value);
  }

  // ---------------------------------------------------------------------
  // Login
  // ---------------------------------------------------------------------

  const InvalidLogin: string := "Invalid username or password"

  /** The guards of the login route; on success, the user found. */
  function CheckLogin(users: seq<User>, body: Credentials, matches: (string, string) -> bool): (r: Result<User, Rejection>)
    ensures UsernameMissing(body.username) ==> r == Err(Rejection(400, "Username is required"))
    ensures !UsernameMissing(body.username) && !Truthy(body.password) ==> r == Err(Rejection(400, "Password is required"))
    ensures r.Ok? ==> r.value in users && r.value.username == NormalizeUsername(body.username.value)
                      && matches(body.password.value, r.value.passwordHash)
  {
    if UsernameMissing(body.username) then Err(Rejection(400, "Username is required"))
    else if !Truthy(body.password) then Err(Rejection(400, "Password is required"))
    else
      match FindUser(users, NormalizeUsername(body.username.value))
      case None => Err(Rejection(401, InvalidLogin))
      case Some(i) =>
        if !matches(body.password.value, users[i].passwordHash) then Err(Rejection(401, InvalidLogin))
        else Ok(users[i])
  }

  /** An unknown user and a wrong password get the same reply, so the reply
      does not reveal which usernames exist; login has no minimum length. */
  lemma LoginFailureIsGeneric(users: seq<User>, body: Credentials, matches: (string, string) -> bool)
    requires !UsernameMissing(body.username) && Truthy(body.password)
    ensures CheckLogin(users, body, matches).Err? <==>
              var i := FindUser(users, NormalizeUsername(body.username.value));
              i.None? || !matches(body.password.value, users[i.value].passwordHash)
    ensures CheckLogin(users, body, matches).Err? ==> CheckLogin(users, body, matches).error == Rejection(401, "Invalid username or password")
  {
  }

  /** The name the session shows: `user.displayName || user.username`. */
  function SessionName(user: User): string {
    if Truthy(user.displayName) then user.displayName.value else user.username
  }

  function LoginReply(users: seq<User>, body: Outcome<Credentials>, matches: (string, string) -> bool): Reply<bool> {
    if body.Threw? then ErrorJson(500, "Login failed")
    else match CheckLogin(users, body.value, matches)
      case Err(r) => ErrorJson(r.status, r.message)
      case Ok(_) => Json(200, true)
  }

  /** A user just registered can log in with the same name, in any case and
      padding, and a password the hash accepts; the session then shows the
      display name chosen at registration. */
  lemma RegisteredUserCanLogIn(users: seq<User>, reg: Credentials, id: string, now: int, hashOf: string -> string,
                               login: Credentials, matches: (string, string) -> bool)
    requires CheckRegister(users, reg).Ok? && !IdTaken(users, id)
    requires !UsernameMissing(login.username) && Truthy(login.password)
    requires NormalizeUsername(login.username.value) == NormalizeUsername(reg.username.value)
    requires matches(login.password.value, hashOf(reg.password.value))
    ensures var after := RegisteredUsers(users, Returned(reg), id, now, hashOf);
            && CheckLogin(after, login, matches) == Ok(NewUser(CheckRegister(users, reg).value, id, now, hashOf))
            && SessionName(CheckLogin(after, login, matches).value) == Trim(reg.username.value)
  {
    var r := CheckRegister(users, reg).value;
    var after := RegisteredUsers(users, Returned(reg), id, now, hashOf);
    var name := NormalizeUsername(reg.username.value);
    assert after == users + [NewUser(r, id, now, hashOf)];
    assert after[|users|].username == name;
    assert forall i :: 0 <= i < |users| ==> after[i].username != name;
    assert FindUser(after, name) == Some(|users|);
    RegisteredNameNormal(users, reg);
  }

  // ---------------------------------------------------------------------
  // The stateful routes
  // ---------------------------------------------------------------------

  /** The `users` table. */
  class UserTable {
    var rows: seq<User>

    constructor(rows: seq<User>)
      ensures this.rows == rows
    {
      this.rows := rows;
    }
  }

  /** The iron-session record. */
  class Session {
    var isLoggedIn: bool
    var userId: Option<string>
    var username: Option<string>

    constructor()
      ensures Data() == SessionData(false, None, None)
    {
      isLoggedIn := false;
      userId := None;
      username := None;
    }

    function Data(): SessionData
      reads this
    {
      SessionData(isLoggedIn, userId, username)
    }

    /** The three assignments before `session.save()`. */
    method LogIn(id: string, name: string)
      modifies this
      ensures Data() == SessionData(true, Some(id), Some(name))
    {
      isLoggedIn := true;
      userId := Some(id);
      username := Some(name);
    }
  }

  /** `POST /api/auth/register`: on success exactly one row is added and the
      session is the new user's; otherwise neither changes. A new id that is
      already in use makes the insert throw, so the route answers 500. */
  method Register(table: UserTable, session: Session, body: Outcome<Credentials>, id: string, now: int, hashOf: string -> string)
    returns (reply: Reply<bool>)
    modifies table, session
    ensures reply == RegisterReply(old(table.rows), body, id)
    ensures table.rows == RegisteredUsers(old(table.rows), body, id, now, hashOf)
    ensures reply.Json? ==> !IdTaken(old(table.rows), id)
    ensures reply.Json? ==> session.Data() == SessionData(true, Some(id), Some(Trim(body.value.username.value)))
    ensures !reply.Json? ==> session.Data() == old(session.Data())
  {
    if body.Threw? {
      return ErrorJson(500, "Registration failed");
    }
    var check := CheckRegister(table.rows, body.value);
    if check.Err? {
      return ErrorJson(check.error.status, check.error.message);
    }
    var user := NewUser(check.value, id, now, hashOf);
    if IdTaken(table.rows, id) {
      return ErrorJson(500, "Registration failed");
    }
    table.rows := table.rows + [user];
    session.LogIn(user.id, user.displayName.value);
    reply := Json(200, true);
  }

  /** `POST /api/auth/login`: reads the table only; the session changes
      only on success and then names the user found. */
  method Login(table: UserTable, session: Session, body: Outcome<Credentials>, matches: (string, string) -> bool)
    returns (reply: Reply<bool>)
    modifies session
    ensures reply == LoginReply(table.rows, body, matches)
    ensures reply.Json? ==> var user := CheckLogin(table.rows, body.value, matches).value;
              session.Data() == SessionData(true, Some(user.id), Some(SessionName(user)))
    ensures !reply.Json? ==> session.Data() == old(session.Data())
  {
    if body.Threw? {
      return ErrorJson(500, "Login failed");
    }
    var check := CheckLogin(table.rows, body.value, matches);
    if check.Err? {
      return ErrorJson(check.error.status, check.error.message);
    }
    var user := check.value;
    session.LogIn(user.id, SessionName(user));
    reply := Json(200, true);
  }
}
