/** The backend's authentication service: registration, login, approval by
    an admin, and the public view of a user. Hashing, hash comparison and
    token signing are parameters. */
module AuthService {
  import opened Wrappers
  import opened Models
  import Repository
  import opened AuthMiddleware

  /** A user as the API shows it: every field but the password hash. */
  datatype PublicUser = PublicUser(id: UserId, username: string, isAdmin: bool, isApproved: bool, createdAt: nat)

  /** `login`'s answer: a signed token and the user. */
  datatype AuthResponse = AuthResponse(token: string, user: PublicUser)

  /** `bcrypt.hash` (its salt is outside the model). */
  type Hash = string -> string

  /** `bcrypt.compare(password, hash)`. */
  type Compare = (string, string) -> bool

  /** `jwt.sign` with the service's secret and a 24-hour expiry. */
  type Sign = AuthPayload -> string

  const MinPasswordLength := 6

  /** `toPublicUser`. */
  function ToPublicUser(user: User): (p: PublicUser)
    ensures p.id == user.id && p.username == user.username && p.isApproved == user.isApproved
    ensures p.isAdmin == user.isAdmin && p.createdAt == user.createdAt
  {
    PublicUser(user.id, user.username, user.isAdmin, user.isApproved, user.createdAt)
  }

  /** `toPublicUser` forgets the password hash and nothing else: two users
      look the same exactly when they differ at most in their hashes. */
  lemma ToPublicUserDropsHash(u: User, v: User)
    ensures ToPublicUser(u) == ToPublicUser(v) <==> u.(passwordHash := "") == v.(passwordHash := "")
  {
  }

  /** No two rows share a username. */
  predicate UniqueUsernames(users: UserTable) {
    forall i, j :: 0 <= i < j < |users.rows| ==> users.rows[i].username != users.rows[j].username
  }

  /** `register`: an existing username is refused before the password is
      looked at; a password shorter than six characters is refused; otherwise
      exactly one unapproved, non-admin user is added. */
  method Register(users: UserTable, username: string, password: string, hash: Hash, now: nat)
    returns (users': UserTable, r: Result<PublicUser>)
    requires Repository.UserIdsBelow(users)
    ensures Repository.UserByUsername(users, username).Some? ==> r == Err("Username already exists")
    ensures Repository.UserByUsername(users, username).None? && |password| < MinPasswordLength ==>
      r == Err("Password must be at least 6 characters")
    ensures r.Ok? <==> Repository.UserByUsername(users, username).None? && |password| >= MinPasswordLength
    ensures r.Err? ==> users' == users
    ensures r.Ok? ==>
      && users'.rows == users.rows + [User(users.nextId, username, hash(password), false, false, now)]
      && r.value == ToPublicUser(users'.rows[|users.rows|])
      && Repository.UserIdsBelow(users')
    ensures UniqueUsernames(users) ==> UniqueUsernames(users')
  {
    var existing := Repository.UserByUsername(users, username);
    if existing.Some? {
      return users, Err("Username already exists");
    }
    if |password| < MinPasswordLength {
      return users, Err("Password must be at least 6 characters");
    }
    var passwordHash := hash(password);
    var created := Repository.CreateUser(users, username, passwordHash, now);
    users' := created.users;
    r := Ok(ToPublicUser(created.user));
  }

  /** The payload a token is signed over. */
  function PayloadOf(user: User): AuthPayload {
    AuthPayload(user.id, user.username, user.isAdmin)
  }

  /** `login`: an unknown user and a wrong password give the same error; a
      right password for an unapproved user is refused; only an approved user
      gets a token. */
  function Login(users: UserTable, username: string, password: string, compare: Compare, sign: Sign): (r: Result<AuthResponse>)
    ensures var u := Repository.UserByUsername(users, username);
      r == Err("Invalid credentials") <==> u.None? || !compare(password, u.value.passwordHash)
    ensures var u := Repository.UserByUsername(users, username);
      r == Err("Account pending approval") <==> u.Some? && compare(password, u.value.passwordHash) && !u.value.isApproved
    ensures var u := Repository.UserByUsername(users, username);
      u.Some? && compare(password, u.value.passwordHash) && u.value.isApproved ==>
        r == Ok(AuthResponse(sign(PayloadOf(u.value)), ToPublicUser(u.value)))
    ensures r.Ok? ==> exists i :: 0 <= i < |users.rows| && LoggedIn(users.rows[i], username, password, compare, sign, r.value)
  {
    match Repository.UserByUsername(users, username) {
      case None => Err("Invalid credentials")
      case Some(user) =>
        if !compare(password, user.passwordHash) then Err("Invalid credentials")
        else if !user.isApproved then Err("Account pending approval")
        else Ok(AuthResponse(sign(PayloadOf(user)), ToPublicUser(user)))
    }
  }

  /** `user` is the approved user with this name and password, and the
      response carries a token signed over that user. */
  predicate LoggedIn(user: User, username: string, password: string, compare: Compare, sign: Sign, response: AuthResponse) {
    && user.username == username
    && compare(password, user.passwordHash)
    && user.isApproved
    && response == AuthResponse(sign(PayloadOf(user)), ToPublicUser(user))
  }

  /** A user who has just registered cannot log in until approved. */
  lemma FreshUserPending(users: UserTable, username: string, password: string, hash: Hash, now: nat, compare: Compare, sign: Sign)
    requires Repository.UserIdsBelow(users) && Repository.UserByUsername(users, username).None?
    ensures Login(Repository.CreateUser(users, username, hash(password), now).users, username, password, compare, sign).Err?
  {
    var users' := Repository.CreateUser(users, username, hash(password), now).users;
    var found := Repository.UserByUsername(users', username);
    if found.Some? {
      var i :| 0 <= i < |users'.rows| && users'.rows[i] == found.value;
      assert i == |users.rows|;
    }
  }

  /** The admin check of `approveUser` and `getPendingUsers`. */
  predicate IsAdmin(users: UserTable, adminId: UserId) {
    var admin := Repository.UserById(users, adminId);
    admin.Some? && admin.value.isAdmin
  }

  /** `approveUser`: without an existing admin caller nothing changes; an
      unknown target is 'User not found'; otherwise the target is approved. */
  method ApproveUser(users: UserTable, userId: UserId, adminId: UserId) returns (users': UserTable, r: Result<PublicUser>)
    ensures !IsAdmin(users, adminId) ==> r == Err("Unauthorized: Admin privileges required")
    ensures IsAdmin(users, adminId) && (forall i :: 0 <= i < |users.rows| ==> users.rows[i].id != userId) ==> r == Err("User not found")
    ensures r.Err? ==> users' == users
    ensures r.Ok? ==> IsAdmin(users, adminId) && users' == Repository.ApproveUser(users, userId).users
    ensures IsAdmin(users, adminId) && (exists i :: 0 <= i < |users.rows| && users.rows[i].id == userId) ==> r.Ok?
    ensures r.Ok? ==> r.value.id == userId && r.value.isApproved
    ensures r.Ok? ==> exists u :: u in users'.rows && u.id == userId && u.isApproved && r.value == ToPublicUser(u)
    ensures UniqueUsernames(users) ==> UniqueUsernames(users')
  {
    var admin := Repository.UserById(users, adminId);
    if admin.None? || !admin.value.isAdmin {
      return users, Err("Unauthorized: Admin privileges required");
    }
    var approved := Repository.ApproveUser(users, userId);
    if approved.user.None? {
      assert approved.users.rows == users.rows;
      return users, Err("User not found");
    }
    users' := approved.users;
    r := Ok(ToPublicUser(approved.user.value));
  }

  /** `getPendingUsers`: the admin check, then the unapproved users. */
  function GetPendingUsers(users: UserTable, adminId: UserId): (r: Result<seq<PublicUser>>)
    ensures r.Err? <==> !IsAdmin(users, adminId)
    ensures r.Err? ==> r.error == "Unauthorized: Admin privileges required"
    ensures r.Ok? ==> forall p :: p in r.value ==> !p.isApproved && exists u :: u in users.rows && ToPublicUser(u) == p
    ensures r.Ok? ==> forall u :: u in users.rows && !u.isApproved ==> ToPublicUser(u) in r.value
  {
    if !IsAdmin(users, adminId) then Err("Unauthorized: Admin privileges required")
    else
      var pending := Repository.PendingUsers(users.rows);
      var shown := seq(|pending|, i requires 0 <= i < |pending| => ToPublicUser(pending[i]));
      assert forall u :: u in pending ==> ToPublicUser(u) in shown by {
        forall u | u in pending ensures ToPublicUser(u) in shown {
          var i :| 0 <= i < |pending| && pending[i] == u;
          assert shown[i] == ToPublicUser(u);
        }
      }
      Ok(shown)
  }

  /** `getUserById`: the public view of the user with this id, if any. */
  function GetUserById(users: UserTable, id: UserId): (p: Option<PublicUser>)
    ensures p.Some? <==> exists i :: 0 <= i < |users.rows| && users.rows[i].id == id
    ensures p.Some? ==> p.value.id == id
    ensures p.Some? ==> exists i :: 0 <= i < |users.rows| && users.rows[i].id == id && p.value == ToPublicUser(users.rows[i])
  {
    match Repository.UserById(users, id) {
      case Some(u) => Some(ToPublicUser(u))
      case None => None
    }
  }

  /** `verifyToken`: a failure of the verifier becomes one message. */
  function VerifyToken(verify: Verify, token: string): (r: Result<AuthPayload>)
    ensures r.Ok? <==> verify(token).Some?
    ensures r.Ok? ==> r.value == verify(token).value
    ensures r.Err? ==> r.error == "Invalid or expired token"
  {
    match verify(token) {
      case Some(payload) => Ok(payload)
      case None => Err("Invalid or expired token")
    }
  }
}
