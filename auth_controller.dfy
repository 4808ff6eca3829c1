/** Accounts (`src/controllers/authController.js`): registration into the user table and
    login. Password hashing and comparison (bcrypt) are parameters; a token (JWT) is
    represented by the payload it signs. */
module AuthController {
  import opened Wrappers
  import opened Errors
  import opened AuthMiddleware
  import opened Store
  import opened Strings

  /** The claims `jwt.sign` is given. */
  datatype TokenPayload = TokenPayload(id: nat, role: string)

  /** The `data` object of a successful register or login response. */
  datatype AuthData = AuthData(id: nat, email: string, role: string, token: TokenPayload)

  /** The response data for a user: the user's id, email and role, and a token whose
      payload is exactly the id and the role. */
  function Session(u: User): (s: AuthData)
    ensures s.token == TokenPayload(u.id, u.role)
    ensures s.id == u.id && s.email == u.email && s.role == u.role
  {
    AuthData(u.id, u.email, u.role, TokenPayload(u.id, u.role))
  }

  /** `prisma.user.findUnique({ where: { email } })`. */
  function FindUser(users: seq<User>, email: string): (r: Option<User>)
    ensures r.Some? ==> r.value in users && r.value.email == email
    ensures r.None? ==> forall i :: 0 <= i < |users| ==> users[i].email != email
  {
    if users == [] then None
    else if users[0].email == email then Some(users[0])
    else FindUser(users[1..], email)
  }

  function MissingRegistration(): Error
  {
    AppError("Email, password, and role are required", 400)
  }

  function BadRole(): Error
  {
    AppError("Role must be CUSTOMER or SELLER", 400)
  }

  function EmailTaken(): Error
  {
    AppError("Email already registered", 409)
  }

  function MissingCredentials(): Error
  {
    AppError("Email and password are required", 400)
  }

  function InvalidCredentials(): Error
  {
    AppError("Invalid email or password", 401)
  }

  /** POST /api/auth/register. Checks, in order: all three fields present (400), role on
      the whitelist (400), email not yet registered (409); then stores the user with the
      hashed password. Emails stay unique. */
  method Register(db: Database, email: Option<string>, password: Option<string>, role: Option<string>,
                  hash: string -> string)
    returns (r: Result<AuthData, Error>)
    requires db.Valid()
    modifies db
    ensures db.Valid()
    ensures !(Truthy(email) && Truthy(password) && Truthy(role)) ==> r == Failure(MissingRegistration())
    ensures Truthy(email) && Truthy(password) && Truthy(role) && role.value != CUSTOMER && role.value != SELLER ==>
      r == Failure(BadRole())
    ensures (Truthy(email) && Truthy(password) && (role == Some(CUSTOMER) || role == Some(SELLER)) &&
             FindUser(old(db.users), email.value).Some?) ==> r == Failure(EmailTaken())
    ensures r.Success? <==>
      Truthy(email) && Truthy(password) && (role == Some(CUSTOMER) || role == Some(SELLER)) &&
      FindUser(old(db.users), email.value).None?
    ensures r.Success? ==>
      var u := User(old(db.nextId), email.value, hash(password.value), role.value);
      && db.users == old(db.users) + [u] && r.value == Session(u) && db.nextId == old(db.nextId) + 1
    ensures r.Failure? ==> db.users == old(db.users) && db.nextId == old(db.nextId)
    ensures db.products == old(db.products) && db.orders == old(db.orders) && db.transactions == old(db.transactions)
  {
    if !Truthy(email) || !Truthy(password) || !Truthy(role) {
      return Failure(MissingRegistration());
    }
    if role.value != CUSTOMER && role.value != SELLER {
      return Failure(BadRole());
    }
    var existing := FindUser(db.users, email.value);
    if existing.Some? {
      return Failure(EmailTaken());
    }
    var user := User(db.nextId, email.value, hash(password.value), role.value);
    db.users := db.users + [user];
    db.nextId := db.nextId + 1;
    r := Success(Session(user));
  }

  /** POST /api/auth/login. An unknown email and a wrong password give the same 401, so the
      answer does not reveal which accounts exist. `matches(password, hash)` stands for
      `bcrypt.compare`. */
  function Login(users: seq<User>, email: Option<string>, password: Option<string>,
                 matches: (string, string) -> bool): (r: Result<AuthData, Error>)
    ensures !(Truthy(email) && Truthy(password)) ==> r == Failure(MissingCredentials())
    ensures r.Success? <==>
      Truthy(email) && Truthy(password) && FindUser(users, email.value).Some? &&
      matches(password.value, FindUser(users, email.value).value.passwordHash)
    ensures Truthy(email) && Truthy(password) && r.Failure? ==> r == Failure(InvalidCredentials())
    ensures r.Success? ==> r.value.email == email.value && r.value.token == TokenPayload(r.value.id, r.value.role)
    ensures r.Success? ==>
      Truthy(email) && FindUser(users, email.value).Some? && r.value == Session(FindUser(users, email.value).value)
  {
    if !Truthy(email) || !Truthy(password) then Failure(MissingCredentials())
    else
      match FindUser(users, email.value)
      case None => Failure(InvalidCredentials())
      case Some(user) =>
        if !matches(password.value, user.passwordHash) then Failure(InvalidCredentials())
        else Success(Session(user))
  }

  /** In a valid user table a login that succeeds identifies the one account with that
      email, and the token carries that account's id and role. */
  lemma LoginIdentifiesAccount(users: seq<User>, nextId: nat, email: string, password: string,
                               matches: (string, string) -> bool, i: nat)
    requires UsersValid(users, nextId)
    requires i < |users| && users[i].email == email
    requires Login(users, Some(email), Some(password), matches).Success?
    ensures Login(users, Some(email), Some(password), matches).value == Session(users[i])
  {
    var u := FindUser(users, email).value;
    var j :| 0 <= j < |users| && users[j] == u;
    assert i == j;
  }
}
