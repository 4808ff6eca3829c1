/** Request gates (`src/middleware/auth.js`): bearer-token extraction and verification,
    and the two role gates the routes put in front of the controllers. */
module AuthMiddleware {
  import opened Wrappers
  import opened Errors
  import Strings

  const SELLER: string := "SELLER"
  const CUSTOMER: string := "CUSTOMER"

  /** `req.user`: the caller's id and role, as carried by a verified token. */
  datatype Identity = Identity(id: nat, role: string)

  /** What `jwt.verify(token, secret)` does with a token: it returns the decoded payload
      or throws. Signature checking itself is outside this model, so the verifier is a
      parameter of `VerifyToken`. */
  datatype Decoded = Decoded(id: nat, role: string) | Threw(err: Error)

  const BEARER: string := "Bearer "
  const NO_TOKEN: string := "Access denied. No token provided."
  const INVALID_TOKEN: string := "Invalid or expired token"

  /** The header passes the first check: present and starting with "Bearer ". */
  predicate HasBearer(header: Option<string>)
  {
    header.Some? && BEARER <= header.value
  }

  /** `authHeader.split(' ')[1]`: the second space-separated field of the header. */
  function Token(header: string): (t: string)
    requires BEARER <= header
    ensures ' ' !in t
  {
    assert header[6] == ' ';
    Strings.Split(header, ' ')[1]
  }

  /** The token is the credentials after "Bearer " up to the next space (or the end). */
  lemma TokenIsFirstWordOfCredentials(rest: string)
    ensures Token(BEARER + rest) == Strings.Split(rest, ' ')[0]
  {
    assert BEARER + rest == "Bearer" + [' '] + rest;
    Strings.SplitAfterWord("Bearer", ' ', rest);
  }

  /** The `catch` block: the two jsonwebtoken failures become a 401, anything else
      (including the AppError for a missing header) is forwarded unchanged. */
  function Caught(err: Error): (e: Error)
    ensures err.name == "JsonWebTokenError" || err.name == "TokenExpiredError" ==> e == AppError(INVALID_TOKEN, 401)
    ensures err.name != "JsonWebTokenError" && err.name != "TokenExpiredError" ==> e == err
  {
    if err.name == "JsonWebTokenError" || err.name == "TokenExpiredError" then AppError(INVALID_TOKEN, 401)
    else err
  }

  /** `verifyToken`: the identity to attach as `req.user`, or the error passed to `next`. */
  function VerifyToken(header: Option<string>, verify: string -> Decoded): (r: Result<Identity, Error>)
    ensures !HasBearer(header) ==> r == Failure(AppError(NO_TOKEN, 401))
    ensures HasBearer(header) ==>
      match verify(Token(header.value))
      case Decoded(id, role) => r == Success(Identity(id, role))
      case Threw(err) => r == Failure(Caught(err))
    ensures r.Success? <==> HasBearer(header) && verify(Token(header.value)).Decoded?
  {
    if !HasBearer(header) then Failure(Caught(AppError(NO_TOKEN, 401)))
    else
      match verify(Token(header.value))
      case Decoded(id, role) => Success(Identity(id, role))
      case Threw(err) => Failure(Caught(err))
  }

  /** `isSeller`: lets the request through exactly when the role is SELLER. */
  function IsSeller(user: Identity): (r: Result<Identity, Error>)
    ensures r.Success? <==> user.role == SELLER
    ensures r.Success? ==> r.value == user
    ensures r.Failure? ==> r.error.statusCode == Some(403)
  {
    if user.role != SELLER then Failure(AppError("Forbidden. Seller access only.", 403)) else Success(user)
  }

  /** `isCustomer`: lets the request through exactly when the role is CUSTOMER. */
  function IsCustomer(user: Identity): (r: Result<Identity, Error>)
    ensures r.Success? <==> user.role == CUSTOMER
    ensures r.Success? ==> r.value == user
    ensures r.Failure? ==> r.error.statusCode == Some(403)
  {
    if user.role != CUSTOMER then Failure(AppError("Forbidden. Customer access only.", 403)) else Success(user)
  }

  /** The two gates are exclusive: no caller passes both. */
  lemma NoRolePassesBothGates(user: Identity)
    ensures !(IsSeller(user).Success? && IsCustomer(user).Success?)
  {
  }
}
