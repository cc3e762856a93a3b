/**
 * Login and token checking (auth-service service/AuthService.java).
 *
 * The user table is a map from email to user (UserService.findByEmail).  Password
 * hashing, token minting and token verification are cryptographic library calls;
 * they are parameters here: `matches(raw, stored)`, `generate(email, role)` and
 * `verify(token)`, the last giving how JwtUtil.validateToken ended.
 */
module Auth {
  import opened Outcomes

  datatype User = User(email: string, password: string, role: string)

  /** The /login body.  The controller does not validate it, so a missing password
      arrives as null, here None. */
  datatype LoginRequest = LoginRequest(email: string, password: Option<string>)

  type PasswordMatcher = (string, string) -> bool
  type TokenGenerator = (string, string) -> string

  /** How token verification ended: accepted; a JwtException (bad signature, or a
      malformed or otherwise rejected token); or an exception of another kind. */
  datatype Verdict = Verified | BadSignature | Malformed | OtherException

  /** An exception that propagates out of the auth service. */
  datatype Fault = Propagated

  function FindByEmail(users: map<string, User>, email: string): (r: Option<User>)
    ensures r.Some? <==> email in users
    ensures r.Some? ==> r.value == users[email]
  {
    if email in users then Some(users[email]) else None
  }

  /** PasswordEncoder.matches: BCrypt rejects a null raw password with an exception. */
  function Matches(matches: PasswordMatcher, raw: Option<string>, encoded: string): (r: Result<bool, Fault>)
    ensures r.Failure? <==> raw.None?
    ensures r.Success? ==> r.value == matches(raw.value, encoded)
  {
    match raw
    case None => Failure(Propagated)
    case Some(password) => Success(matches(password, encoded))
  }

  /** authenticate: look the user up, keep it if the password matches, mint a token
      from the stored user's email and role.  A known email with no password makes
      the matcher throw; that exception propagates.  Otherwise an unknown email and
      a wrong password give the same empty answer. */
  function Authenticate(users: map<string, User>, req: LoginRequest,
                        matches: PasswordMatcher, generate: TokenGenerator): (r: Result<Option<string>, Fault>)
    ensures r.Failure? <==> req.email in users && req.password.None?
    ensures r.Success? && r.value.Some? <==>
      req.email in users && req.password.Some? && matches(req.password.value, users[req.email].password)
    ensures r.Success? && r.value.Some? ==>
      r.value.value == generate(users[req.email].email, users[req.email].role)
  {
    match FindByEmail(users, req.email)
    case None => Success(None)
    case Some(u) =>
      match Matches(matches, req.password, u.password)
      case Failure(f) => Failure(f)
      case Success(ok) => Success(Some(u).Filter(_ => ok).Map((v: User) => generate(v.email, v.role)))
  }

  /** The two ways a login with a password fails are indistinguishable to the caller;
      a login without a password is told apart by whether its email is registered. */
  lemma LoginFailuresLeak(users: map<string, User>, email: string, password: string,
                          matches: PasswordMatcher, generate: TokenGenerator)
    ensures email !in users ==>
      Authenticate(users, LoginRequest(email, Some(password)), matches, generate) == Success(None)
    ensures email in users && !matches(password, users[email].password) ==>
      Authenticate(users, LoginRequest(email, Some(password)), matches, generate) == Success(None)
    ensures email !in users ==> Authenticate(users, LoginRequest(email, None), matches, generate) == Success(None)
    ensures email in users ==> Authenticate(users, LoginRequest(email, None), matches, generate) == Failure(Propagated)
  {
  }

  /** validateToken: true when verification succeeds, false when it throws a
      JwtException; any other exception propagates. */
  function ValidateToken(token: string, verify: string -> Verdict): (r: Result<bool, Fault>)
    ensures r == Success(true) <==> verify(token) == Verified
    ensures r == Success(false) <==> verify(token) == BadSignature || verify(token) == Malformed
    ensures r.Failure? <==> verify(token) == OtherException
  {
    match verify(token)
    case Verified => Success(true)
    case BadSignature => Success(false)
    case Malformed => Success(false)
    case OtherException => Failure(Propagated)
  }
}
