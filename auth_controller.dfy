/**
 * The /login and /validate endpoints (auth-service controller/AuthController.java).
 *
 * /validate checks the Authorization header against an exact, case-sensitive
 * 7-character prefix "Bearer " and passes everything after it as the token.  This
 * is narrower and looser than the bearer credential grammar of section 2.1 of
 * RFC 6750: "bearer x" is rejected, while "Bearer  x" passes the token " x" and
 * the bare "Bearer " passes an empty token.
 */
module AuthApi {
  import opened Outcomes
  import opened Auth

  const OkStatus: int := 200
  const Unauthorized: int := 401
  const BearerPrefix: string := "Bearer "

  datatype LoginResponse = LoginResponse(token: string)

  datatype Response<T> = Response(status: int, body: Option<T>)

  /** login: 401 with no body when authentication gives nothing, otherwise 200 with
      the token; an exception from authentication propagates. */
  function Login(users: map<string, User>, req: LoginRequest,
                 matches: PasswordMatcher, generate: TokenGenerator): (r: Result<Response<LoginResponse>, Fault>)
    ensures r.Failure? <==> Authenticate(users, req, matches, generate).Failure?
    ensures r.Success? ==>
      (r.value.status == 401 <==> Authenticate(users, req, matches, generate).value.None?)
    ensures r.Success? && r.value.status == 401 ==> r.value.body.None?
    ensures r.Success? && r.value.status != 401 ==>
      r.value.status == 200
      && r.value.body == Some(LoginResponse(Authenticate(users, req, matches, generate).value.value))
  {
    match Authenticate(users, req, matches, generate)
    case Failure(f) => Failure(f)
    case Success(tokenOptional) =>
      if tokenOptional.None? then Success(Response(Unauthorized, None))
      else Success(Response(OkStatus, Some(LoginResponse(tokenOptional.value))))
  }

  /** String.startsWith, character by character. */
  function StartsWith(s: string, prefix: string): (b: bool)
    ensures b <==> |prefix| <= |s| && s[..|prefix|] == prefix
  {
    if prefix == [] then true
    else if s == [] || s[0] != prefix[0] then false
    else
      var b := StartsWith(s[1..], prefix[1..]);
      assert |prefix| <= |s| ==> s[..|prefix|] == [s[0]] + s[1..][..|prefix| - 1];
      assert prefix == [prefix[0]] + prefix[1..];
      b
  }

  /** validateToken: the status /validate answers, or the exception that escapes. */
  function ValidateHeader(authHeader: string, verify: string -> Verdict): (r: Result<int, Fault>)
    ensures !StartsWith(authHeader, BearerPrefix) ==> r == Success(401)
    ensures r == Success(200) <==> StartsWith(authHeader, BearerPrefix) && verify(authHeader[7..]) == Verified
    ensures r.Failure? <==> StartsWith(authHeader, BearerPrefix) && verify(authHeader[7..]) == OtherException
    ensures r.Success? ==> r.value == 200 || r.value == 401
  {
    if !StartsWith(authHeader, BearerPrefix) then Success(Unauthorized)
    else match ValidateToken(authHeader[7..], verify)
      case Success(valid) => Success(if valid then OkStatus else Unauthorized)
      case Failure(f) => Failure(f)
  }

  /** A header that does not start with exactly "Bearer " is answered 401 whatever
      the verifier would say: the token is not checked. */
  lemma MissingPrefixRejected(authHeader: string, verify: string -> Verdict, other: string -> Verdict)
    requires |authHeader| < 7 || authHeader[..7] != "Bearer "
    ensures ValidateHeader(authHeader, verify) == Success(401)
    ensures ValidateHeader(authHeader, verify) == ValidateHeader(authHeader, other)
  {
  }

  /** The prefix check is case-sensitive and needs the space. */
  lemma PrefixIsExact(token: string, verify: string -> Verdict)
    ensures ValidateHeader("bearer " + token, verify) == Success(401)
    ensures ValidateHeader("BEARER " + token, verify) == Success(401)
    ensures ValidateHeader("Bearer", verify) == Success(401)
  {
  }

  /** For header "Bearer " + token the token checked is exactly `token` (empty for
      the bare prefix): 200 when it verifies, 401 when verification throws a
      JwtException, and other exceptions propagate. */
  lemma BearerTokenChecked(token: string, verify: string -> Verdict)
    ensures var r := ValidateHeader("Bearer " + token, verify);
      && (r == Success(200) <==> verify(token) == Verified)
      && (r == Success(401) <==> verify(token) == BadSignature || verify(token) == Malformed)
      && (r.Failure? <==> verify(token) == OtherException)
  {
  }

  /** A second space after the prefix is not skipped: it begins the token checked. */
  lemma ExtraSpaceKept(token: string, verify: string -> Verdict)
    ensures ValidateHeader("Bearer  " + token, verify) == Success(200) <==> verify(" " + token) == Verified
  {
    assert "Bearer  " + token == BearerPrefix + (" " + token);
  }

  /** Every header that passes the prefix check is "Bearer " followed by the token
      that is checked. */
  lemma HeaderSplits(authHeader: string)
    requires StartsWith(authHeader, BearerPrefix)
    ensures authHeader == BearerPrefix + authHeader[7..]
  {
  }
}
