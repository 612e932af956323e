/** Token validation and the admin gate that every admin-only handler runs first.
    Signature checking and expiry belong to the JWT library: a `Decoder` is an
    oracle that says what decoding a non-empty token string yields. */
module Auth {
  import opened Errors

  /** The claims a token carries: its subject (an email) and the admin flag. */
  datatype Claims = Claims(sub: string, isAdmin: bool)

  /** What the JWT library makes of a token: its claims, or one of the two
      failures the handlers tell apart. */
  datatype Decoded = Decoded(claims: Claims) | ExpiredSignature | InvalidToken

  type Decoder = string -> Decoded

  /** Validates a token: an empty one is missing, otherwise the decoder decides. */
  function CurrentUser(token: string, decode: Decoder): (r: Result<Claims>)
    ensures r.Ok? <==> token != [] && decode(token).Decoded?
    ensures r.Ok? ==> r.value == decode(token).claims
    ensures r.Err? ==> r.error.Unauthenticated?
    ensures token == [] ==> r == Err(Unauthenticated("Token required"))
    ensures token != [] && decode(token).ExpiredSignature? ==> r == Err(Unauthenticated("Token expired"))
    ensures token != [] && decode(token).InvalidToken? ==> r == Err(Unauthenticated("Invalid token"))
  {
    if token == [] then Err(Unauthenticated("Token required"))
    else match decode(token)
      case Decoded(claims) => Ok(claims)
      case ExpiredSignature => Err(Unauthenticated("Token expired"))
      case InvalidToken => Err(Unauthenticated("Invalid token"))
  }

  /** True when the token authenticates a caller whose claims carry the admin flag. */
  predicate IsAdminToken(token: string, decode: Decoder)
  {
    CurrentUser(token, decode).Ok? && CurrentUser(token, decode).value.isAdmin
  }

  /** The gate of an admin-only handler: validation errors propagate unchanged,
      a valid non-admin caller is Forbidden with a message naming the action. */
  function RequireAdmin(token: string, decode: Decoder, action: string): (r: Result<Claims>)
    ensures r.Ok? <==> IsAdminToken(token, decode)
    ensures CurrentUser(token, decode).Err? ==> r == CurrentUser(token, decode)
    ensures CurrentUser(token, decode).Ok? && r.Err? ==> r.error == Forbidden("Only admins can " + action)
  {
    var user := CurrentUser(token, decode);
    if user.Err? then user
    else if !user.value.isAdmin then Err(Forbidden("Only admins can " + action))
    else user
  }
}
