/** Token checks: the `authenticateToken` middleware of the HTTP routes
    (server.js:92-106) and the socket.io connection gate (server.js:475-495).
    Signature verification (`jwt.verify`) is the parameter `verify`: it maps
    a token to the `userId` of its payload, or to `None` when it throws. */
module Auth {
  import opened Wrappers
  import opened Entities
  import opened Arrays
  import opened Text

  /** `req.headers.authorization?.split(' ')[1]`: the second space-separated
      field of the header, when the header is present and has one. */
  function BearerToken(header: Option<string>): (t: Option<string>)
    ensures t.Some? ==> header.Some? && ' ' !in t.value
  {
    match header
    case None => None
    case Some(h) =>
      var parts := Split(h, ' ');
      if |parts| > 1 then Some(parts[1]) else None
  }

  /** A header `"<scheme> <token>"` yields the token. */
  lemma BearerTokenOfHeader(scheme: string, token: string)
    requires ' ' !in scheme && ' ' !in token
    ensures BearerToken(Some(scheme + " " + token)) == Some(token)
  {
    SplitJoin([scheme, token], ' ');
    assert Join([scheme, token], ' ') == scheme + " " + token;
  }

  /** The middleware: a missing or empty token is refused with 401, a token
      that fails verification with 403; otherwise the payload's user id
      becomes `req.user.userId`. It does not check that this user exists. */
  function Authenticate(header: Option<string>, verify: string -> Option<UserId>)
    : (r: Result<UserId, AuthError>)
    ensures r.Success? <==>
      BearerToken(header).Some? && BearerToken(header).value != "" && verify(BearerToken(header).value).Some?
    ensures r.Success? ==> r.value == verify(BearerToken(header).value).value
    ensures r.Failure? ==> r.error != UnknownUser
    ensures r.Failure? ==> (r.error == MissingToken <==> BearerToken(header).None? || BearerToken(header).value == "")
  {
    match BearerToken(header)
    case None => Failure(MissingToken)
    case Some(t) =>
      if t == "" then Failure(MissingToken)
      else match verify(t)
        case None => Failure(InvalidToken)
        case Some(u) => Success(u)
  }

  /** A well-formed bearer header carrying a token that verifies is accepted,
      with the payload's user. */
  lemma AuthenticateBearerHeader(scheme: string, token: string, verify: string -> Option<UserId>, u: UserId)
    requires ' ' !in scheme && ' ' !in token && token != ""
    requires verify(token) == Some(u)
    ensures Authenticate(Some(scheme + " " + token), verify) == Success(u)
  {
    BearerTokenOfHeader(scheme, token);
  }

  /** The connection gate: the handshake token must be present, verify, and
      name a stored user; the connection then carries that user's id and name. */
  function Gate(users: seq<User>, token: Option<string>, verify: string -> Option<UserId>)
    : (r: Result<Identity, AuthError>)
    ensures r.Success? <==>
      token.Some? && token.value != "" && verify(token.value).Some?
      && UserById(users, verify(token.value).value).Some?
    ensures r.Success? ==> r.value.userId == verify(token.value).value
    ensures r.Success? ==> r.value.username == users[UserById(users, r.value.userId).value].username
    ensures r.Failure? ==> (r.error == MissingToken <==> token.None? || token.value == "")
  {
    match token
    case None => Failure(MissingToken)
    case Some(t) =>
      if t == "" then Failure(MissingToken)
      else match verify(t)
        case None => Failure(InvalidToken)
        case Some(u) =>
          match UserById(users, u)
          case None => Failure(UnknownUser)
          case Some(i) => Success(Identity(users[i].id, users[i].username))
  }
}
