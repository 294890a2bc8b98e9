/** What the REST routes share: the response shapes and the bearer-token
    middleware that runs before every route handler. */
module Http {
  import opened Records
  import opened JsString

  /** The claims a verified token carries; a token may name the user as
      `id` or as `userId`. */
  datatype Claims = Claims(id: Option<string>, userId: Option<string>)

  /** The token verifier (signature check against the server secret) is
      treated as a black box: it yields the claims or fails. */
  type Verifier = string -> Option<Claims>

  /** One entry of the public-key listing of a room. */
  datatype MemberKey = MemberKey(userId: UserId, username: string, publicKey: string)

  datatype Body =
    | Note(message: string)
    | RoomDoc(id: RoomId, room: Room)
    | RoomList(rooms: map<RoomId, Room>)
    | KeyUpdated(publicKey: string)
    | MemberKeys(members: seq<MemberKey>)
    | Joined(roomName: string, memberCount: nat)

  datatype Response = Response(status: nat, body: Body)

  const ServerError := Response(500, Note("Server error"))

  /** `authHeader && authHeader.split(' ')[1]`: the second space-separated
      word of the Authorization header; absent when the header is missing
      or empty, has no second word, or that word is empty. */
  function BearerToken(header: Option<string>): (token: Option<string>)
    ensures token.Some? ==> token.value != "" && ' ' !in token.value
  {
    if !Truthy(header) then None
    else
      var parts := Split(header.value, ' ');
      SplitPiecesAvoidSeparator(header.value, ' ');
      if |parts| >= 2 && parts[1] != "" then Some(parts[1]) else None
  }

  /** The usual `Bearer <token>` header (and anything after a further space)
      yields exactly the token. */
  lemma BearerTokenOf(scheme: string, token: string, rest: string)
    requires ' ' !in scheme && ' ' !in token && token != ""
    requires rest == "" || rest[0] == ' '
    ensures BearerToken(Some(scheme + " " + token + rest)) == Some(token)
  {
    var h := scheme + " " + token + rest;
    assert h == scheme + [' '] + (token + rest);
    SplitAfterWord(scheme, token + rest, ' ');
    SplitFirstWord(token, rest, ' ');
  }

  /** A header without a space carries no token. */
  lemma BearerTokenNeedsSpace(header: string)
    requires ' ' !in header
    ensures BearerToken(Some(header)) == None
  {
    SplitWithoutSeparator(header, ' ');
  }

  datatype AuthResult = Authorized(claims: Claims) | Rejected(response: Response)

  /** The `authenticateToken` middleware: 401 without a token, 403 when the
      verifier refuses it, otherwise the handler runs with the claims. */
  function Authenticate(header: Option<string>, verify: Verifier): (r: AuthResult)
    ensures BearerToken(header).None? <==> r == Rejected(Response(401, Note("Access token required")))
    ensures (BearerToken(header).Some? && verify(BearerToken(header).value).None?)
            <==> r == Rejected(Response(403, Note("Invalid token")))
    ensures r.Authorized? <==> BearerToken(header).Some? && verify(BearerToken(header).value).Some?
    ensures r.Authorized? ==> Some(r.claims) == verify(BearerToken(header).value)
  {
    match BearerToken(header)
    case None => Rejected(Response(401, Note("Access token required")))
    case Some(token) =>
      match verify(token)
      case None => Rejected(Response(403, Note("Invalid token")))
      case Some(claims) => Authorized(claims)
  }
}
