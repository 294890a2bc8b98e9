/** The socket gateway: room subscriptions, room-key distribution, the
    message pipeline, typing relay and read receipts. Each handler runs as
    one atomic step; what it sends is appended to an emission log that
    records the exact recipient set of every event. */
module Gateway {
  import opened Records
  import opened Store
  import Http
  import RoomRoutes

  /** `crypto.publicEncrypt` (RSA-OAEP with SHA-256) of the room key under a
      recipient's public key; it fails (throws) on a key it cannot use. */
  type Sealer = (RoomKeyBytes, string) -> Option<string>

  /** The bundle loop completes: every member resolves to a user, and the
      key seals under every public key on file. */
  predicate Distributable(ms: seq<Member>, users: map<UserId, User>, key: RoomKeyBytes, seal: Sealer) {
    forall m :: m in ms ==>
      m.userId in users && (HasPublicKey(users[m.userId]) ==> seal(key, users[m.userId].publicKey.value).Some?)
  }

  /** `encryptedKeys` after the loop: for each key holder, the room key sealed
      under that holder's public key. */
  function SealedBundle(ms: seq<Member>, users: map<UserId, User>, key: RoomKeyBytes, seal: Sealer): (b: map<UserId, string>)
    requires Distributable(ms, users, key, seal)
  {
    map u | u in KeyHolders(ms, users) :: seal(key, users[u].publicKey.value).value
  }

  /** The loop of the `join-room` and `request-room-key` handlers: seal one
      room key for every member with a public key, keyed by user id; fails
      if a member's user is missing or a seal throws. */
  method BuildBundle(ms: seq<Member>, users: map<UserId, User>, key: RoomKeyBytes, seal: Sealer)
    returns (bundle: Option<map<UserId, string>>)
    ensures bundle.Some? <==> Distributable(ms, users, key, seal)
    ensures bundle.Some? ==> bundle.value == SealedBundle(ms, users, key, seal)
    // exactly the members with a public key, each sealing this same key
    ensures bundle.Some? ==> forall u :: u in bundle.value <==>
      exists m :: m in ms && m.userId == u && u in users && HasPublicKey(users[u])
    ensures bundle.Some? ==> forall u :: u in bundle.value ==>
      u in users && HasPublicKey(users[u]) && Some(bundle.value[u]) == seal(key, users[u].publicKey.value)
  {
    var encryptedKeys: map<UserId, string> := map[];
    for i := 0 to |ms|
      invariant Distributable(ms[..i], users, key, seal)
      invariant encryptedKeys == SealedBundle(ms[..i], users, key, seal)
    {
      var member := ms[i];
      assert ms[..i + 1] == ms[..i] + [member];
      if member.userId !in users {
        // the populated `member.userId` is null and reading its key throws
        assert member in ms;
        return None;
      }
      var user := users[member.userId];
      if HasPublicKey(user) {
        var sealed := seal(key, user.publicKey.value);
        if sealed.None? {
          assert member in ms;
          return None;
        }
        encryptedKeys := encryptedKeys[member.userId := sealed.value];
      }
      assert KeyHolders(ms[..i + 1], users)
          == KeyHolders(ms[..i], users) + (if HasPublicKey(user) then {member.userId} else {});
    }
    assert ms[..|ms|] == ms;
    return Some(encryptedKeys);
  }

  /** The `room-key-distribution` event a distribution for `roomId` emits,
      if any: none for an unknown room or an aborted loop. */
  function KeyDistribution(rooms: map<RoomId, Room>, users: map<UserId, User>, roomId: RoomId,
                           key: RoomKeyBytes, seal: Sealer): (r: Option<ServerEvent>)
    ensures r.Some? <==> roomId in rooms && Distributable(rooms[roomId].members, users, key, seal)
    ensures r.Some? ==> r.value.RoomKeyDistribution? && r.value.roomId == roomId
    // one entry per key holder of the room, each the room key sealed under
    // that holder's public key
    ensures r.Some? ==>
      && r.value.encryptedKeys.Keys == KeyHolders(rooms[roomId].members, users)
      && forall u :: u in r.value.encryptedKeys ==>
           Some(r.value.encryptedKeys[u]) == seal(key, users[u].publicKey.value)
  {
    if roomId in rooms && Distributable(rooms[roomId].members, users, key, seal)
    then Some(RoomKeyDistribution(roomId, SealedBundle(rooms[roomId].members, users, key, seal)))
    else None
  }

  /** `$addToSet`: append the reader unless already listed. */
  function AddToSet(s: seq<UserId>, x: UserId): (r: seq<UserId>)
    ensures forall y :: y in r <==> y in s || y == x
    ensures x in s ==> r == s
    ensures |s| <= |r| <= |s| + 1 && r[..|s|] == s
    ensures NoDuplicates(s) ==> NoDuplicates(r)
  {
    if x in s then s else s + [x]
  }

  /** The `messageData` object: the sender is the verified user, never a
      payload field, and `isEncrypted` is `data.isEncrypted || false`. */
  datatype Draft = Draft(
    roomId: Option<RoomId>,
    sender: UserId,
    content: Option<string>,
    isEncrypted: bool,
    ciphertext: Option<string>,
    nonce: Option<string>)

  function DraftOf(data: SendPayload, sender: UserId): (d: Draft)
    ensures d.sender == sender
    ensures d.isEncrypted <==> data.isEncrypted == Some(true)
    ensures data.isEncrypted.None? ==> !d.isEncrypted
    ensures d.roomId == data.roomId && d.content == data.content
    ensures d.ciphertext == data.ciphertext && d.nonce == data.nonce
  {
    Draft(data.roomId, sender, data.content, data.isEncrypted == Some(true), data.ciphertext, data.nonce)
  }

  /** The schema check run by `save`: `roomId` and a non-empty `content` are
      required; `readBy` starts empty. */
  function Validate(d: Draft): (r: Option<Message>)
    ensures r.Some? <==> d.roomId.Some? && Truthy(d.content)
    ensures r.Some? ==> r.value == Message(d.roomId.value, d.sender, d.content.value, [], d.isEncrypted, d.ciphertext, d.nonce)
  {
    if d.roomId.Some? && Truthy(d.content)
    then Some(Message(d.roomId.value, d.sender, d.content.value, [], d.isEncrypted, d.ciphertext, d.nonce))
    else None
  }

  /** `data.token || socket.handshake.auth.token`. */
  function SendToken(data: SendPayload, handshake: Option<string>): Option<string> {
    if Truthy(data.token) then data.token else if Truthy(handshake) then handshake else None
  }

  datatype SendOutcome = Refused(reason: string) | Accepted(record: Message, sender: Sender)

  /** The decisions of the `send-message` handler, in order: a token, its
      verification, the user lookup (by `id || userId`), then the save (which
      may also fail for reasons outside the model, `saveFails`). */
  function DecideSend(users: map<UserId, User>, data: SendPayload, handshake: Option<string>,
                      verify: Http.Verifier, saveFails: bool): (r: SendOutcome)
    ensures SendToken(data, handshake).None? <==> r == Refused("Authentication required")
    ensures r.Refused? ==> r.reason in {"Authentication required", "User not found", "Failed to send message"}
    ensures SendToken(data, handshake).Some? && verify(SendToken(data, handshake).value).None? ==>
      r == Refused("Failed to send message")
    ensures r == Refused("User not found") <==>
      && SendToken(data, handshake).Some? && verify(SendToken(data, handshake).value).Some?
      && var caller := RoomRoutes.CallerId(verify(SendToken(data, handshake).value).value);
         caller.None? || caller.value !in users
    ensures r.Accepted? <==>
      && SendToken(data, handshake).Some? && verify(SendToken(data, handshake).value).Some?
      && var caller := RoomRoutes.CallerId(verify(SendToken(data, handshake).value).value);
         caller.Some? && caller.value in users && data.roomId.Some? && Truthy(data.content) && !saveFails
    ensures r.Accepted? ==>
      && r.record.sender == RoomRoutes.CallerId(verify(SendToken(data, handshake).value).value).value
      && r.record.sender in users
      && r.sender == Sender(r.record.sender, users[r.record.sender].username)
      && r.record.roomId == data.roomId.value
      && r.record.content == data.content.value
      && r.record.isEncrypted == (data.isEncrypted == Some(true))
      && r.record.ciphertext == data.ciphertext && r.record.nonce == data.nonce
      && r.record.readBy == []
  {
    match SendToken(data, handshake)
    case None => Refused("Authentication required")
    case Some(token) =>
      match verify(token)
      // `jwt.verify` throws; the handler's catch reports a send failure
      case None => Refused("Failed to send message")
      case Some(claims) =>
        match RoomRoutes.CallerId(claims)
        case None => Refused("User not found")
        case Some(uid) =>
          if uid !in users then Refused("User not found")
          else
            match Validate(DraftOf(data, uid))
            case None => Refused("Failed to send message")
            case Some(record) =>
              if saveFails then Refused("Failed to send message")
              else Accepted(record, Sender(uid, users[uid].username))
  }

  /** The `receive-message` payload for a stored message. */
  function DeliveredOf(id: MessageId, m: Message, sender: Sender): (d: Delivered)
    ensures d.id == id && d.roomId == m.roomId && d.sender == sender
    ensures d.content == m.content && d.isEncrypted == m.isEncrypted
    ensures d.ciphertext == m.ciphertext && d.nonce == m.nonce
  {
    Delivered(id, m.roomId, sender, m.content, m.isEncrypted, m.ciphertext, m.nonce)
  }

  /** One emitted event and the connections it reaches. */
  datatype Emission = Emission(to: set<ConnId>, event: ServerEvent)

  class Gateway {
    const db: Database
    /** The socket rooms: for each room id, the connections that joined it. */
    var subs: map<RoomId, set<ConnId>>
    var log: seq<Emission>

    ghost predicate Valid()
      reads this, db
    {
      db.Valid()
    }

    constructor (db: Database)
      requires db.Valid()
      ensures Valid() && this.db == db && subs == map[] && log == []
    {
      this.db := db;
      subs := map[];
      log := [];
    }

    /** `io.to(roomId)`: the connections currently in the socket room. */
    function Subscribers(roomId: RoomId): set<ConnId>
      reads this
    {
      if roomId in subs then subs[roomId] else {}
    }

    /** Look up the room, seal a fresh key for its members, and broadcast the
        bundle to the whole socket room; nothing for an unknown room. */
    method DistributeRoomKey(roomId: RoomId, key: RoomKeyBytes, seal: Sealer)
      requires Valid()
      modifies this`log
      ensures log == old(log) + match KeyDistribution(db.rooms, db.users, roomId, key, seal)
                                 case None => []
                                 case Some(e) => [Emission(Subscribers(roomId), e)]
    {
      if roomId !in db.rooms {
        return;
      }
      var bundle := BuildBundle(db.rooms[roomId].members, db.users, key, seal);
      if bundle.Some? {
        log := log + [Emission(Subscribers(roomId), RoomKeyDistribution(roomId, bundle.value))];
      }
    }

    /** `join-room`: subscribe first, then distribute a fresh key; the joiner
        is among the recipients. */
    method JoinRoom(conn: ConnId, roomId: RoomId, key: RoomKeyBytes, seal: Sealer)
      requires Valid()
      modifies this`subs, this`log
      ensures Valid()
      ensures subs == old(subs)[roomId := old(Subscribers(roomId)) + {conn}]
      ensures conn in Subscribers(roomId)
      ensures log == old(log) + match KeyDistribution(db.rooms, db.users, roomId, key, seal)
                                 case None => []
                                 case Some(e) => [Emission(Subscribers(roomId), e)]
    {
      subs := subs[roomId := Subscribers(roomId) + {conn}];
      DistributeRoomKey(roomId, key, seal);
    }

    /** `request-room-key`: the same distribution, without subscribing. */
    method RequestRoomKey(conn: ConnId, roomId: RoomId, key: RoomKeyBytes, seal: Sealer)
      requires Valid()
      modifies this`log
      ensures Valid()
      ensures log == old(log) + match KeyDistribution(db.rooms, db.users, roomId, key, seal)
                                 case None => []
                                 case Some(e) => [Emission(Subscribers(roomId), e)]
    {
      DistributeRoomKey(roomId, key, seal);
    }

    /** `send-message`: a refusal goes to the sender alone and stores nothing;
        an accepted message is stored once and broadcast once to the room. */
    method SendMessage(conn: ConnId, data: SendPayload, handshake: Option<string>,
                       verify: Http.Verifier, saveFails: bool)
      requires Valid()
      modifies db`messages, this`log
      ensures Valid() && subs == old(subs)
      ensures DecideSend(db.users, data, handshake, verify, saveFails).Refused? ==>
        && db.messages == old(db.messages)
        && log == old(log) + [Emission({conn}, Error(DecideSend(db.users, data, handshake, verify, saveFails).reason))]
      ensures DecideSend(db.users, data, handshake, verify, saveFails).Accepted? ==>
        var outcome := DecideSend(db.users, data, handshake, verify, saveFails);
        && db.messages == old(db.messages) + [outcome.record]
        && log == old(log) + [Emission(Subscribers(outcome.record.roomId),
                                       ReceiveMessage(DeliveredOf(|old(db.messages)|, outcome.record, outcome.sender)))]
    {
      var outcome := DecideSend(db.users, data, handshake, verify, saveFails);
      match outcome
      case Refused(reason) =>
        log := log + [Emission({conn}, Error(reason))];
      case Accepted(record, sender) =>
        var id := |db.messages|;
        db.messages := db.messages + [record];
        log := log + [Emission(Subscribers(record.roomId), ReceiveMessage(DeliveredOf(id, record, sender)))];
    }

    /** `typing`: relayed to the room except the sender; nothing stored. */
    method Typing(conn: ConnId, roomId: RoomId, user: string, isTyping: bool)
      requires Valid()
      modifies this`log
      ensures Valid()
      ensures log == old(log) + [Emission(Subscribers(roomId) - {conn}, UserTyping(user, isTyping))]
    {
      log := log + [Emission(Subscribers(roomId) - {conn}, UserTyping(user, isTyping))];
    }

    /** `mark-read`: add the reader to `readBy` with set semantics, then relay
        the receipt to the room except the acknowledging connection. The
        update of an unknown id matches nothing and the receipt still goes
        out. */
    method MarkRead(conn: ConnId, messageId: MessageId, userId: UserId, roomId: RoomId)
      requires Valid()
      modifies db`messages, this`log
      ensures Valid() && subs == old(subs)
      ensures messageId < |old(db.messages)| ==>
        db.messages == old(db.messages)[messageId := old(db.messages[messageId]).(readBy := AddToSet(old(db.messages[messageId].readBy), userId))]
      ensures messageId < |old(db.messages)| ==> userId in db.messages[messageId].readBy
      // a repeated receipt leaves the store as it was
      ensures messageId < |old(db.messages)| && userId in old(db.messages[messageId].readBy) ==>
        db.messages == old(db.messages)
      ensures messageId >= |old(db.messages)| ==> db.messages == old(db.messages)
      ensures log == old(log) + [Emission(Subscribers(roomId) - {conn}, MessageRead(messageId, userId))]
    {
      if messageId < |db.messages| {
        var m := db.messages[messageId];
        db.messages := db.messages[messageId := m.(readBy := AddToSet(m.readBy, userId))];
      }
      log := log + [Emission(Subscribers(roomId) - {conn}, MessageRead(messageId, userId))];
    }

    /** A closed connection leaves every socket room (done by the transport;
        the handler itself only logs). */
    method Disconnect(conn: ConnId)
      requires Valid()
      modifies this`subs
      ensures Valid()
      ensures subs.Keys == old(subs).Keys
      ensures forall r :: r in subs ==> subs[r] == old(subs)[r] - {conn}
      ensures forall r :: conn !in Subscribers(r)
    {
      subs := map r | r in subs :: subs[r] - {conn};
    }
  }
}
