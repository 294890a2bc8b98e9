/** The key-management REST routes: upload the caller's public key, list a
    room's members that have one, and the find-or-create room join used by
    the key exchange. These routes name the caller by the `userId` claim
    alone. */
module CryptoRoutes {
  import opened Records
  import opened Http
  import opened Store
  import opened JsString
  import RoomRoutes

  /** `req.user.userId`. */
  function KeyOwner(c: Claims): (r: Option<UserId>)
    ensures r.Some? ==> r.value != ""
  {
    if Truthy(c.userId) then c.userId else None
  }

  /** POST `/public-key`: set the caller's stored public key and echo it.
      `findByIdAndUpdate(undefined, …)` filters on `{_id: undefined}`, which
      Mongoose reduces to `{}`: without a `userId` claim some stored user,
      chosen by the database, gets the key. The empty id never casts to an
      ObjectId and fails the query. */
  method UpdatePublicKey(db: Database, header: Option<string>, verify: Verifier, publicKey: Option<string>)
    returns (res: Response)
    requires db.Valid()
    modifies db
    ensures db.Valid()
    ensures db.rooms == old(db.rooms) && db.nextRoomId == old(db.nextRoomId) && db.messages == old(db.messages)
    ensures Authenticate(header, verify).Rejected? ==>
      res == Authenticate(header, verify).response && unchanged(db)
    ensures Authenticate(header, verify).Authorized? && !Truthy(publicKey) ==>
      res == Response(400, Note("Public key is required")) && unchanged(db)
    ensures Authenticate(header, verify).Authorized? && Truthy(publicKey)
            && Authenticate(header, verify).claims.userId == Some("") ==>
      res == ServerError && unchanged(db)
    ensures Authenticate(header, verify).Authorized? && Truthy(publicKey)
            && ((Authenticate(header, verify).claims.userId.None? && old(db.users) == map[])
                || (KeyOwner(Authenticate(header, verify).claims).Some?
                    && KeyOwner(Authenticate(header, verify).claims).value !in old(db.users))) ==>
      res == Response(404, Note("User not found")) && unchanged(db)
    ensures Authenticate(header, verify).Authorized? && Truthy(publicKey)
            && KeyOwner(Authenticate(header, verify).claims).Some?
            && KeyOwner(Authenticate(header, verify).claims).value in old(db.users) ==>
      var u := KeyOwner(Authenticate(header, verify).claims).value;
      && res == Response(200, KeyUpdated(publicKey.value))
      && db.users == old(db.users)[u := old(db.users[u]).(publicKey := publicKey)]
      && HasPublicKey(db.users[u])
    // no `userId` claim: exactly one stored user, whichever it is, gets the key
    ensures Authenticate(header, verify).Authorized? && Truthy(publicKey)
            && Authenticate(header, verify).claims.userId.None? && old(db.users) != map[] ==>
      && res == Response(200, KeyUpdated(publicKey.value))
      && exists u :: u in old(db.users) && db.users == old(db.users)[u := old(db.users)[u].(publicKey := publicKey)]
  {
    var auth := Authenticate(header, verify);
    if auth.Rejected? {
      return auth.response;
    }
    if !Truthy(publicKey) {
      return Response(400, Note("Public key is required"));
    }
    var owner := auth.claims.userId;
    if owner == Some("") {
      return ServerError;
    }
    var u: UserId;
    if owner.None? {
      if db.users == map[] {
        return Response(404, Note("User not found"));
      }
      u :| u in db.users;
    } else {
      if owner.value !in db.users {
        return Response(404, Note("User not found"));
      }
      u := owner.value;
    }
    db.users := db.users[u := db.users[u].(publicKey := publicKey)];
    res := Response(200, KeyUpdated(db.users[u].publicKey.value));
  }

  /** The `map` + `filter` of room-members: each member, resolved to its
      user, as `{userId, username, publicKey}`, keeping those with a public
      key; a member whose user cannot be resolved makes the whole listing
      fail. */
  function PublicMembers(ms: seq<Member>, users: map<UserId, User>): (r: Option<seq<MemberKey>>)
    ensures r.Some? <==> AllResolved(ms, users)
    ensures r.Some? ==> |r.value| <= |ms|
    ensures r.Some? ==> forall e :: e in r.value ==>
      && e.userId in users && HasPublicKey(users[e.userId])
      && e.username == users[e.userId].username
      && e.publicKey == users[e.userId].publicKey.value
  {
    if ms == [] then Some([])
    else if ms[0].userId !in users then None
    else
      match PublicMembers(ms[1..], users)
      case None =>
        assert !AllResolved(ms[1..], users);
        None
      case Some(rest) =>
        var u := users[ms[0].userId];
        var head := if HasPublicKey(u) then [MemberKey(ms[0].userId, u.username, u.publicKey.value)] else [];
        assert forall m :: m in ms ==> m == ms[0] || m in ms[1..];
        Some(head + rest)
  }

  /** The listing names exactly the key holders, the predicate the key
      bundle uses. */
  lemma {:induction false} PublicMembersAreKeyHolders(ms: seq<Member>, users: map<UserId, User>)
    requires AllResolved(ms, users)
    ensures (set e | e in PublicMembers(ms, users).value :: e.userId) == KeyHolders(ms, users)
  {
    if ms != [] {
      assert AllResolved(ms[1..], users);
      PublicMembersAreKeyHolders(ms[1..], users);
      var listed := PublicMembers(ms, users).value;
      var rest := PublicMembers(ms[1..], users).value;
      var u := users[ms[0].userId];
      var head := if HasPublicKey(u) then [MemberKey(ms[0].userId, u.username, u.publicKey.value)] else [];
      assert listed == head + rest;
      assert forall e :: e in listed <==> e in head || e in rest;
      assert forall m :: m in ms <==> m == ms[0] || m in ms[1..];
      assert (set e | e in head :: e.userId) == KeyHolders([ms[0]], users);
      assert KeyHolders(ms, users) == KeyHolders([ms[0]], users) + KeyHolders(ms[1..], users);
    }
  }

  /** The listing follows member order: the entries for an earlier block of
      members all come before those of a later block. */
  lemma {:induction false} PublicMembersKeepOrder(a: seq<Member>, b: seq<Member>, users: map<UserId, User>)
    requires AllResolved(a + b, users)
    ensures AllResolved(a, users) && AllResolved(b, users)
    ensures PublicMembers(a + b, users).value == PublicMembers(a, users).value + PublicMembers(b, users).value
  {
    assert forall m :: m in a ==> m in a + b;
    assert forall m :: m in b ==> m in a + b;
    if a != [] {
      assert (a + b)[1..] == a[1..] + b;
      PublicMembersKeepOrder(a[1..], b, users);
    } else {
      assert a + b == b;
    }
  }

  /** GET `/room-members/:roomId`: the room is looked up by its NAME, which
      the schema's `trim` setter trims in the query as well; the response
      lists its members that have a public key. */
  function RoomMembers(db: Database, header: Option<string>, verify: Verifier, name: string): (r: Response)
    requires db.Valid()
    reads db
    ensures Authenticate(header, verify).Rejected? ==> r == Authenticate(header, verify).response
    ensures Authenticate(header, verify).Authorized? && !NameTaken(db.rooms, Trim(name)) ==>
      r == Response(404, Note("Room not found"))
    ensures Authenticate(header, verify).Authorized? ==>
      forall id :: id in db.rooms && db.rooms[id].name == Trim(name) ==>
        && (AllResolved(db.rooms[id].members, db.users) ==>
              r == Response(200, MemberKeys(PublicMembers(db.rooms[id].members, db.users).value)))
        && (!AllResolved(db.rooms[id].members, db.users) ==> r == ServerError)
  {
    match Authenticate(header, verify)
    case Rejected(response) => response
    case Authorized(_) =>
      match FindByName(db.rooms, Trim(name), 0, db.nextRoomId)
      case None => Response(404, Note("Room not found"))
      case Some(id) =>
        match PublicMembers(db.rooms[id].members, db.users)
        case None => ServerError
        case Some(members) => Response(200, MemberKeys(members))
  }

  /** The find-or-create step of `/join-room` for a caller `u` and a name
      already trimmed and non-empty. */
  method FindOrCreate(db: Database, u: UserId, name: string, now: Timestamp) returns (res: Response)
    requires db.Valid() && name != "" && Tight(name)
    modifies db
    ensures db.Valid()
    ensures db.users == old(db.users) && db.messages == old(db.messages)
    // an existing room of that name: join it if not already a member
    ensures forall id :: id in old(db.rooms) && old(db.rooms[id].name) == name ==>
      var ms := old(db.rooms[id].members);
      && (IsMember(ms, u) ==> res == Response(200, Joined(name, |ms|)) && unchanged(db))
      && (!IsMember(ms, u) ==>
            && res == Response(200, Joined(name, |ms| + 1))
            && db.rooms == old(db.rooms)[id := Room(name, ms + [Member(u, now)])]
            && db.nextRoomId == old(db.nextRoomId))
    // no room of that name: create it with the caller as its one member
    ensures !NameTaken(old(db.rooms), name) ==>
      var id := old(db.nextRoomId);
      && res == Response(200, Joined(name, 1))
      && id !in old(db.rooms)
      && db.rooms == old(db.rooms)[id := Room(name, [Member(u, now)])]
      && db.nextRoomId == id + 1
    // the caller is now a member of the room of that name, once, and the
    // reported count is that room's member count
    ensures res.status == 200 && res.body.Joined? && res.body.roomName == name && NameTaken(db.rooms, name)
    ensures forall id :: id in db.rooms && db.rooms[id].name == name ==>
      res.body.memberCount == |db.rooms[id].members| && IsMember(db.rooms[id].members, u)
  {
    match FindByName(db.rooms, name, 0, db.nextRoomId)
    case Some(id) =>
      var room := db.rooms[id];
      if IsMember(room.members, u) {
        return Response(200, Joined(name, |room.members|));
      }
      var joined := RoomRoutes.AddMember(db, id, Member(u, now));
      assert db.rooms[id].name == name;
      res := Response(200, Joined(name, |joined.members|));
    case None =>
      var id := db.nextRoomId;
      var _ := RoomRoutes.InsertRoom(db, name, u, now);
      assert db.rooms[id] == Room(name, [Member(u, now)]);
      assert MemberIds(db.rooms[id].members) == [u];
      res := Response(200, Joined(name, 1));
  }

  /** POST `/join-room`: find the room by its trimmed name or create it, and
      add the caller unless already a member. */
  method JoinRoomByName(db: Database, header: Option<string>, verify: Verifier, roomId: Option<string>, now: Timestamp)
    returns (res: Response)
    requires db.Valid()
    modifies db
    ensures db.Valid()
    ensures db.users == old(db.users) && db.messages == old(db.messages)
    ensures Authenticate(header, verify).Rejected? ==>
      res == Authenticate(header, verify).response && unchanged(db)
    ensures Authenticate(header, verify).Authorized? && !Truthy(roomId) ==>
      res == Response(400, Note("Room ID is required")) && unchanged(db)
    ensures Authenticate(header, verify).Authorized? && Truthy(roomId)
            && (KeyOwner(Authenticate(header, verify).claims).None? || Trim(roomId.value) == "") ==>
      // the pushed member has no user id, or the new room's trimmed name is
      // empty: either fails the schema's `required` check
      res == ServerError && unchanged(db)
    // an existing room with the trimmed name: join it if not already a member
    ensures Authenticate(header, verify).Authorized? && Truthy(roomId)
            && KeyOwner(Authenticate(header, verify).claims).Some? ==>
      var u := KeyOwner(Authenticate(header, verify).claims).value;
      var name := Trim(roomId.value);
      forall id :: id in old(db.rooms) && old(db.rooms[id].name) == name ==>
        var ms := old(db.rooms[id].members);
        && (IsMember(ms, u) ==> res == Response(200, Joined(name, |ms|)) && unchanged(db))
        && (!IsMember(ms, u) ==>
              && res == Response(200, Joined(name, |ms| + 1))
              && db.rooms == old(db.rooms)[id := Room(name, ms + [Member(u, now)])]
              && db.nextRoomId == old(db.nextRoomId))
    // no room of that name: create it with the caller as its one member
    ensures Authenticate(header, verify).Authorized? && Truthy(roomId)
            && KeyOwner(Authenticate(header, verify).claims).Some?
            && Trim(roomId.value) != "" && !NameTaken(old(db.rooms), Trim(roomId.value)) ==>
      var u := KeyOwner(Authenticate(header, verify).claims).value;
      var id := old(db.nextRoomId);
      && res == Response(200, Joined(Trim(roomId.value), 1))
      && id !in old(db.rooms)
      && db.rooms == old(db.rooms)[id := Room(Trim(roomId.value), [Member(u, now)])]
      && db.nextRoomId == id + 1
    // on success the caller is a member of the room of that name, once, and
    // the reported count is that room's member count
    ensures res.status == 200 ==>
      res.body.Joined? && res.body.roomName == Trim(roomId.value) && NameTaken(db.rooms, res.body.roomName)
      && forall id :: id in db.rooms && db.rooms[id].name == res.body.roomName ==>
           && res.body.memberCount == |db.rooms[id].members|
           && IsMember(db.rooms[id].members, KeyOwner(Authenticate(header, verify).claims).value)
  {
    var auth := Authenticate(header, verify);
    if auth.Rejected? {
      return auth.response;
    }
    if !Truthy(roomId) {
      return Response(400, Note("Room ID is required"));
    }
    var name := Trim(roomId.value);
    var owner := KeyOwner(auth.claims);
    if owner.None? {
      return ServerError;
    }
    if name == "" {
      // no stored name is empty, so this creates a room whose required name
      // is empty
      assert !NameTaken(db.rooms, name);
      return ServerError;
    }
    res := FindOrCreate(db, owner.value, name, now);
  }
}
