/** The room REST routes: list the caller's rooms, create a room, join,
    leave, search by name. Every route first passes `Authenticate`. */
module RoomRoutes {
  import opened Records
  import opened JsString
  import opened Http
  import opened Store

  /** `req.user.id || req.user.userId`. */
  function CallerId(c: Claims): (r: Option<UserId>)
    ensures r.Some? ==> r.value != ""
  {
    if Truthy(c.id) then c.id else if Truthy(c.userId) then c.userId else None
  }

  /** `getUserIdFromToken`: the same token extraction and verification as the
      middleware, answering with the caller's id or nothing instead of an
      error response. */
  function GetUserIdFromToken(header: Option<string>, verify: Verifier): (r: Option<UserId>)
    ensures r.Some? <==> Authenticate(header, verify).Authorized? && CallerId(Authenticate(header, verify).claims).Some?
    ensures r.Some? ==> r == CallerId(Authenticate(header, verify).claims)
  {
    match BearerToken(header)
    case None => None
    case Some(token) =>
      match verify(token)
      case None => None
      case Some(claims) => CallerId(claims)
  }

  /** `findIndex` over the members by user id. */
  function FirstIndexOf(ms: seq<Member>, u: UserId): (r: Option<nat>)
    ensures r.Some? ==> r.value < |ms| && ms[r.value].userId == u
    ensures r.Some? ==> forall j :: 0 <= j < r.value ==> ms[j].userId != u
    ensures r.None? <==> !IsMember(ms, u)
  {
    if ms == [] then None
    else if ms[0].userId == u then Some(0)
    else
      match FirstIndexOf(ms[1..], u)
      case None =>
        assert forall j :: 1 <= j < |ms| ==> ms[j].userId == ms[1..][j - 1].userId;
        None
      case Some(i) => Some(i + 1)
  }

  /** `splice(i, 1)`: the member at position `i` is gone and the others keep
      their order. */
  function RemoveAt(ms: seq<Member>, i: nat): (r: seq<Member>)
    requires i < |ms|
    ensures |r| == |ms| - 1
    ensures forall j :: 0 <= j < i ==> r[j] == ms[j]
    ensures forall j :: i <= j < |r| ==> r[j] == ms[j + 1]
  {
    ms[..i] + ms[i + 1..]
  }

  /** Removing an entry from a member list without repeats keeps it without
      repeats and drops the removed user entirely. */
  lemma RemoveAtKeepsDistinct(ms: seq<Member>, i: nat)
    requires i < |ms| && NoDuplicates(MemberIds(ms))
    ensures NoDuplicates(MemberIds(RemoveAt(ms, i))) && !IsMember(RemoveAt(ms, i), ms[i].userId)
  {
  }

  /** `push` of a new member: the earlier members are unchanged and the new
      one is last. */
  function Append(ms: seq<Member>, m: Member): (r: seq<Member>)
    ensures |r| == |ms| + 1 && r[..|ms|] == ms && r[|ms|] == m
    ensures IsMember(r, m.userId)
  {
    var r := ms + [m];
    assert r[..|ms|] == ms;
    assert MemberIds(r)[|ms|] == m.userId;
    r
  }

  /** Appending a user who is not yet a member keeps the ids distinct. */
  lemma AppendKeepsDistinct(ms: seq<Member>, m: Member)
    requires NoDuplicates(MemberIds(ms)) && !IsMember(ms, m.userId)
    ensures NoDuplicates(MemberIds(Append(ms, m)))
  {
  }

  /** The rooms among `rooms` that list `u` as a member. */
  function RoomsOf(rooms: map<RoomId, Room>, u: UserId): (r: map<RoomId, Room>)
    ensures forall id :: id in r <==> id in rooms && IsMember(rooms[id].members, u)
    ensures forall id :: id in r ==> r[id] == rooms[id]
  {
    map id | id in rooms && IsMember(rooms[id].members, u) :: rooms[id]
  }

  /** The JavaScript value of `req.user.id || req.user.userId`: `id` when it
      is truthy, otherwise whatever `userId` holds, `undefined` included. */
  function CallerValue(c: Claims): (r: Option<string>)
    ensures Truthy(r) <==> CallerId(c).Some?
    ensures Truthy(r) ==> r == CallerId(c)
    ensures r.None? <==> !Truthy(c.id) && c.userId.None?
  {
    if Truthy(c.id) then c.id else c.userId
  }

  /** GET `/`: the rooms having a member with the caller's id. Mongoose drops
      a filter whose value is `undefined`, so a caller without any id gets
      every room; the empty id never casts to an ObjectId and fails the
      query. */
  function ListRooms(db: Database, header: Option<string>, verify: Verifier): (r: Response)
    reads db
    ensures Authenticate(header, verify).Rejected? ==> r == Authenticate(header, verify).response
    ensures Authenticate(header, verify).Authorized? && CallerValue(Authenticate(header, verify).claims) == Some("") ==>
      r == ServerError
    ensures Authenticate(header, verify).Authorized? && CallerValue(Authenticate(header, verify).claims) != Some("") ==>
      r.status == 200 && r.body.RoomList?
    ensures Authenticate(header, verify).Authorized? && CallerValue(Authenticate(header, verify).claims).None? ==>
      r.body.rooms == db.rooms
    ensures Authenticate(header, verify).Authorized? && CallerId(Authenticate(header, verify).claims).Some? ==>
      var u := CallerId(Authenticate(header, verify).claims).value;
      forall id :: id in r.body.rooms <==> id in db.rooms && IsMember(db.rooms[id].members, u)
    ensures r.body.RoomList? ==> forall id :: id in r.body.rooms ==> id in db.rooms && r.body.rooms[id] == db.rooms[id]
  {
    match Authenticate(header, verify)
    case Rejected(response) => response
    case Authorized(claims) =>
      match CallerValue(claims)
      case None => Response(200, RoomList(db.rooms))
      case Some(u) => if u == "" then ServerError else Response(200, RoomList(RoomsOf(db.rooms, u)))
  }

  /** The `!name || name.trim().length === 0` test. */
  function BlankName(name: Option<string>): (blank: bool)
    ensures blank <==> name.None? || AllWhitespace(name.value)
  {
    if !Truthy(name) then true
    else
      BlankIffWhitespace(name.value);
      Trim(name.value) == ""
  }

  /** POST `/`: create a room named by the trimmed name, the caller its only
      member. */
  method CreateRoom(db: Database, header: Option<string>, verify: Verifier, name: Option<string>, now: Timestamp)
    returns (res: Response)
    requires db.Valid()
    modifies db
    ensures db.Valid()
    ensures Authenticate(header, verify).Rejected? ==>
      res == Authenticate(header, verify).response && unchanged(db)
    ensures Authenticate(header, verify).Authorized? && BlankName(name) ==>
      res == Response(400, Note("Room name is required")) && unchanged(db)
    ensures Authenticate(header, verify).Authorized? && !BlankName(name) && NameTaken(old(db.rooms), Trim(name.value)) ==>
      res == Response(400, Note("Room name already exists")) && unchanged(db)
    ensures Authenticate(header, verify).Authorized? && !BlankName(name) && !NameTaken(old(db.rooms), Trim(name.value))
            && CallerId(Authenticate(header, verify).claims).None? ==>
      // a member without a user id fails the schema's `required` check
      res == ServerError && unchanged(db)
    ensures Authenticate(header, verify).Authorized? && !BlankName(name) && !NameTaken(old(db.rooms), Trim(name.value))
            && CallerId(Authenticate(header, verify).claims).Some? ==>
      var id := old(db.nextRoomId);
      var room := Room(Trim(name.value), [Member(CallerId(Authenticate(header, verify).claims).value, now)]);
      && res == Response(201, RoomDoc(id, room))
      && id !in old(db.rooms)
      && db.rooms == old(db.rooms)[id := room]
      && db.nextRoomId == id + 1
      && db.users == old(db.users) && db.messages == old(db.messages)
  {
    var auth := Authenticate(header, verify);
    if auth.Rejected? {
      return auth.response;
    }
    if BlankName(name) {
      return Response(400, Note("Room name is required"));
    }
    var trimmed := Trim(name.value);
    if FindByName(db.rooms, trimmed, 0, db.nextRoomId).Some? {
      return Response(400, Note("Room name already exists"));
    }
    var caller := CallerId(auth.claims);
    if caller.None? {
      return ServerError;
    }
    res := InsertRoom(db, trimmed, caller.value, now);
  }

  /** The `save` of a new room under a trimmed, non-empty, unused name, the
      creator its only member. */
  method InsertRoom(db: Database, name: string, creator: UserId, now: Timestamp) returns (res: Response)
    requires db.Valid() && name != "" && Tight(name) && !NameTaken(db.rooms, name)
    modifies db
    ensures db.Valid()
    ensures var id := old(db.nextRoomId);
      var room := Room(name, [Member(creator, now)]);
      && res == Response(201, RoomDoc(id, room))
      && id !in old(db.rooms)
      && db.rooms == old(db.rooms)[id := room]
      && db.nextRoomId == id + 1
      && db.users == old(db.users) && db.messages == old(db.messages)
  {
    var room := Room(name, [Member(creator, now)]);
    assert MemberIds(room.members) == [creator];
    var id := db.nextRoomId;
    db.rooms := db.rooms[id := room];
    db.nextRoomId := id + 1;
    res := Response(201, RoomDoc(id, room));
  }

  /** POST `/:id/join`: append the caller to an existing room. */
  method JoinRoom(db: Database, header: Option<string>, verify: Verifier, id: RoomId, now: Timestamp)
    returns (res: Response)
    requires db.Valid()
    modifies db
    ensures db.Valid()
    ensures Authenticate(header, verify).Rejected? ==>
      res == Authenticate(header, verify).response && unchanged(db)
    ensures Authenticate(header, verify).Authorized? && id !in old(db.rooms) ==>
      res == Response(404, Note("Room not found")) && unchanged(db)
    ensures Authenticate(header, verify).Authorized? && id in old(db.rooms)
            && CallerId(Authenticate(header, verify).claims).Some?
            && IsMember(old(db.rooms[id].members), CallerId(Authenticate(header, verify).claims).value) ==>
      res == Response(400, Note("Already a member of this room")) && unchanged(db)
    ensures Authenticate(header, verify).Authorized? && id in old(db.rooms)
            && CallerId(Authenticate(header, verify).claims).None? ==>
      res == ServerError && unchanged(db)
    ensures Authenticate(header, verify).Authorized? && id in old(db.rooms)
            && CallerId(Authenticate(header, verify).claims).Some?
            && !IsMember(old(db.rooms[id].members), CallerId(Authenticate(header, verify).claims).value) ==>
      var old_room := old(db.rooms[id]);
      var room := Room(old_room.name, old_room.members + [Member(CallerId(Authenticate(header, verify).claims).value, now)]);
      && res == Response(200, RoomDoc(id, room))
      && db.rooms == old(db.rooms)[id := room]
      && db.nextRoomId == old(db.nextRoomId) && db.users == old(db.users) && db.messages == old(db.messages)
  {
    var auth := Authenticate(header, verify);
    if auth.Rejected? {
      return auth.response;
    }
    if id !in db.rooms {
      return Response(404, Note("Room not found"));
    }
    var caller := CallerId(auth.claims);
    var room := db.rooms[id];
    if caller.Some? && IsMember(room.members, caller.value) {
      return Response(400, Note("Already a member of this room"));
    }
    if caller.None? {
      return ServerError;
    }
    var joined := AddMember(db, id, Member(caller.value, now));
    res := Response(200, RoomDoc(id, joined));
  }

  /** The `push` and `save` of a member who is not yet in the room. */
  method AddMember(db: Database, id: RoomId, m: Member) returns (joined: Room)
    requires db.Valid() && id in db.rooms && !IsMember(db.rooms[id].members, m.userId)
    modifies db`rooms
    ensures db.Valid()
    ensures joined == Room(old(db.rooms[id].name), old(db.rooms[id].members) + [m])
    ensures IsMember(joined.members, m.userId)
    ensures db.rooms == old(db.rooms)[id := joined]
  {
    var room := db.rooms[id];
    AppendKeepsDistinct(room.members, m);
    joined := Room(room.name, Append(room.members, m));
    db.rooms := db.rooms[id := joined];
  }

  /** POST `/:id/leave`: remove the caller's first entry; a room left empty
      is deleted instead of saved. */
  method LeaveRoom(db: Database, header: Option<string>, verify: Verifier, id: RoomId)
    returns (res: Response)
    requires db.Valid()
    modifies db
    ensures db.Valid()
    ensures db.nextRoomId == old(db.nextRoomId) && db.users == old(db.users) && db.messages == old(db.messages)
    ensures Authenticate(header, verify).Rejected? ==>
      res == Authenticate(header, verify).response && unchanged(db)
    ensures Authenticate(header, verify).Authorized? && id !in old(db.rooms) ==>
      res == Response(404, Note("Room not found")) && unchanged(db)
    ensures Authenticate(header, verify).Authorized? && id in old(db.rooms)
            && (CallerId(Authenticate(header, verify).claims).None?
                || !IsMember(old(db.rooms[id].members), CallerId(Authenticate(header, verify).claims).value)) ==>
      res == Response(400, Note("Not a member of this room")) && unchanged(db)
    ensures Authenticate(header, verify).Authorized? && id in old(db.rooms)
            && CallerId(Authenticate(header, verify).claims).Some?
            && IsMember(old(db.rooms[id].members), CallerId(Authenticate(header, verify).claims).value) ==>
      var u := CallerId(Authenticate(header, verify).claims).value;
      var ms := old(db.rooms[id].members);
      var i := FirstIndexOf(ms, u).value;
      var rest := ms[..i] + ms[i + 1..];
      && !IsMember(rest, u)
      && (rest == [] ==> res == Response(200, Note("Room deleted as no members remain")) && db.rooms == old(db.rooms) - {id})
      && (rest != [] ==> res == Response(200, RoomDoc(id, Room(old(db.rooms[id].name), rest)))
                         && db.rooms == old(db.rooms)[id := Room(old(db.rooms[id].name), rest)])
  {
    var auth := Authenticate(header, verify);
    if auth.Rejected? {
      return auth.response;
    }
    if id !in db.rooms {
      return Response(404, Note("Room not found"));
    }
    var room := db.rooms[id];
    var caller := CallerId(auth.claims);
    // `findIndex` compares against `undefined` when the caller has no id
    var index := if caller.Some? then FirstIndexOf(room.members, caller.value) else None;
    if index.None? {
      return Response(400, Note("Not a member of this room"));
    }
    RemoveAtKeepsDistinct(room.members, index.value);
    var rest := RemoveAt(room.members, index.value);
    assert rest == room.members[..index.value] + room.members[index.value + 1..];
    if rest == [] {
      db.rooms := db.rooms - {id};
      return Response(200, Note("Room deleted as no members remain"));
    }
    var left := Room(room.name, rest);
    db.rooms := db.rooms[id := left];
    res := Response(200, RoomDoc(id, left));
  }

  /** GET `/search`: a missing or blank query finds nothing; otherwise the
      rooms whose name the trimmed query matches, under a matcher that stands
      for the store's case-insensitive regular expression. */
  function SearchRooms(db: Database, header: Option<string>, verify: Verifier, q: Option<string>,
                       matches: (string, string) -> bool): (r: Response)
    reads db
    ensures Authenticate(header, verify).Rejected? ==> r == Authenticate(header, verify).response
    ensures Authenticate(header, verify).Authorized? && BlankName(q) ==> r == Response(200, RoomList(map[]))
    ensures Authenticate(header, verify).Authorized? && !BlankName(q) ==>
      r.status == 200 && r.body.RoomList?
      && forall id :: id in r.body.rooms <==> id in db.rooms && matches(Trim(q.value), db.rooms[id].name)
    ensures r.body.RoomList? ==> forall id :: id in r.body.rooms ==> id in db.rooms && r.body.rooms[id] == db.rooms[id]
  {
    match Authenticate(header, verify)
    case Rejected(response) => response
    case Authorized(_) =>
      if BlankName(q) then Response(200, RoomList(map[]))
      else
        var pattern := Trim(q.value);
        Response(200, RoomList(map id | id in db.rooms && matches(pattern, db.rooms[id].name) :: db.rooms[id]))
  }
}
