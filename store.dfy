/** The persistent collections (users, rooms, messages) as one mutable
    object, with the invariants every route and handler keeps. */
module Store {
  import opened Records
  import opened JsString

  /** A stored room has a non-empty name without whitespace at either end
      (one the schema's `trim` setter leaves as it is, `StoredNameIsTrimmed`),
      at least one member, and never lists the same user twice. */
  predicate ValidRoom(r: Room) {
    && r.name != "" && Tight(r.name)
    && |r.members| > 0 && NoDuplicates(MemberIds(r.members))
  }

  predicate UniqueNames(rooms: map<RoomId, Room>) {
    forall a, b :: a in rooms && b in rooms && a != b ==> rooms[a].name != rooms[b].name
  }

  predicate NameTaken(rooms: map<RoomId, Room>, name: string) {
    exists id :: id in rooms && rooms[id].name == name
  }

  class Database {
    var users: map<UserId, User>
    var rooms: map<RoomId, Room>
    /** The id the next created room receives; every stored id is below it. */
    var nextRoomId: nat
    /** The message collection; a message's id is its position. */
    var messages: seq<Message>

    ghost predicate Valid()
      reads this
    {
      && (forall id :: id in rooms ==> id < nextRoomId && ValidRoom(rooms[id]))
      && UniqueNames(rooms)
      && (forall i :: 0 <= i < |messages| ==> NoDuplicates(messages[i].readBy))
    }

    constructor (users: map<UserId, User>)
      ensures Valid()
      ensures this.users == users && rooms == map[] && nextRoomId == 0 && messages == []
    {
      this.users := users;
      rooms := map[];
      nextRoomId := 0;
      messages := [];
    }
  }

  /** `Room.findOne({name})`: the first room, in creation order, whose name is
      exactly `name`, searching ids from `from` below `bound`. */
  function FindByName(rooms: map<RoomId, Room>, name: string, from: nat, bound: nat): (r: Option<RoomId>)
    ensures r.Some? ==> from <= r.value < bound && r.value in rooms && rooms[r.value].name == name
    ensures r.Some? ==> forall id :: from <= id < r.value && id in rooms ==> rooms[id].name != name
    ensures r.None? ==> forall id :: from <= id < bound && id in rooms ==> rooms[id].name != name
    decreases bound - from
  {
    if from >= bound then None
    else if from in rooms && rooms[from].name == name then Some(from)
    else FindByName(rooms, name, from + 1, bound)
  }

  /** Every stored name is its own trimmed form. */
  lemma StoredNameIsTrimmed(db: Database, id: RoomId)
    requires db.Valid() && id in db.rooms
    ensures Trim(db.rooms[id].name) == db.rooms[id].name
  {
    var n := db.rooms[id].name;
    TrimOf([], n, []);
    assert [] + n + [] == n;
  }

  /** In a valid store the lookup by name finds a room exactly when one has
      that name. */
  lemma FindByNameComplete(db: Database, name: string)
    requires db.Valid()
    ensures FindByName(db.rooms, name, 0, db.nextRoomId).None? <==> !NameTaken(db.rooms, name)
  {
  }
}
