/** Record shapes shared by the server and the client: the stored documents
    (users, rooms with their members, messages) and the payloads that travel
    over the socket connection. */
module Records {

  datatype Option<+T> = None | Some(value: T)

  /** A JavaScript value that is present and truthy when it is a string:
      `undefined`, `null` and `""` are all falsy. */
  predicate Truthy(s: Option<string>) {
    s.Some? && s.value != ""
  }

  type UserId = string
  /** Room and message identifiers are allocated by the store; the model
      allocates them from a counter, so every id ever handed out is distinct. */
  type RoomId = nat
  type MessageId = nat
  /** A server-side socket connection. */
  type ConnId = nat
  /** Creation and join times; the model treats them as opaque values. */
  type Timestamp = nat

  /** A 32-byte symmetric room key, as drawn by `crypto.randomBytes(32)`. */
  type RoomKeyBytes = s: seq<bv8> | |s| == 32 witness seq(32, _ => 0 as bv8)

  /** A user document as this core reads it: the display name and the
      long-term public key, which stays unset until the client uploads one. */
  datatype User = User(username: string, publicKey: Option<string>)

  /** The "member has a public key" test shared by the key bundle and the
      public-key listing: the stored key must be present and non-empty. */
  predicate HasPublicKey(u: User) {
    Truthy(u.publicKey)
  }

  datatype Member = Member(userId: UserId, joinedAt: Timestamp)

  /** Every member refers to a stored user (a member whose user was removed
      would be replaced by `null` when the store fills in the user). */
  predicate AllResolved(ms: seq<Member>, users: map<UserId, User>) {
    forall m :: m in ms ==> m.userId in users
  }

  /** The ids of the members whose user record carries a public key. */
  function KeyHolders(ms: seq<Member>, users: map<UserId, User>): set<UserId> {
    set m | m in ms && m.userId in users && HasPublicKey(users[m.userId]) :: m.userId
  }

  /** A room: its (trimmed, unique) name and its members in join order. */
  datatype Room = Room(name: string, members: seq<Member>)

  function MemberIds(ms: seq<Member>): (ids: seq<UserId>)
    ensures |ids| == |ms|
    ensures forall i :: 0 <= i < |ms| ==> ids[i] == ms[i].userId
  {
    seq(|ms|, i requires 0 <= i < |ms| => ms[i].userId)
  }

  predicate IsMember(ms: seq<Member>, u: UserId) {
    u in MemberIds(ms)
  }

  predicate NoDuplicates<T(==)>(s: seq<T>) {
    forall i, j :: 0 <= i < j < |s| ==> s[i] != s[j]
  }

  /** A stored message. `content` is a required string field; `readBy` is
      kept without repeats; `isEncrypted` defaults to false. */
  datatype Message = Message(
    roomId: RoomId,
    sender: UserId,
    content: string,
    readBy: seq<UserId>,
    isEncrypted: bool,
    ciphertext: Option<string>,
    nonce: Option<string>)

  datatype Keypair = Keypair(publicKey: string, privateKey: string)

  // ---- wire formats ----

  /** The `send-message` payload as the server reads it; every field may be
      missing. */
  datatype SendPayload = SendPayload(
    token: Option<string>,
    roomId: Option<RoomId>,
    username: Option<string>,
    content: Option<string>,
    isEncrypted: Option<bool>,
    ciphertext: Option<string>,
    nonce: Option<string>)

  /** The sender after the store replaced its id by `{_id, username}`. */
  datatype Sender = Sender(id: UserId, username: string)

  /** The `receive-message` payload (the timestamp is left out). */
  datatype Delivered = Delivered(
    id: MessageId,
    roomId: RoomId,
    sender: Sender,
    content: string,
    isEncrypted: bool,
    ciphertext: Option<string>,
    nonce: Option<string>)

  /** Events the server emits. */
  datatype ServerEvent =
    | RoomKeyDistribution(roomId: RoomId, encryptedKeys: map<UserId, string>)
    | ReceiveMessage(msg: Delivered)
    | UserTyping(user: string, isTyping: bool)
    | MessageRead(messageId: MessageId, userId: UserId)
    | Error(message: string)

  /** Events the client emits. */
  datatype ClientEvent =
    | RequestRoomKey(roomId: RoomId)
    | SendMessage(payload: SendPayload)
}
