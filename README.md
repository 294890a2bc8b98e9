# Real-time chat: room gateway, membership routes and client crypto agent

This project is a Dafny model of the core of the real-time chat
application's messaging and end-to-end key-distribution protocol. It
covers three cooperating pieces:

- **The socket gateway** (`server/index.js`), a state machine over three
  things:
  - the socket-room subscriptions;
  - the message store;
  - a log of every emitted event, together with its exact recipient set.

  It handles `join-room`, `request-room-key`, `send-message`, `typing`,
  `mark-read` and `disconnect`.
- **The REST routes** (`server/routes/rooms.js`, `server/routes/crypto.js`),
  which maintain the room table and each user's public key. They cover:
  - the bearer-token middleware;
  - listing, creating, joining, leaving and searching rooms;
  - uploading a public key;
  - the public-key listing of a room's members;
  - the find-or-create join.
- **The client crypto agent and socket session** (`client/utils/crypto.ts`,
  `client/utils/socket.ts`). They cover:
  - the keypair and the room-key cache in browser storage;
  - the initialise-once keypair routine;
  - the shared connection;
  - the encrypted send, the decryption of incoming messages, and the
    unwrapping of a key bundle into the cache.

## How the system is represented

- **MongoDB collections** become one `Store.Database` object, holding:
  - users;
  - rooms keyed by a numeric id, allocated from a counter;
  - messages, where a message's id is its position.

  Its invariant `Valid()` says that every room has a member, that no room
  lists a user twice, that room names are unique, non-empty and trimmed,
  and that no message's `readBy` has a repeat. Every route and handler preserves it.
- **Token verification** is a parameter `Verifier` that returns the claims
  (`id`, `userId`) or fails.
- **Crypto primitives** are function parameters that return an optional
  result. A failure stands for a thrown exception. They cover:
  - RSA-OAEP sealing on the server;
  - sealed-box opening on the client;
  - secret-box encryption and decryption.

  Round trips through them appear only as explicit `requires` of the
  lemmas that need them.
- **Randomness** is passed in as a parameter: the fresh 32-byte room key,
  the generated keypair and the message nonce.
- **Timestamps** are opaque values.
- **The case-insensitive regex of room search** is a matcher parameter.
- **The `trim` setter** on `Room.name` (`server/models/Room.js:8`) applies
  both to stored names and to the name filter of a lookup. So
  `/join-room` and `/room-members` look up, store and report the trimmed
  name, even though `server/routes/crypto.js` never trims.
- **Each socket handler** runs as one atomic step.
- **String trimming and splitting** follow ECMAScript:
  - `trim` removes the whitespace and line-terminator code points;
  - `split(' ')` keeps empty pieces.

  Both are in `JsString`.

On one point the code and the system's design description disagree, and
the model follows the code:

- The design says the message pipeline accepts an encrypted payload
  `{ciphertext, nonce, isEncrypted: true}`.
- In the code, the `Message` schema makes `content` required
  (`server/models/Message.js:13-16`), and the client's encrypted send
  carries no `content` (`client/utils/socket.ts:35-41`).
- So every encrypted send is refused, either with "Failed to send message"
  or with an earlier refusal. `Protocol.EncryptedSendRefused` states this.

Further differences between the design and the code, all of which the
model follows the code on:

- The design's `@ai` routing does not exist in the gateway.
- `mark-read` records the `userId` taken from the payload, not a verified
  identity.

## Model

| member | source | states |
|---|---|---|
| Gateway.BuildBundle | server/index.js:57-72 | the loop succeeds exactly when every member resolves to a user and every seal succeeds; the bundle then has an entry, keyed by user id, for exactly the members with a public key, and each entry seals the same room key under that member's key |
| Gateway.KeyDistribution | server/index.js:55-77 | the event exists exactly when the room is known and the loop completes; it names the room and holds one entry per key holder, each the room key sealed under that holder's key |
| Gateway.Gateway.DistributeRoomKey | server/index.js:55-77 | one `room-key-distribution` of that bundle to every subscriber of the room; for an unknown room nothing is emitted; where the loop throws, nothing is emitted either (the uncaught exception itself is under "Left out") |
| Gateway.Gateway.JoinRoom | server/index.js:50-78 | the connection is subscribed first (also for an unknown room), then the distribution goes to all subscribers, the joiner included |
| Gateway.Gateway.RequestRoomKey | server/index.js:80-105 | the same distribution as `join-room`, with subscriptions unchanged |
| Gateway.SendToken | server/index.js:109 | the payload token, else the handshake token |
| Gateway.DecideSend | server/index.js:107-153 | "Authentication required" exactly when there is no token; a failed verification, a failed schema check or a failed save gives "Failed to send message"; "User not found" exactly when the caller id is missing or unknown; on acceptance the sender is the verified caller, `isEncrypted` is false unless the payload says true, content, ciphertext and nonce are copied, and `readBy` is empty |
| Gateway.DraftOf | server/index.js:123-130 | the `messageData` object: the sender is the verified caller, `isEncrypted` is false unless the payload says true (so false when omitted), and room, content, ciphertext and nonce are the payload's |
| Gateway.Validate | server/index.js:133-134 | a record is produced exactly when `roomId` is present and `content` is non-empty, which the schema requires |
| Gateway.Gateway.SendMessage | server/index.js:107-154 | a refusal sends one error event to the sender alone and stores nothing; an acceptance appends one message and sends it once to every subscriber of the room, with its fields as stored; the sender's own connection receives it only if it has joined that room |
| Gateway.DeliveredOf | server/index.js:140-149 | the `receive-message` payload carries the stored message's id, room, content, `isEncrypted`, ciphertext and nonce unchanged, with the populated sender |
| Gateway.Gateway.Typing | server/index.js:156-161 | one `user-typing {user, isTyping}` goes to the room minus the sender; the store and the subscriptions are unchanged |
| Gateway.AddToSet | server/index.js:166-168 | set insertion: the result holds exactly the old readers plus the new one, a repeat changes nothing, and having no repeats is preserved |
| Gateway.Gateway.MarkRead | server/index.js:163-174 | the reader is added to that message's `readBy` with set semantics, a repeat leaves the store unchanged, no other message changes, and the receipt goes to the room minus the acknowledging connection |
| Gateway.Gateway.Disconnect | server/index.js:176-178 | the connection leaves every socket room and nothing else changes |
| JsString.Split | server/routes/rooms.js:11 | `split(' ')` always yields at least one piece; `JoinSplit` and `SplitPiecesAvoidSeparator` pin down which |
| Http.BearerToken | server/routes/rooms.js:10-11 | the token is the second space-separated word of the header, non-empty and without spaces |
| Http.BearerTokenOf | server/routes/rooms.js:10-11 | a `scheme token` header yields exactly `token` |
| Http.BearerTokenNeedsSpace | server/routes/rooms.js:10-11 | a header without a space carries no token |
| Http.Authenticate | server/routes/rooms.js:9-24 | 401 exactly when no token is present, 403 exactly when verification fails, and otherwise the handler runs with the verified claims |
| RoomRoutes.CallerId | server/routes/rooms.js:44 | `id`, else `userId`, and never an empty id |
| RoomRoutes.GetUserIdFromToken | server/routes/rooms.js:27-39 | an id exactly when the middleware would authorise and the claims name a caller |
| RoomRoutes.RoomsOf | server/routes/rooms.js:45-47 | exactly the rooms having a member with that id, each unchanged |
| RoomRoutes.CallerValue | server/routes/rooms.js:44 | the value of `id`, or else of `userId`, as the `or` operator gives it: truthy exactly when `CallerId` names a caller, and `undefined` exactly when `id` is falsy and `userId` is absent |
| RoomRoutes.ListRooms | server/routes/rooms.js:42-54 | exactly the stored rooms that have a member with the caller's id, each unchanged; a caller without any id gets every room, because Mongoose drops an `undefined` filter; an empty id fails the cast with 500 |
| RoomRoutes.BlankName | server/routes/rooms.js:61 | a name is blank exactly when it is missing or all whitespace |
| RoomRoutes.CreateRoom | server/routes/rooms.js:57-87 | a missing or blank name gives 400 "Room name is required" and a trimmed name already in use gives 400 "Room name already exists", both without change; otherwise one new room holding the trimmed name, with the creator as its only member, and the store invariant kept |
| RoomRoutes.InsertRoom | server/routes/rooms.js:71-79 | a new room under a trimmed, non-empty, unused name, with the creator as its only member, is stored under the next id, and nothing else changes |
| RoomRoutes.AddMember | server/routes/rooms.js:107-112 | the member is appended last to that room alone, ids stay distinct and the store invariant is kept |
| RoomRoutes.JoinRoom | server/routes/rooms.js:90-120 | an unknown room gives 404 and an existing member gives 400, both without change; otherwise exactly one member is appended last, earlier members are unchanged and ids stay distinct |
| RoomRoutes.FirstIndexOf | server/routes/rooms.js:132-134 | the first position holding the user, and none exactly when the user is not a member |
| RoomRoutes.RemoveAt | server/routes/rooms.js:140 | the entry is removed and the others keep their order |
| RoomRoutes.RemoveAtKeepsDistinct | server/routes/rooms.js:140 | removal keeps ids distinct and removes the user entirely |
| RoomRoutes.Append | server/routes/rooms.js:107-110 | the new member is last and earlier members are unchanged |
| RoomRoutes.AppendKeepsDistinct | server/routes/rooms.js:107-110 | appending a non-member keeps ids distinct |
| RoomRoutes.LeaveRoom | server/routes/rooms.js:123-156 | an unknown room gives 404 and a non-member gives 400, both without change; otherwise exactly the first matching entry is removed, the others keep their order, and a room left empty is deleted rather than saved |
| RoomRoutes.SearchRooms | server/routes/rooms.js:159-176 | a missing or blank query returns an empty list; otherwise the rooms whose name the matcher accepts for the trimmed query |
| CryptoRoutes.KeyOwner | server/routes/crypto.js:37 | the caller is named by the `userId` claim alone |
| CryptoRoutes.UpdatePublicKey | server/routes/crypto.js:27-54 | a missing key gives 400, an empty `userId` gives 500, and an unknown user gives 404, all without change; otherwise only that user's key changes, to the given value, and it is echoed back; without a `userId` claim the `{_id: undefined}` filter matches any user, so one stored user, whichever the database picks, gets the key and 200 is answered (404 only when no user is stored) |
| CryptoRoutes.PublicMembers | server/routes/crypto.js:68-72 | the listing exists exactly when every member resolves; each entry is `{userId, username, publicKey}` of a member with a public key |
| CryptoRoutes.PublicMembersAreKeyHolders | server/routes/crypto.js:68-72 | the listed ids are exactly the key holders, the same predicate that selects the key bundle's entries |
| CryptoRoutes.PublicMembersKeepOrder | server/routes/crypto.js:68-72 | the listing follows member order |
| CryptoRoutes.RoomMembers | server/routes/crypto.js:57-79 | the room is looked up by its trimmed name, giving 404 when no room has that name; otherwise 200 with the public-key listing of that room's members |
| CryptoRoutes.FindOrCreate | server/routes/crypto.js:91-110 | for a trimmed non-empty name: an existing member leaves the store unchanged; otherwise the caller is appended to the room of that name, or a room of that name is created with the caller as its one member; the caller ends a member and `memberCount` is the room's member count |
| CryptoRoutes.JoinRoomByName | server/routes/crypto.js:82-115 | a missing `roomId` gives 400; a name that trims to empty, or a caller without an id, gives 500 and no change; otherwise the find-or-create step on the trimmed name, which is also the reported `roomId` |
| Store.FindByName | server/routes/crypto.js:62 | the first room, in creation order, with exactly that name, and none when no id below the bound has it |
| Store.StoredNameIsTrimmed | server/models/Room.js:8 | every stored name is its own trimmed form |
| Store.FindByNameComplete | server/routes/crypto.js:91 | in a valid store the lookup fails exactly when no room has the name; this follows from the contract of `Store.FindByName` |
| JsString.Trim | server/routes/rooms.js:61 | the result has no whitespace at either end |
| JsString.TrimOf | server/routes/rooms.js:66 | trimming removes exactly leading and trailing whitespace |
| JsString.BlankIffWhitespace | server/routes/rooms.js:61 | a name trims to empty exactly when it is all whitespace |
| JsString.TrimIdempotent | server/routes/rooms.js:72 | trimming twice is trimming once |
| JsString.JoinSplit | server/routes/rooms.js:11 | joining the split pieces with the separator gives back the header |
| JsString.SplitPiecesAvoidSeparator | server/routes/rooms.js:11 | no piece of the split contains the separator |
| JsString.SplitAfterWord | server/routes/rooms.js:11 | splitting after a first word gives that word followed by the split of the rest |
| ClientCrypto.CryptoAgent.InitSodium | client/utils/crypto.ts:6-11 | the flag is set, and once it is set a call changes nothing |
| ClientCrypto.CryptoAgent.GetUserKeypair | client/utils/crypto.ts:36-45 | a pair exactly when there is browser storage and both stored keys are present and non-empty |
| ClientCrypto.CryptoAgent.StoreUserKeypair | client/utils/crypto.ts:26-33 | afterwards `GetUserKeypair` gives back the stored pair, unless one of its keys is empty; without browser storage nothing changes |
| ClientCrypto.CryptoAgent.GenerateUserKeypair | client/utils/crypto.ts:14-21 | the library is initialised and the generated pair is returned |
| ClientCrypto.CryptoAgent.InitializeUserCrypto | client/utils/crypto.ts:126-134 | an existing pair is returned without generating or changing anything; otherwise the generated pair is stored and returned; a returned pair is the stored one |
| ClientCrypto.InitializeTwice | client/utils/crypto.ts:126-134 | a second initialisation returns the first call's pair |
| ClientCrypto.CryptoAgent.GetRoomKey | client/utils/crypto.ts:117-123 | a key exactly when one was stored for the room and it is non-empty; none for a room never stored |
| ClientCrypto.CryptoAgent.StoreRoomKey | client/utils/crypto.ts:108-114 | afterwards `GetRoomKey` gives back the stored key when it is non-empty, and every other room's entry is unchanged |
| ClientCrypto.CryptoAgent.EncryptMessage | client/utils/crypto.ts:55-66 | the ciphertext with the nonce used, or a failure exactly when encryption throws |
| ClientCrypto.OpenMessage | client/utils/crypto.ts:71-80 | with both ciphertext and nonce present, exactly what decryption gives; with either missing, nothing |
| ClientCrypto.CryptoAgent.DecryptMessage | client/utils/crypto.ts:69-81 | any failure returns nothing instead of throwing |
| ClientCrypto.CryptoAgent.DecryptRoomKeyForUser | client/utils/crypto.ts:93-105 | the opened key, or nothing on failure instead of throwing |
| ClientSocket.Session.GetSocket | client/utils/socket.ts:6-13 | the existing connection, or a fresh connected one that is kept |
| ClientSocket.Session.DisconnectSocket | client/utils/socket.ts:15-20 | the connection is closed and forgotten; with none, nothing happens |
| ClientSocket.SocketLifecycle | client/utils/socket.ts:6-20 | the same connection until a disconnect, and a different one afterwards |
| ClientSocket.EncryptedPayload | client/utils/socket.ts:35-41 | the payload has `isEncrypted` true, the ciphertext and the nonce, and neither `content` nor token |
| ClientSocket.Session.SendEncryptedMessage | client/utils/socket.ts:23-42 | without a cached key, exactly one `request-room-key {roomId}` is emitted; with one, exactly one `send-message` of the encrypted payload; a failed encryption emits nothing |
| ClientSocket.HandleEncryptedMessage | client/utils/socket.ts:45-68 | an unencrypted message is returned unchanged; without a key the content is the key-missing placeholder; a failed or empty decryption gives the decrypt-failed placeholder, and otherwise the plaintext; all fields but `content` are preserved |
| ClientSocket.UnwrappedRoomKey | client/utils/socket.ts:73-92 | a key exactly when a keypair exists, the user id is set, the bundle has that user's non-empty entry, and opening it gives a non-empty key, and then that key |
| ClientSocket.HandleRoomKeyDistribution | client/utils/socket.ts:71-97 | the cache changes only when a key is unwrapped, and then only the entry for that room, which becomes that key |
| Protocol.EncryptedSendRefused | server/index.js:107-134 | the client's encrypted send is always refused by the gateway: "Authentication required" exactly when the handshake has no token, and otherwise "User not found" or "Failed to send message" (a failed verification, or the save of a message without `content`) |
| Protocol.DeliveredMessageDecrypts | client/utils/socket.ts:58-67 | an accepted encrypted message, as delivered, shows its plaintext at a client holding the room key, given that the secret box opens what it sealed |
| Protocol.KeyHolderUnwrapsBundle | client/utils/socket.ts:80-93 | a key-holding member whose key is on file unwraps exactly the encoding of the server's room key from the bundle, given that opening the sealed key yields that encoding |
| Protocol.OutsiderGetsNoKey | client/utils/socket.ts:81-84 | a user who holds no key in the room finds no entry and caches nothing |

## Left out

- **Database errors.** Errors from the database (the `catch` branches that answer 500 "Server error") are not modelled. The one exception is the message save, which is modelled by the `saveFails` parameter.
- **Casting of ids.** Mongoose casts invalid ids, and a malformed id fails the query. Room and message ids are numbers here, so an id that names nothing behaves like an unknown id. User ids are strings here, and a non-empty malformed user id also behaves like an id that names no user. So the send path answers "User not found" where the source's cast error answers "Failed to send message", and a route answers 404 or an empty listing where the source answers 500. The empty user id, which never casts, fails as in the source in `RoomRoutes.ListRooms` and `CryptoRoutes.UpdatePublicKey`.
- **Populating referenced users.** Populating `members.userId` with `username email` in REST responses is not modelled. Responses carry the stored room.
- **Timestamps.** `joinedAt`, `createdAt` and message timestamps are opaque parameters or are left out. The timestamp field of `receive-message` is omitted.
- **Concurrency.** The interleaving of asynchronous handlers is left out; each handler is one atomic step. The same goes for the ordering of concurrent sends.
- **Logging.** `console` logging is left out.
- **Crypto primitives.** RSA-OAEP (`crypto.publicEncrypt`), libsodium's sealed box and secret box, base64 coding and random generation are foreign calls. They are modelled as parameters. The server seals with RSA while the client opens X25519 sealed boxes, so the two are incompatible. The model does not reconcile this: the round-trip lemmas take the round trip as a hypothesis.
- **Unused helpers.** `generateRoomKey` and `encryptRoomKeyForUser` are not modelled, because no modelled operation calls them.
- **Room search.** The regex engine of room search is a matcher parameter. Only the blank-query branch is stated exactly.
- **Browser storage encoding.** The JSON encoding of browser storage is modelled as maps and options. Malformed stored JSON is not modelled.
- **Socket.io transport.** Socket.io transport and connection options are left out. Server-side removal of a closed connection from its rooms is done by the transport, and `Gateway.Gateway.Disconnect` models that as its effect.
- **AI route.** The AI route (`server/routes/ai.js`) is not part of this model.
- **UI.** The React pages and components are not part of this model.
- ClientSocket.HandleEncryptedMessage: modelled as a function of the agent's state, so it does not record that the decryption call may set the library-ready flag.
- Gateway.Gateway.DistributeRoomKey: the `join-room` and `request-room-key` handlers (`server/index.js:50-105`) have no `catch`. Three things throw: a member whose user is gone, a failing `publicEncrypt`, and a malformed room id in `findById`. Each throw escapes the handler as an unhandled promise rejection, which by default ends the Node server process (Node 15 and later). The model only captures that no distribution is emitted, and keeps the server running.
- Gateway.Gateway.DistributeRoomKey: the seal is a function of the key and the public key, so the model does not capture the randomness of RSA-OAEP padding. Two distributions with the same key are therefore indistinguishable.
- Gateway.Gateway.MarkRead: the model does not capture casting failures of `messageId` or `userId`. Each such failure would end the handler silently, without a receipt.
- Gateway.Gateway.MarkRead: the message id is always present here. A payload without `messageId` makes `findByIdAndUpdate(undefined, …)` filter on `{_id: undefined}`, which Mongoose reduces to `{}`, so the source adds the reader to some arbitrary message; the model cannot express that payload.
