/** Properties that span the client and the server: what becomes of the
    client's encrypted send at the gateway, and what the client makes of a
    key bundle and of a delivered message. */
module Protocol {
  import opened Records
  import opened Store
  import Http
  import opened Gateway
  import opened ClientCrypto
  import opened ClientSocket

  /** The payload of an encrypted send carries no `content`, which the stored
      message requires, so the gateway refuses every such send: for want of
      a token when the handshake has none, otherwise because verification
      fails, the caller is unknown or the save fails. */
  lemma {:induction false} EncryptedSendRefused(users: map<UserId, User>, roomId: RoomId, username: string,
                                                ciphertext: string, nonce: string, handshake: Option<string>,
                                                verify: Http.Verifier, saveFails: bool)
    ensures var r := DecideSend(users, EncryptedPayload(roomId, username, ciphertext, nonce), handshake, verify, saveFails);
      && r.Refused?
      && (r.reason == "Authentication required" <==> !Truthy(handshake))
      && (Truthy(handshake) ==> r.reason == "User not found" || r.reason == "Failed to send message")
  {
    var data := EncryptedPayload(roomId, username, ciphertext, nonce);
    assert !Truthy(data.content);
    assert SendToken(data, handshake).None? <==> !Truthy(handshake);
  }

  /** A message the gateway accepted and delivered shows its plaintext at a
      client holding the room key, provided the secret box opens what it
      sealed; every other field arrives as stored. */
  lemma {:induction false} DeliveredMessageDecrypts(
    agent: CryptoAgent, users: map<UserId, User>, data: SendPayload, handshake: Option<string>,
    verify: Http.Verifier, id: MessageId, roomKey: string, plaintext: string, nonce: string,
    encrypt: Encryptor, decrypt: Decryptor)
    requires DecideSend(users, data, handshake, verify, false).Accepted?
    requires encrypt(plaintext, roomKey, nonce).Some?
    requires decrypt(encrypt(plaintext, roomKey, nonce).value, nonce, roomKey) == Some(plaintext) && plaintext != ""
    requires data.isEncrypted == Some(true)
    requires data.ciphertext == Some(encrypt(plaintext, roomKey, nonce).value) && data.nonce == Some(nonce)
    requires data.roomId.Some? && agent.GetRoomKey(data.roomId.value) == Some(roomKey)
    ensures var o := DecideSend(users, data, handshake, verify, false);
      var d := DeliveredOf(id, o.record, o.sender);
      && d.roomId == data.roomId.value
      && HandleEncryptedMessage(agent, d, decrypt) == d.(content := plaintext)
  {
    var o := DecideSend(users, data, handshake, verify, false);
    var d := DeliveredOf(id, o.record, o.sender);
    assert d.isEncrypted && d.ciphertext == data.ciphertext && d.nonce == data.nonce;
    assert OpenMessage(decrypt, d.ciphertext, d.nonce, roomKey) == Some(plaintext);
  }

  /** A client whose user is a key-holding member of the room, and whose
      stored public key is the one on file, recovers the room key from the
      bundle, provided its opening inverts the server's sealing: opening
      the sealed key gives back the key's client-side encoding `enc`. */
  lemma {:induction false} KeyHolderUnwrapsBundle(
    agent: CryptoAgent, ms: seq<Member>, users: map<UserId, User>, key: RoomKeyBytes,
    seal: Sealer, unseal: Unsealer, enc: RoomKeyBytes -> string)
    requires Distributable(ms, users, key, seal)
    requires agent.GetUserKeypair().Some? && Truthy(agent.userId)
    requires agent.userId.value in KeyHolders(ms, users)
    requires users[agent.userId.value].publicKey == Some(agent.GetUserKeypair().value.publicKey)
    requires seal(key, agent.GetUserKeypair().value.publicKey).value != ""
    requires unseal(seal(key, agent.GetUserKeypair().value.publicKey).value,
                    agent.GetUserKeypair().value.publicKey, agent.GetUserKeypair().value.privateKey) == Some(enc(key))
    requires enc(key) != ""
    ensures UnwrappedRoomKey(agent, SealedBundle(ms, users, key, seal), unseal) == Some(enc(key))
  {
    var u := agent.userId.value;
    var bundle := SealedBundle(ms, users, key, seal);
    assert u in bundle;
    assert bundle[u] == seal(key, agent.GetUserKeypair().value.publicKey).value;
  }

  /** A client whose user holds no key in the room finds no entry and caches
      nothing. */
  lemma {:induction false} OutsiderGetsNoKey(
    agent: CryptoAgent, ms: seq<Member>, users: map<UserId, User>, key: RoomKeyBytes,
    seal: Sealer, unseal: Unsealer)
    requires Distributable(ms, users, key, seal)
    requires Truthy(agent.userId) && agent.userId.value !in KeyHolders(ms, users)
    ensures UnwrappedRoomKey(agent, SealedBundle(ms, users, key, seal), unseal).None?
  {
    assert agent.userId.value !in SealedBundle(ms, users, key, seal);
  }
}
