/** The client's socket layer: the shared connection, the encrypted send,
    the decryption of incoming messages and the intake of a room-key
    bundle. */
module ClientSocket {
  import opened Records
  import opened ClientCrypto

  const KeyMissing := "[Encrypted message - key not available]"
  const DecryptFailed := "[Failed to decrypt]"

  /** A client connection; `outbox` is what it has emitted, in order. */
  class Socket {
    var connected: bool
    var outbox: seq<ClientEvent>

    constructor ()
      ensures connected && outbox == []
    {
      connected := true;
      outbox := [];
    }

    method Emit(e: ClientEvent)
      modifies this`outbox
      ensures outbox == old(outbox) + [e]
    {
      outbox := outbox + [e];
    }

    method Disconnect()
      modifies this`connected
      ensures !connected
    {
      connected := false;
    }
  }

  /** The `send-message` payload of an encrypted send: no token (the
      handshake carries it) and no plaintext `content`. */
  function EncryptedPayload(roomId: RoomId, username: string, ciphertext: string, nonce: string): (p: SendPayload)
    ensures p.content.None? && p.token.None? && p.isEncrypted == Some(true)
    ensures p.roomId == Some(roomId) && p.username == Some(username)
    ensures p.ciphertext == Some(ciphertext) && p.nonce == Some(nonce)
  {
    SendPayload(None, Some(roomId), Some(username), None, Some(true), Some(ciphertext), Some(nonce))
  }

  /** The module state of the socket layer: the one shared connection, if
      any, and the crypto agent it uses. */
  class Session {
    var socket: Socket?
    const agent: CryptoAgent

    constructor (agent: CryptoAgent)
      ensures socket == null && this.agent == agent
    {
      socket := null;
      this.agent := agent;
    }

    /** `getSocket`: the existing connection, or a new connected one that
        later calls return. */
    method GetSocket() returns (s: Socket)
      modifies this`socket
      ensures socket == s
      ensures old(socket) != null ==> s == old(socket)
      ensures old(socket) == null ==> fresh(s) && s.connected && s.outbox == []
    {
      if socket == null {
        socket := new Socket();
      }
      s := socket;
    }

    /** `disconnectSocket`: close and forget the connection, if any. */
    method DisconnectSocket()
      modifies this`socket, socket
      ensures socket == null
      ensures old(socket) != null ==> !old(socket).connected && old(socket).outbox == old(socket.outbox)
    {
      if socket != null {
        socket.Disconnect();
        socket := null;
      }
    }

    /** `sendEncryptedMessage`: without a cached room key ask the server for
        one and send nothing; otherwise send the ciphertext under a fresh
        nonce. A failing encryption emits nothing. */
    method SendEncryptedMessage(roomId: RoomId, message: string, username: string, nonce: string, encrypt: Encryptor)
      modifies this`socket, socket, agent`sodiumReady
      ensures socket != null
      ensures old(socket) != null ==> socket == old(socket)
      ensures old(socket) == null ==> fresh(socket) && socket.connected
      ensures old(socket) != null ==> socket.connected == old(socket.connected)
      ensures var before := if old(socket) == null then [] else old(socket.outbox);
        if agent.GetRoomKey(roomId).None? then
          socket.outbox == before + [RequestRoomKey(roomId)]
        else if encrypt(message, agent.GetRoomKey(roomId).value, nonce).None? then
          socket.outbox == before
        else
          socket.outbox == before + [SendMessage(EncryptedPayload(roomId, username,
                                       encrypt(message, agent.GetRoomKey(roomId).value, nonce).value, nonce))]
    {
      var s := GetSocket();
      var roomKey := agent.GetRoomKey(roomId);
      if roomKey.None? {
        s.Emit(RequestRoomKey(roomId));
        return;
      }
      var encrypted := agent.EncryptMessage(message, roomKey.value, nonce, encrypt);
      if encrypted.None? {
        return;
      }
      s.Emit(SendMessage(EncryptedPayload(roomId, username, encrypted.value.ciphertext, encrypted.value.nonce)));
    }
  }

  /** `handleEncryptedMessage`: plaintext messages pass unchanged; an
      encrypted one gets its `content` replaced by the decryption, or by a
      placeholder when the room key is missing or decryption fails. */
  function HandleEncryptedMessage(agent: CryptoAgent, m: Delivered, decrypt: Decryptor): (r: Delivered)
    reads agent
    ensures !m.isEncrypted ==> r == m
    // only `content` can differ
    ensures r == m.(content := r.content)
    ensures m.isEncrypted && agent.GetRoomKey(m.roomId).None? ==> r.content == KeyMissing
    ensures m.isEncrypted && agent.GetRoomKey(m.roomId).Some? ==>
      var p := OpenMessage(decrypt, m.ciphertext, m.nonce, agent.GetRoomKey(m.roomId).value);
      r.content == if Truthy(p) then p.value else DecryptFailed
    // a message without its ciphertext or nonce never shows as decrypted
    ensures m.isEncrypted && (m.ciphertext.None? || m.nonce.None?) ==> r.content in {KeyMissing, DecryptFailed}
  {
    if !m.isEncrypted then m
    else
      match agent.GetRoomKey(m.roomId)
      case None => m.(content := KeyMissing)
      case Some(roomKey) =>
        var p := OpenMessage(decrypt, m.ciphertext, m.nonce, roomKey);
        if Truthy(p) then m.(content := p.value) else m.(content := DecryptFailed)
  }

  /** The room key a bundle yields for this client: its keypair must be
      stored, its user id known, its bundle entry non-empty and the opening
      must give a non-empty key. */
  function UnwrappedRoomKey(agent: CryptoAgent, encryptedKeys: map<UserId, string>, unseal: Unsealer): (r: Option<string>)
    reads agent
    ensures r.Some? ==> r.value != ""
    ensures r.Some? ==>
      && agent.hasWindow && agent.GetUserKeypair().Some? && Truthy(agent.userId)
      && agent.userId.value in encryptedKeys && encryptedKeys[agent.userId.value] != ""
      && r == unseal(encryptedKeys[agent.userId.value], agent.GetUserKeypair().value.publicKey,
                     agent.GetUserKeypair().value.privateKey)
    ensures agent.GetUserKeypair().None? || !Truthy(agent.userId) ==> r.None?
    ensures Truthy(agent.userId) && agent.userId.value !in encryptedKeys ==> r.None?
    // and whenever such an entry opens to a non-empty key, that key is the result
    ensures agent.GetUserKeypair().Some? && Truthy(agent.userId)
            && agent.userId.value in encryptedKeys && encryptedKeys[agent.userId.value] != ""
            && Truthy(unseal(encryptedKeys[agent.userId.value], agent.GetUserKeypair().value.publicKey,
                             agent.GetUserKeypair().value.privateKey)) ==>
      r == unseal(encryptedKeys[agent.userId.value], agent.GetUserKeypair().value.publicKey,
                  agent.GetUserKeypair().value.privateKey)
  {
    match agent.GetUserKeypair()
    case None => None
    case Some(kp) =>
      if !Truthy(agent.userId) || agent.userId.value !in encryptedKeys || encryptedKeys[agent.userId.value] == "" then None
      else
        var k := unseal(encryptedKeys[agent.userId.value], kp.publicKey, kp.privateKey);
        if Truthy(k) then k else None
  }

  /** `handleRoomKeyDistribution`: cache the unwrapped key for the room, and
      change no other room's key; without a key nothing is cached. */
  method HandleRoomKeyDistribution(agent: CryptoAgent, roomId: RoomId, encryptedKeys: map<UserId, string>, unseal: Unsealer)
    modifies agent`roomKeys, agent`sodiumReady
    ensures old(UnwrappedRoomKey(agent, encryptedKeys, unseal)).None? ==> agent.roomKeys == old(agent.roomKeys)
    ensures old(UnwrappedRoomKey(agent, encryptedKeys, unseal)).Some? ==>
      && agent.roomKeys == old(agent.roomKeys)[roomId := old(UnwrappedRoomKey(agent, encryptedKeys, unseal)).value]
      && agent.GetRoomKey(roomId) == old(UnwrappedRoomKey(agent, encryptedKeys, unseal))
    ensures forall r :: r != roomId ==> agent.GetRoomKey(r) == old(agent.GetRoomKey(r))
  {
    var keypair := agent.GetUserKeypair();
    if keypair.None? {
      return;
    }
    var userId := agent.userId;
    if !Truthy(userId) || userId.value !in encryptedKeys || encryptedKeys[userId.value] == "" {
      return;
    }
    var roomKey := agent.DecryptRoomKeyForUser(encryptedKeys[userId.value], keypair.value.privateKey,
                                               keypair.value.publicKey, unseal);
    if Truthy(roomKey) {
      agent.StoreRoomKey(roomId, roomKey.value);
    }
  }

  /** The connection is shared until it is disconnected; afterwards a new
      one is opened. */
  method SocketLifecycle(session: Session) returns (first: Socket, second: Socket, third: Socket)
    modifies session, session.socket
    ensures first == second && !first.connected
    ensures third != first && third.connected && session.socket == third
  {
    first := session.GetSocket();
    second := session.GetSocket();
    session.DisconnectSocket();
    third := session.GetSocket();
  }
}
