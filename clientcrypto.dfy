/** The client's crypto agent: the library-readiness flag, the user keypair
    and the room-key cache kept in browser storage, and the wrappers around
    the sealed-box and secret-box primitives. */
module ClientCrypto {
  import opened Records

  /** Secret-box encryption `(plaintext, roomKey, nonce) -> ciphertext`;
      fails (throws) when the key does not decode. */
  type Encryptor = (string, string, string) -> Option<string>
  /** Secret-box opening `(ciphertext, nonce, roomKey) -> plaintext`; fails
      on a forged or mismatched box. */
  type Decryptor = (string, string, string) -> Option<string>
  /** Sealed-box opening `(sealed, publicKey, privateKey) -> roomKey`. */
  type Unsealer = (string, string, string) -> Option<string>

  datatype Encrypted = Encrypted(ciphertext: string, nonce: string)

  /** The guarded body of `decryptMessage`: a missing ciphertext or nonce
      fails to decode, and every failure becomes "no plaintext". */
  function OpenMessage(decrypt: Decryptor, ciphertext: Option<string>, nonce: Option<string>, roomKey: string)
    : (r: Option<string>)
    ensures r.Some? ==> ciphertext.Some? && nonce.Some? && r == decrypt(ciphertext.value, nonce.value, roomKey)
    ensures ciphertext.None? || nonce.None? ==> r.None?
    ensures ciphertext.Some? && nonce.Some? ==> r == decrypt(ciphertext.value, nonce.value, roomKey)
  {
    if ciphertext.Some? && nonce.Some? then decrypt(ciphertext.value, nonce.value, roomKey) else None
  }

  class CryptoAgent {
    /** `typeof window !== 'undefined'`: browser storage exists. */
    const hasWindow: bool
    var sodiumReady: bool
    /** The module-level `userPrivateKey` variable. */
    var userPrivateKey: Option<string>
    // browser storage entries
    var storedPublicKey: Option<string>
    var storedPrivateKey: Option<string>
    var roomKeys: map<RoomId, string>
    var userId: Option<string>

    constructor (hasWindow: bool, storedPublicKey: Option<string>, storedPrivateKey: Option<string>,
                 roomKeys: map<RoomId, string>, userId: Option<string>)
      ensures this.hasWindow == hasWindow && !sodiumReady && userPrivateKey == None
      ensures this.storedPublicKey == storedPublicKey && this.storedPrivateKey == storedPrivateKey
      ensures this.roomKeys == roomKeys && this.userId == userId
    {
      this.hasWindow := hasWindow;
      sodiumReady := false;
      userPrivateKey := None;
      this.storedPublicKey := storedPublicKey;
      this.storedPrivateKey := storedPrivateKey;
      this.roomKeys := roomKeys;
      this.userId := userId;
    }

    /** `initSodium`: wait for the library once; later calls change nothing. */
    method InitSodium()
      modifies this`sodiumReady
      ensures sodiumReady
      ensures old(sodiumReady) ==> unchanged(this)
    {
      if !sodiumReady {
        sodiumReady := true;
      }
    }

    /** `getUserKeypair`: a pair only when both stored keys are present and
        non-empty. */
    function GetUserKeypair(): (r: Option<Keypair>)
      reads this
      ensures r.Some? <==> hasWindow && Truthy(storedPublicKey) && Truthy(storedPrivateKey)
      ensures r.Some? ==> r.value.publicKey == storedPublicKey.value && r.value.privateKey == storedPrivateKey.value
    {
      if hasWindow && Truthy(storedPublicKey) && Truthy(storedPrivateKey)
      then Some(Keypair(storedPublicKey.value, storedPrivateKey.value))
      else None
    }

    /** `storeUserKeypair`: afterwards `GetUserKeypair` yields the pair
        itself, unless one of its keys is empty. */
    method StoreUserKeypair(p: Keypair)
      modifies this`storedPublicKey, this`storedPrivateKey, this`userPrivateKey
      ensures hasWindow ==>
        storedPublicKey == Some(p.publicKey) && storedPrivateKey == Some(p.privateKey) && userPrivateKey == Some(p.privateKey)
      ensures !hasWindow ==> unchanged(this)
      ensures GetUserKeypair() == if hasWindow && p.publicKey != "" && p.privateKey != "" then Some(p) else None
    {
      if hasWindow {
        storedPublicKey := Some(p.publicKey);
        storedPrivateKey := Some(p.privateKey);
        userPrivateKey := Some(p.privateKey);
      }
    }

    /** `generateUserKeypair`: the given pair stands for the library's key
        generation. */
    method GenerateUserKeypair(newPair: Keypair) returns (p: Keypair)
      modifies this`sodiumReady
      ensures sodiumReady && p == newPair
    {
      InitSodium();
      p := newPair;
    }

    /** `initializeUserCrypto`: an existing pair is returned without
        generating; otherwise a generated pair is stored and read back. */
    method InitializeUserCrypto(newPair: Keypair) returns (r: Option<Keypair>)
      modifies this`sodiumReady, this`storedPublicKey, this`storedPrivateKey, this`userPrivateKey
      ensures old(GetUserKeypair()).Some? ==> r == old(GetUserKeypair()) && unchanged(this)
      ensures old(GetUserKeypair()).None? ==>
        && sodiumReady
        && r == (if hasWindow && newPair.publicKey != "" && newPair.privateKey != "" then Some(newPair) else None)
      // whatever pair is returned is the stored one, so a later call returns it again
      ensures r.Some? ==> GetUserKeypair() == r
    {
      r := GetUserKeypair();
      if r.None? {
        var generated := GenerateUserKeypair(newPair);
        StoreUserKeypair(generated);
        r := GetUserKeypair();
      }
    }

    /** `getRoomKey`: the cached key, or nothing for a room never stored
        (or stored with an empty key). */
    function GetRoomKey(roomId: RoomId): (r: Option<string>)
      reads this
      ensures r.Some? <==> hasWindow && roomId in roomKeys && roomKeys[roomId] != ""
      ensures r.Some? ==> r.value == roomKeys[roomId]
    {
      if hasWindow && roomId in roomKeys && roomKeys[roomId] != "" then Some(roomKeys[roomId]) else None
    }

    /** `storeRoomKey`: read-modify-write of the cache entry for one room. */
    method StoreRoomKey(roomId: RoomId, roomKey: string)
      modifies this`roomKeys
      ensures roomKeys == if hasWindow then old(roomKeys)[roomId := roomKey] else old(roomKeys)
      ensures GetRoomKey(roomId) == if hasWindow && roomKey != "" then Some(roomKey) else None
      ensures forall r :: r != roomId ==> GetRoomKey(r) == old(GetRoomKey(r))
    {
      if hasWindow {
        roomKeys := roomKeys[roomId := roomKey];
      }
    }

    /** `encryptMessage` with the nonce the library draws; a key that does
        not decode makes it fail. */
    method EncryptMessage(plaintext: string, roomKey: string, nonce: string, encrypt: Encryptor)
      returns (r: Option<Encrypted>)
      modifies this`sodiumReady
      ensures sodiumReady
      ensures r.Some? <==> encrypt(plaintext, roomKey, nonce).Some?
      ensures r.Some? ==> r.value == Encrypted(encrypt(plaintext, roomKey, nonce).value, nonce)
    {
      InitSodium();
      match encrypt(plaintext, roomKey, nonce)
      case None => r := None;
      case Some(ciphertext) => r := Some(Encrypted(ciphertext, nonce));
    }

    /** `decryptMessage`: any failure yields nothing instead of an error. */
    method DecryptMessage(ciphertext: Option<string>, nonce: Option<string>, roomKey: string, decrypt: Decryptor)
      returns (r: Option<string>)
      modifies this`sodiumReady
      ensures sodiumReady
      ensures r == OpenMessage(decrypt, ciphertext, nonce, roomKey)
    {
      InitSodium();
      r := OpenMessage(decrypt, ciphertext, nonce, roomKey);
    }

    /** `decryptRoomKeyForUser`: open a sealed room key with the user's
        keypair; any failure yields nothing instead of an error. */
    method DecryptRoomKeyForUser(sealed: string, privateKey: string, publicKey: string, unseal: Unsealer)
      returns (r: Option<string>)
      modifies this`sodiumReady
      ensures sodiumReady
      ensures r == unseal(sealed, publicKey, privateKey)
    {
      InitSodium();
      r := unseal(sealed, publicKey, privateKey);
    }
  }

  /** Two initialisations in a row return the same pair. */
  method InitializeTwice(agent: CryptoAgent, first: Keypair, second: Keypair) returns (a: Option<Keypair>, b: Option<Keypair>)
    modifies agent
    ensures a.Some? ==> b == a
  {
    a := agent.InitializeUserCrypto(first);
    b := agent.InitializeUserCrypto(second);
  }
}
