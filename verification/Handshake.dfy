/** The UKEY2 handshake (src/quick_share_crypto.rs:56-243, :362-453). Hashes, key derivation, the curve and the
    Protocol Buffers codecs are parameters; what is asked of them is said at each theorem. */
module Handshake {
  import opened Prelude
  import opened SecureChannels
  import opened Pin

  const CLIENT_INIT: int := 2
  const SERVER_INIT: int := 3
  const CLIENT_FINISH: int := 4
  const P256_SHA512: int := 100
  const EC_P256: int := 1
  const NEXT_PROTOCOL: string := "AES_256_CBC-HMAC_SHA256"

  const D2D_SALT: bytes := [
    0x82, 0xAA, 0x55, 0xA0, 0xD3, 0x97, 0xF8, 0x83, 0x46, 0xCA, 0x1C, 0xEE, 0x8D, 0x39, 0x09, 0xB9,
    0x5F, 0x13, 0xFA, 0x7D, 0xEB, 0x1D, 0x4A, 0xB3, 0x83, 0x76, 0xB8, 0x25, 0x6D, 0xA8, 0x55, 0x10]

  datatype HandshakeError =
    | MalformedMessage | UnexpectedUkey2Message | InvalidClientInit | CommitmentMismatch | InvalidPublicKey

  datatype Ukey2Message = Ukey2Message(messageType: Option<int>, data: Option<bytes>)
  datatype CipherCommitment = CipherCommitment(cipher: Option<int>, commitment: Option<bytes>)
  datatype ClientInit = ClientInit(
    version: Option<int>, random: Option<bytes>, commitments: seq<CipherCommitment>, nextProtocol: Option<string>)
  datatype ServerInit = ServerInit(version: Option<int>, random: Option<bytes>, cipher: Option<int>, publicKey: Option<bytes>)
  datatype ClientFinished = ClientFinished(publicKey: Option<bytes>)
  datatype EcKey = EcKey(x: bytes, y: bytes)
  datatype PublicKey = PublicKey(keyType: Option<int>, ec: Option<EcKey>)

  /** Affine coordinates, 32 bytes each. */
  datatype Point = Point(x: bytes, y: bytes)

  type Secret = nat

  datatype Codec<!T> = Codec(encode: T -> bytes, decode: bytes -> Option<T>)

  datatype Suite = Suite(
    messages: Codec<Ukey2Message>, clientInits: Codec<ClientInit>, serverInits: Codec<ServerInit>,
    clientFinishes: Codec<ClientFinished>, publicKeys: Codec<PublicKey>,
    sha256: bytes -> bytes, sha512: bytes -> bytes, hkdf: (bytes, bytes, bytes) -> bytes,
    publicOf: Secret -> Point, agree: (Secret, Point) -> bytes, onCurve: Point -> bool)

  ghost predicate Inverts<T(!new)>(c: Codec<T>) {
    forall x: T :: c.decode(c.encode(x)) == Some(x)
  }

  /** Decoding inverts encoding, public keys are points of the curve, and the key agreement commutes. */
  ghost predicate Lawful(suite: Suite) {
    && Inverts(suite.messages) && Inverts(suite.clientInits) && Inverts(suite.serverInits)
    && Inverts(suite.clientFinishes) && Inverts(suite.publicKeys)
    && (forall b: bytes :: |suite.sha512(b)| == 64)
    && (forall s: Secret :: suite.onCurve(suite.publicOf(s)) && |suite.publicOf(s).x| == 32 && |suite.publicOf(s).y| == 32)
    && (forall s: Secret, t: Secret :: suite.agree(s, suite.publicOf(t)) == suite.agree(t, suite.publicOf(s)))
  }

  /** Ideal key derivation: different inputs, different keys. (Nothing limits the length of a key here; the
      64-octet SHA-512 is never assumed to be free of collisions.) */
  ghost predicate CollisionFree(suite: Suite) {
    && (forall a: bytes, b: bytes :: suite.sha256(a) == suite.sha256(b) ==> a == b)
    && (forall a: bytes, s: bytes, i: bytes, b: bytes, t: bytes, j: bytes ::
          suite.hkdf(a, s, i) == suite.hkdf(b, t, j) ==> a == b && s == t && i == j)
  }

  // ------------------------------------------------------------------
  // Coordinates

  function SignedForm(coordinate: bytes): bytes {
    if coordinate != [] && coordinate[0] >= 0x80 then [0] + coordinate else coordinate
  }

  function Zeros(n: nat): (r: bytes)
    ensures |r| == n && forall i :: 0 <= i < n ==> r[i] == 0
  {
    seq(n, _ => 0)
  }

  function UnsignedForm(value: bytes): Result<bytes, HandshakeError> {
    var v := if |value| == 33 && value[0] == 0 then value[1..] else value;
    if v == [] || |v| > 32 then Err(InvalidPublicKey) else Ok(Zeros(32 - |v|) + v)
  }

  method SignedCoordinate(coordinate: bytes) returns (r: bytes)
    ensures r == SignedForm(coordinate)
  {
    r := [];
    if coordinate != [] && coordinate[0] >= 0x80 {
      r := r + [0];
    }
    r := r + coordinate;
  }

  /** The value is copied to the end of a buffer of 32 zeros. */
  method UnsignedCoordinate(value: bytes) returns (r: Result<bytes, HandshakeError>)
    ensures r == UnsignedForm(value)
  {
    var v := if |value| == 33 && value[0] == 0 then value[1..] else value;
    if v == [] || |v| > 32 {
      return Err(InvalidPublicKey);
    }
    var buffer := new byte[32](_ => 0);
    var start, i := 32 - |v|, 0;
    while i < |v|
      invariant 0 <= i <= |v|
      invariant buffer[..start] == Zeros(start) && buffer[start..start + i] == v[..i]
    {
      buffer[start + i] := v[i];
      i := i + 1;
      assert buffer[start..start + i] == v[..i - 1] + [v[i - 1]];
    }
    assert v[..|v|] == v && buffer[..] == buffer[..start] + buffer[start..start + |v|];
    r := Ok(buffer[..]);
  }

  lemma {:induction false} ValueOfZeros(n: nat, b: bytes)
    ensures Value(Zeros(n) + b) == Value(b)
    decreases |b|, n
  {
    if b != [] {
      var all := Zeros(n) + b;
      assert all[..|all| - 1] == Zeros(n) + b[..|b| - 1] && all[|all| - 1] == b[|b| - 1];
      ValueOfZeros(n, b[..|b| - 1]);
    } else if n > 0 {
      var all := Zeros(n) + b;
      assert all[..n - 1] == Zeros(n - 1) + b;
      ValueOfZeros(n - 1, b);
    } else {
      assert Zeros(0) + b == b;
    }
  }

  /** Writing a coordinate with its sign octet and reading it back gives the coordinate itself. */
  lemma CoordinateRoundTrip(coordinate: bytes)
    requires |coordinate| == 32
    ensures UnsignedForm(SignedForm(coordinate)) == Ok(coordinate)
    ensures Value(SignedForm(coordinate)) == Value(coordinate)
    ensures SignedForm(coordinate)[0] < 0x80 && |SignedForm(coordinate)| == if coordinate[0] < 0x80 then 32 else 33
  {
    assert Zeros(0) + coordinate == coordinate;
    if coordinate[0] >= 0x80 {
      assert ([0] + coordinate)[1..] == coordinate;
      assert Zeros(1) + coordinate == [0] + coordinate;
      ValueOfZeros(1, coordinate);
    }
  }

  /** Strings of one length that write one number are one string. */
  lemma {:induction false} ValueIsExact(a: bytes, b: bytes)
    requires |a| == |b| && Value(a) == Value(b)
    ensures a == b
  {
    if a != [] {
      var n := |a| - 1;
      assert a == a[..n] + [a[n]] && b == b[..n] + [b[n]];
      ValueIsExact(a[..n], b[..n]);
    }
  }

  /** Whatever form a peer sends: accepted exactly when it is one to 32 octets, or 33 with a leading zero; the
      32 octets that result write the same number. */
  lemma AcceptedCoordinate(value: bytes)
    ensures UnsignedForm(value).Ok? <==> 1 <= |value| <= 32 || (|value| == 33 && value[0] == 0)
    ensures UnsignedForm(value).Ok? ==> |UnsignedForm(value).value| == 32 && Value(UnsignedForm(value).value) == Value(value)
  {
    var v := if |value| == 33 && value[0] == 0 then value[1..] else value;
    if v != value {
      assert value == Zeros(1) + v;
      ValueOfZeros(1, v);
    }
    if v != [] && |v| <= 32 {
      ValueOfZeros(32 - |v|, v);
    }
  }

  // ------------------------------------------------------------------
  // Keys

  function Ascii(s: string): (r: bytes)
    requires forall i :: 0 <= i < |s| ==> s[i] as int < 128
    ensures |r| == |s| && forall i :: 0 <= i < |r| ==> r[i] == s[i] as int
  {
    seq(|s|, i requires 0 <= i < |s| => s[i] as int)
  }

  datatype Derived = Derived(keys: SessionKeys, auth: bytes)

  function DirectionKey(suite: Suite, nextSecret: bytes, who: bytes, use: bytes): Key {
    suite.hkdf(suite.hkdf(nextSecret, D2D_SALT, who), suite.sha256(Ascii("SecureMessage")), use)
  }

  function DeriveSessionKeys(suite: Suite, secret: bytes, transcript: bytes, server: bool): Derived {
    var next := suite.hkdf(secret, Ascii("UKEY2 v1 next"), transcript);
    var clientEncrypt := DirectionKey(suite, next, Ascii("client"), Ascii("ENC:2"));
    var clientHmac := DirectionKey(suite, next, Ascii("client"), Ascii("SIG:1"));
    var serverEncrypt := DirectionKey(suite, next, Ascii("server"), Ascii("ENC:2"));
    var serverHmac := DirectionKey(suite, next, Ascii("server"), Ascii("SIG:1"));
    Derived(
      if server then SessionKeys(clientEncrypt, clientHmac, serverEncrypt, serverHmac)
      else SessionKeys(serverEncrypt, serverHmac, clientEncrypt, clientHmac),
      suite.hkdf(secret, Ascii("UKEY2 v1 auth"), transcript))
  }

  function EncodeKey(p: Point): PublicKey {
    PublicKey(Some(EC_P256), Some(EcKey(SignedForm(p.x), SignedForm(p.y))))
  }

  function DecodeKey(suite: Suite, key: PublicKey): Result<Point, HandshakeError> {
    if key.keyType != Some(EC_P256) || key.ec.None? then Err(InvalidPublicKey)
    else
      match (UnsignedForm(key.ec.value.x), UnsignedForm(key.ec.value.y))
      case (Ok(x), Ok(y)) => if suite.onCurve(Point(x, y)) then Ok(Point(x, y)) else Err(InvalidPublicKey)
      case _ => Err(InvalidPublicKey)
  }

  /** The keys of a side with the label `own` whose peer has the label `other`, spelt out. */
  ghost predicate HoldsKeys(suite: Suite, keys: SessionKeys, secret: bytes, transcript: bytes, own: bytes, other: bytes) {
    var next, salt := suite.hkdf(secret, Ascii("UKEY2 v1 next"), transcript), suite.sha256(Ascii("SecureMessage"));
    var mine, theirs := suite.hkdf(next, D2D_SALT, own), suite.hkdf(next, D2D_SALT, other);
    && keys.encryptKey == suite.hkdf(mine, salt, Ascii("ENC:2")) && keys.sendHmacKey == suite.hkdf(mine, salt, Ascii("SIG:1"))
    && keys.decryptKey == suite.hkdf(theirs, salt, Ascii("ENC:2")) && keys.receiveHmacKey == suite.hkdf(theirs, salt, Ascii("SIG:1"))
  }

  /** The server writes under the keys labelled "server" and reads under those labelled "client", and the client the
      other way round. */
  lemma KeysOfEachSide(suite: Suite, secret: bytes, transcript: bytes)
    ensures HoldsKeys(suite, DeriveSessionKeys(suite, secret, transcript, true).keys,
                      secret, transcript, Ascii("server"), Ascii("client"))
    ensures HoldsKeys(suite, DeriveSessionKeys(suite, secret, transcript, false).keys,
                      secret, transcript, Ascii("client"), Ascii("server"))
    ensures forall server ::
              DeriveSessionKeys(suite, secret, transcript, server).auth == suite.hkdf(secret, Ascii("UKEY2 v1 auth"), transcript)
  {
    hide Ascii;
  }

  /** A public key on the wire: both coordinates keep their value and are not negative as signed numbers. */
  lemma KeyOnTheWire(p: Point)
    requires |p.x| == 32 && |p.y| == 32
    ensures var key := EncodeKey(p);
            && key.keyType == Some(EC_P256) && key.ec.Some?
            && Value(key.ec.value.x) == Value(p.x) && Value(key.ec.value.y) == Value(p.y)
            && 32 <= |key.ec.value.x| <= 33 && 32 <= |key.ec.value.y| <= 33
            && key.ec.value.x[0] < 0x80 && key.ec.value.y[0] < 0x80
  {
    CoordinateRoundTrip(p.x);
    CoordinateRoundTrip(p.y);
    hide Value;
  }

  predicate CoordinateLength(value: bytes) {
    1 <= |value| <= 32 || (|value| == 33 && value[0] == 0)
  }

  /** A peer's key is accepted as `p` exactly when it is of the curve's type, both coordinates are of an accepted length
      and write those of `p`, and `p` is on the curve. */
  lemma AcceptedKeyIff(suite: Suite, key: PublicKey, p: Point)
    ensures DecodeKey(suite, key) == Ok(p) <==>
              && key.keyType == Some(EC_P256) && key.ec.Some?
              && CoordinateLength(key.ec.value.x) && CoordinateLength(key.ec.value.y)
              && |p.x| == 32 && |p.y| == 32
              && Value(p.x) == Value(key.ec.value.x) && Value(p.y) == Value(key.ec.value.y)
              && suite.onCurve(p)
  {
    if key.ec.Some? {
      var ec := key.ec.value;
      AcceptedCoordinate(ec.x);
      AcceptedCoordinate(ec.y);
      hide UnsignedForm, Value;
      if CoordinateLength(ec.x) && CoordinateLength(ec.y) {
        var x, y := UnsignedForm(ec.x).value, UnsignedForm(ec.y).value;
        if |p.x| == 32 && |p.y| == 32 && Value(p.x) == Value(ec.x) && Value(p.y) == Value(ec.y) {
          ValueIsExact(p.x, x);
          ValueIsExact(p.y, y);
        }
      }
    }
  }

  // ------------------------------------------------------------------
  // The two sides

  datatype Initiator = Initiator(clientInit: bytes, clientFinish: bytes, secret: Secret)
  datatype Responder = Responder(commitment: bytes, clientInit: bytes, serverInit: bytes, secret: Secret)
  datatype Session = Session(keys: SessionKeys, pin: string, auth: bytes)

  function Begin(suite: Suite, secret: Secret, random: bytes): Initiator {
    var finished := ClientFinished(Some(suite.publicKeys.encode(EncodeKey(suite.publicOf(secret)))));
    var finish := suite.messages.encode(Ukey2Message(Some(CLIENT_FINISH), Some(suite.clientFinishes.encode(finished))));
    var init := ClientInit(
      Some(1), Some(random), [CipherCommitment(Some(P256_SHA512), Some(suite.sha512(finish)))], Some(NEXT_PROTOCOL));
    Initiator(suite.messages.encode(Ukey2Message(Some(CLIENT_INIT), Some(suite.clientInits.encode(init)))), finish, secret)
  }

  /** The commitment of the first entry for the cipher. */
  function CommitmentIn(commitments: seq<CipherCommitment>): Option<bytes> {
    if commitments == [] then None
    else if commitments[0].cipher == Some(P256_SHA512) then commitments[0].commitment
    else CommitmentIn(commitments[1..])
  }

  /** The ServerInit that answers with the key of `peer`. */
  function ServerInitOf(suite: Suite, peer: Secret, random: bytes): bytes {
    var key := suite.publicKeys.encode(EncodeKey(suite.publicOf(peer)));
    var answer := ServerInit(Some(1), Some(random), Some(P256_SHA512), Some(key));
    suite.messages.encode(Ukey2Message(Some(SERVER_INIT), Some(suite.serverInits.encode(answer))))
  }

  function Accept(suite: Suite, raw: bytes, secret: Secret, random: bytes): Result<Responder, HandshakeError> {
    match suite.messages.decode(raw)
    case None => Err(MalformedMessage)
    case Some(outer) =>
      if outer.messageType != Some(CLIENT_INIT) then Err(UnexpectedUkey2Message)
      else if outer.data.None? then Err(InvalidClientInit)
      else
        match suite.clientInits.decode(outer.data.value)
        case None => Err(MalformedMessage)
        case Some(init) =>
          if init.version != Some(1) || init.random.None? || |init.random.value| != 32 || init.nextProtocol != Some(NEXT_PROTOCOL) then
            Err(InvalidClientInit)
          else
            var commitment := CommitmentIn(init.commitments);
            if commitment.None? || |commitment.value| != 64 then Err(InvalidClientInit)
            else
              Ok(Responder(commitment.value, raw, ServerInitOf(suite, secret, random), secret))
  }

  function SessionOf(suite: Suite, secret: Secret, peer: Point, transcript: bytes, server: bool): Session {
    var derived := DeriveSessionKeys(suite, suite.sha256(suite.agree(secret, peer)), transcript, server);
    Session(derived.keys, PinOf(derived.auth), derived.auth)
  }

  function PeerOf(suite: Suite, publicKey: Option<bytes>): Result<Point, HandshakeError> {
    if publicKey.None? then Err(InvalidPublicKey)
    else
      match suite.publicKeys.decode(publicKey.value)
      case None => Err(MalformedMessage)
      case Some(key) => DecodeKey(suite, key)
  }

  /** The peer's key in a ServerInit, if it passes the checks. */
  function ServerKey(suite: Suite, raw: bytes): Result<Point, HandshakeError> {
    match suite.messages.decode(raw)
    case None => Err(MalformedMessage)
    case Some(outer) =>
      if outer.messageType != Some(SERVER_INIT) then Err(UnexpectedUkey2Message)
      else if outer.data.None? then Err(InvalidClientInit)
      else
        match suite.serverInits.decode(outer.data.value)
        case None => Err(MalformedMessage)
        case Some(init) =>
          if init.version != Some(1) || init.random.None? || |init.random.value| != 32 || init.cipher != Some(P256_SHA512) then
            Err(InvalidClientInit)
          else PeerOf(suite, init.publicKey)
  }

  function InitiatorComplete(suite: Suite, i: Initiator, raw: bytes): Result<Session, HandshakeError> {
    match ServerKey(suite, raw)
    case Err(e) => Err(e)
    case Ok(peer) => Ok(SessionOf(suite, i.secret, peer, i.clientInit + raw, false))
  }

  function ClientKey(suite: Suite, raw: bytes): Result<Point, HandshakeError> {
    match suite.messages.decode(raw)
    case None => Err(MalformedMessage)
    case Some(outer) =>
      if outer.messageType != Some(CLIENT_FINISH) then Err(UnexpectedUkey2Message)
      else if outer.data.None? then Err(InvalidPublicKey)
      else
        match suite.clientFinishes.decode(outer.data.value)
        case None => Err(MalformedMessage)
        case Some(finished) => PeerOf(suite, finished.publicKey)
  }

  function ResponderComplete(suite: Suite, r: Responder, raw: bytes): Result<Session, HandshakeError> {
    if suite.sha512(raw) != r.commitment then Err(CommitmentMismatch)
    else
      match ClientKey(suite, raw)
      case Err(e) => Err(e)
      case Ok(peer) => Ok(SessionOf(suite, r.secret, peer, r.clientInit + r.serverInit, true))
  }

  // ------------------------------------------------------------------
  // What each side takes

  /** Entry `k` is the first for the cipher. */
  predicate FirstForCipher(commitments: seq<CipherCommitment>, k: int) {
    && 0 <= k < |commitments| && commitments[k].cipher == Some(P256_SHA512)
    && forall i :: 0 <= i < k ==> commitments[i].cipher != Some(P256_SHA512)
  }

  lemma {:induction false} CommitmentAt(commitments: seq<CipherCommitment>, k: int)
    requires FirstForCipher(commitments, k)
    ensures CommitmentIn(commitments) == commitments[k].commitment
    decreases |commitments|
  {
    if k > 0 {
      assert forall i :: 0 <= i < k - 1 ==> commitments[1..][i] == commitments[i + 1];
      CommitmentAt(commitments[1..], k - 1);
    }
  }

  lemma {:induction false} NoCommitment(commitments: seq<CipherCommitment>)
    ensures CommitmentIn(commitments).Some? ==> exists k :: FirstForCipher(commitments, k)
    decreases |commitments|
  {
    if commitments == [] {
    } else if commitments[0].cipher == Some(P256_SHA512) {
      assert FirstForCipher(commitments, 0);
    } else {
      NoCommitment(commitments[1..]);
      if k :| FirstForCipher(commitments[1..], k) {
        forall i | 0 <= i < k + 1
          ensures commitments[i].cipher != Some(P256_SHA512)
        {
          if i > 0 {
            assert commitments[1..][i - 1] == commitments[i];
          }
        }
        assert FirstForCipher(commitments, k + 1);
      }
    }
  }

  /** A ClientInit is accepted exactly when it is one, of version 1, with 32 random octets and the protocol's name, and
      its first entry for the cipher holds 64 octets; those are kept as the commitment, with the message itself. */
  lemma AcceptsIff(suite: Suite, messageType: int, m: ClientInit, secret: Secret, random: bytes)
    requires Lawful(suite)
    ensures var raw := suite.messages.encode(Ukey2Message(Some(messageType), Some(suite.clientInits.encode(m))));
            var r := Accept(suite, raw, secret, random);
            && (r.Ok? <==>
                  && messageType == 2 && m.version == Some(1) && m.random.Some? && |m.random.value| == 32
                  && m.nextProtocol == Some("AES_256_CBC-HMAC_SHA256")
                  && exists k :: FirstForCipher(m.commitments, k) && m.commitments[k].commitment.Some?
                                 && |m.commitments[k].commitment.value| == 64)
            && (r.Ok? ==>
                  && r.value.clientInit == raw && r.value.secret == secret
                  && forall k :: FirstForCipher(m.commitments, k) ==> m.commitments[k].commitment == Some(r.value.commitment))
  {
    var outer := Ukey2Message(Some(messageType), Some(suite.clientInits.encode(m)));
    assert suite.messages.decode(suite.messages.encode(outer)) == Some(outer);
    assert suite.clientInits.decode(outer.data.value) == Some(m);
    hide Lawful, ServerInitOf;
    NoCommitment(m.commitments);
    forall k | FirstForCipher(m.commitments, k)
      ensures CommitmentIn(m.commitments) == m.commitments[k].commitment
    {
      CommitmentAt(m.commitments, k);
    }
  }

  /** A ServerInit is taken exactly when it is one, of version 1, with 32 random octets, for the cipher, and its key is
      accepted. */
  lemma TakesServerInitIff(suite: Suite, i: Initiator, messageType: int, m: ServerInit, key: PublicKey)
    requires Lawful(suite) && m.publicKey == Some(suite.publicKeys.encode(key))
    ensures var raw := suite.messages.encode(Ukey2Message(Some(messageType), Some(suite.serverInits.encode(m))));
            InitiatorComplete(suite, i, raw).Ok? <==>
              && messageType == 3 && m.version == Some(1) && m.random.Some? && |m.random.value| == 32
              && m.cipher == Some(100) && DecodeKey(suite, key).Ok?
  {
    var outer := Ukey2Message(Some(messageType), Some(suite.serverInits.encode(m)));
    assert suite.messages.decode(suite.messages.encode(outer)) == Some(outer);
    assert suite.serverInits.decode(outer.data.value) == Some(m);
    assert suite.publicKeys.decode(m.publicKey.value) == Some(key);
    hide Lawful, DecodeKey, SessionOf;
  }

  /** A ClientFinish is taken exactly when it hashes to the commitment, is one, and its key is accepted. */
  lemma TakesClientFinishIff(suite: Suite, r: Responder, messageType: int, key: PublicKey)
    requires Lawful(suite)
    ensures var finished := ClientFinished(Some(suite.publicKeys.encode(key)));
            var raw := suite.messages.encode(Ukey2Message(Some(messageType), Some(suite.clientFinishes.encode(finished))));
            ResponderComplete(suite, r, raw).Ok? <==>
              messageType == 4 && suite.sha512(raw) == r.commitment && DecodeKey(suite, key).Ok?
  {
    var finished := ClientFinished(Some(suite.publicKeys.encode(key)));
    var outer := Ukey2Message(Some(messageType), Some(suite.clientFinishes.encode(finished)));
    assert suite.messages.decode(suite.messages.encode(outer)) == Some(outer);
    assert suite.clientFinishes.decode(outer.data.value) == Some(finished);
    assert suite.publicKeys.decode(finished.publicKey.value) == Some(key);
    hide Lawful, DecodeKey, SessionOf;
  }

  /** What a side that has completed with the key `peer` holds: the keys of its role from the shared secret and the
      joined messages, the authentication key, and as its code that of the authentication key. */
  ghost predicate HoldsSession(suite: Suite, s: Session, secret: Secret, peer: Point, transcript: bytes, own: bytes, other: bytes) {
    var shared := suite.sha256(suite.agree(secret, peer));
    && HoldsKeys(suite, s.keys, shared, transcript, own, other)
    && s.auth == suite.hkdf(shared, Ascii("UKEY2 v1 auth"), transcript) && s.pin == PinOf(s.auth)
  }

  lemma SessionOfRole(suite: Suite, secret: Secret, peer: Point, transcript: bytes)
    ensures HoldsSession(
              suite, SessionOf(suite, secret, peer, transcript, true), secret, peer, transcript, Ascii("server"), Ascii("client"))
    ensures HoldsSession(
              suite, SessionOf(suite, secret, peer, transcript, false), secret, peer, transcript, Ascii("client"), Ascii("server"))
  {
    KeysOfEachSide(suite, suite.sha256(suite.agree(secret, peer)), transcript);
    hide DeriveSessionKeys, PinOf, HoldsKeys, Ascii;
  }

  lemma InitiatorHolds(suite: Suite, i: Initiator, seen: bytes)
    requires InitiatorComplete(suite, i, seen).Ok?
    ensures ServerKey(suite, seen).Ok?
    ensures HoldsSession(
              suite, InitiatorComplete(suite, i, seen).value, i.secret, ServerKey(suite, seen).value,
              i.clientInit + seen, Ascii("client"), Ascii("server"))
  {
    hide ServerKey, SessionOf, HoldsSession, Ascii;
    SessionOfRole(suite, i.secret, ServerKey(suite, seen).value, i.clientInit + seen);
  }

  lemma ResponderHolds(suite: Suite, r: Responder, finish: bytes)
    requires ResponderComplete(suite, r, finish).Ok?
    ensures ClientKey(suite, finish).Ok?
    ensures HoldsSession(
              suite, ResponderComplete(suite, r, finish).value, r.secret, ClientKey(suite, finish).value,
              r.clientInit + r.serverInit, Ascii("server"), Ascii("client"))
  {
    hide ClientKey, SessionOf, HoldsSession, Ascii;
    SessionOfRole(suite, r.secret, ClientKey(suite, finish).value, r.clientInit + r.serverInit);
  }

  /** What goes out: the messages decode to these, the ClientInit with the hash of the ClientFinish, both inits with the
      random octets drawn. */
  lemma WhatGoesOut(suite: Suite, secret: Secret, random: bytes)
    requires Lawful(suite)
    ensures var i := Begin(suite, secret, random);
            && i.secret == secret
            && (exists data :: suite.messages.decode(i.clientInit) == Some(Ukey2Message(Some(2), Some(data)))
                               && suite.clientInits.decode(data) == Some(ClientInit(
                                    Some(1), Some(random), [CipherCommitment(Some(100), Some(suite.sha512(i.clientFinish)))],
                                    Some("AES_256_CBC-HMAC_SHA256"))))
            && (exists data :: suite.messages.decode(ServerInitOf(suite, secret, random)) == Some(Ukey2Message(Some(3), Some(data)))
                               && suite.serverInits.decode(data).Some?
                               && var m := suite.serverInits.decode(data).value;
                                  m.version == Some(1) && m.random == Some(random) && m.cipher == Some(100))
  {
    hide EncodeKey;
    var i := Begin(suite, secret, random);
    var init := ClientInit(
      Some(1), Some(random), [CipherCommitment(Some(P256_SHA512), Some(suite.sha512(i.clientFinish)))], Some(NEXT_PROTOCOL));
    var outer := Ukey2Message(Some(CLIENT_INIT), Some(suite.clientInits.encode(init)));
    assert suite.messages.decode(i.clientInit) == Some(outer) && suite.clientInits.decode(outer.data.value) == Some(init);
    var key := suite.publicKeys.encode(EncodeKey(suite.publicOf(secret)));
    ServerInitDecodes(suite, ServerInit(Some(1), Some(random), Some(P256_SHA512), Some(key)));
  }

  // ------------------------------------------------------------------
  // Theorems

  lemma KeyRoundTrip(suite: Suite, secret: Secret)
    requires Lawful(suite)
    ensures DecodeKey(suite, EncodeKey(suite.publicOf(secret))) == Ok(suite.publicOf(secret))
    ensures PeerOf(suite, Some(suite.publicKeys.encode(EncodeKey(suite.publicOf(secret))))) == Ok(suite.publicOf(secret))
  {
    CoordinateRoundTrip(suite.publicOf(secret).x);
    CoordinateRoundTrip(suite.publicOf(secret).y);
  }

  lemma FinishCarriesKey(suite: Suite, secret: Secret, random: bytes)
    requires Lawful(suite)
    ensures ClientKey(suite, Begin(suite, secret, random).clientFinish) == Ok(suite.publicOf(secret))
  {
    KeyRoundTrip(suite, secret);
    hide SignedForm, UnsignedForm, DecodeKey, PeerOf;
  }

  lemma ServerInitCarriesKey(suite: Suite, peer: Secret, random: bytes)
    requires Lawful(suite) && |random| == 32
    ensures ServerKey(suite, ServerInitOf(suite, peer, random)) == Ok(suite.publicOf(peer))
  {
    KeyRoundTrip(suite, peer);
    hide SignedForm, UnsignedForm, DecodeKey, PeerOf, EncodeKey, Lawful;
    var answer := ServerInit(Some(1), Some(random), Some(P256_SHA512), Some(suite.publicKeys.encode(EncodeKey(suite.publicOf(peer)))));
    ServerInitDecodes(suite, answer);
  }

  lemma ServerInitDecodes(suite: Suite, answer: ServerInit)
    requires Lawful(suite)
    ensures var outer := Ukey2Message(Some(SERVER_INIT), Some(suite.serverInits.encode(answer)));
            suite.messages.decode(suite.messages.encode(outer)) == Some(outer)
            && suite.serverInits.decode(suite.serverInits.encode(answer)) == Some(answer)
  {
  }

  lemma InitIsAccepted(suite: Suite, secret: Secret, random: bytes, peer: Secret, answer: bytes)
    requires Lawful(suite) && |random| == 32
    ensures var i := Begin(suite, secret, random);
            Accept(suite, i.clientInit, peer, answer)
            == Ok(Responder(suite.sha512(i.clientFinish), i.clientInit, ServerInitOf(suite, peer, answer), peer))
  {
    hide EncodeKey;
    var i := Begin(suite, secret, random);
    var init := ClientInit(
      Some(1), Some(random), [CipherCommitment(Some(P256_SHA512), Some(suite.sha512(i.clientFinish)))], Some(NEXT_PROTOCOL));
    var outer := Ukey2Message(Some(CLIENT_INIT), Some(suite.clientInits.encode(init)));
    assert suite.messages.decode(i.clientInit) == Some(outer);
    assert suite.clientInits.decode(outer.data.value) == Some(init);
  }

  lemma Labels()
    ensures Ascii("client") != Ascii("server") && Ascii("ENC:2") != Ascii("SIG:1")
  {
    assert Ascii("client")[0] != Ascii("server")[0];
    assert Ascii("ENC:2")[0] != Ascii("SIG:1")[0];
  }

  /** Two derivations give mirrored keys with different signing keys exactly when they start from the same
      secret and the same transcript. */
  lemma MirroredIff(suite: Suite, s: bytes, t: bytes, transcript: bytes, other: bytes)
    requires CollisionFree(suite)
    ensures var client, server := DeriveSessionKeys(suite, s, transcript, false), DeriveSessionKeys(suite, t, other, true);
            && (Mirrored(client.keys, server.keys) <==> s == t && transcript == other)
            && (s == t && transcript == other ==> client.auth == server.auth)
  {
    Labels();
    hide Ascii;
  }

  /** Two sides with each other's keys and one transcript agree. */
  lemma OneTranscript(suite: Suite, i: Initiator, r: Responder, seen: bytes)
    requires Lawful(suite) && CollisionFree(suite)
    requires ServerKey(suite, seen) == Ok(suite.publicOf(r.secret)) && ClientKey(suite, i.clientFinish) == Ok(suite.publicOf(i.secret))
    requires r.commitment == suite.sha512(i.clientFinish) && i.clientInit + seen == r.clientInit + r.serverInit
    ensures var client, server := InitiatorComplete(suite, i, seen), ResponderComplete(suite, r, i.clientFinish);
            && client.Ok? && server.Ok?
            && Mirrored(client.value.keys, server.value.keys)
            && client.value.pin == server.value.pin && client.value.auth == server.value.auth
  {
    hide ServerKey, ClientKey, CollisionFree, DeriveSessionKeys, PinOf, Mirrored;
    assert suite.agree(i.secret, suite.publicOf(r.secret)) == suite.agree(r.secret, suite.publicOf(i.secret));
    hide Lawful;
    var shared := suite.sha256(suite.agree(i.secret, suite.publicOf(r.secret)));
    MirroredIff(suite, shared, shared, i.clientInit + seen, r.clientInit + r.serverInit);
  }

  lemma BeginKeepsSecret(suite: Suite, secret: Secret, random: bytes)
    ensures Begin(suite, secret, random).secret == secret
  {
    hide EncodeKey;
  }

  /** Agreement. Over an untouched connection both sides complete, with mirrored keys, different signing keys
      per direction, equal authentication keys and equal codes. */
  lemma HandshakeAgreement(suite: Suite, a: Secret, b: Secret, randomA: bytes, randomB: bytes)
    requires Lawful(suite) && CollisionFree(suite) && |randomA| == 32 && |randomB| == 32
    ensures var i := Begin(suite, a, randomA);
            var accepted := Accept(suite, i.clientInit, b, randomB);
            && accepted.Ok?
            && var client := InitiatorComplete(suite, i, accepted.value.serverInit);
               var server := ResponderComplete(suite, accepted.value, i.clientFinish);
               && client.Ok? && server.Ok?
               && Mirrored(client.value.keys, server.value.keys)
               && client.value.pin == server.value.pin && client.value.auth == server.value.auth
  {
    hide Begin, ServerInitOf, Accept, ServerKey, ClientKey, CollisionFree, Lawful, Mirrored, InitiatorComplete, ResponderComplete;
    var i := Begin(suite, a, randomA);
    InitIsAccepted(suite, a, randomA, b, randomB);
    ServerInitCarriesKey(suite, b, randomB);
    FinishCarriesKey(suite, a, randomA);
    BeginKeepsSecret(suite, a, randomA);
    var r := Accept(suite, i.clientInit, b, randomB).value;
    OneTranscript(suite, i, r, r.serverInit);
  }

  /** The responder completes on the ClientFinish its peer committed to, and on nothing else but a SHA-512
      collision with it. */
  lemma OnlyTheCommittedFinish(suite: Suite, a: Secret, b: Secret, randomA: bytes, randomB: bytes, raw: bytes)
    requires Lawful(suite) && |randomA| == 32 && |randomB| == 32
    ensures var i := Begin(suite, a, randomA);
            var accepted := Accept(suite, i.clientInit, b, randomB);
            && accepted.Ok?
            && (raw == i.clientFinish ==> ResponderComplete(suite, accepted.value, raw).Ok?)
            && (ResponderComplete(suite, accepted.value, raw).Ok? <==>
                  suite.sha512(raw) == suite.sha512(i.clientFinish) && ClientKey(suite, raw).Ok?)
  {
    InitIsAccepted(suite, a, randomA, b, randomB);
    FinishCarriesKey(suite, a, randomA);
    hide Begin, Accept, DeriveSessionKeys, ServerKey, ClientKey, PinOf, SessionOf;
  }

  /** Whatever ServerInit and ClientInit really crossed the wire: when both sides complete, their keys are
      mirrored exactly when they share a secret and joined the two messages they saw to the same bytes. */
  lemma {:induction false} TamperingSeparatesKeys(suite: Suite, i: Initiator, r: Responder, seen: bytes, finish: bytes)
    requires CollisionFree(suite)
    requires InitiatorComplete(suite, i, seen).Ok? && ResponderComplete(suite, r, finish).Ok?
    ensures var client, server := InitiatorComplete(suite, i, seen).value, ResponderComplete(suite, r, finish).value;
            Mirrored(client.keys, server.keys) <==>
            && suite.agree(i.secret, ServerKey(suite, seen).value) == suite.agree(r.secret, ClientKey(suite, finish).value)
            && i.clientInit + seen == r.clientInit + r.serverInit
  {
    var s := suite.agree(i.secret, ServerKey(suite, seen).value);
    var t := suite.agree(r.secret, ClientKey(suite, finish).value);
    MirroredIff(suite, suite.sha256(s), suite.sha256(t), i.clientInit + seen, r.clientInit + r.serverInit);
    assert suite.sha256(s) == suite.sha256(t) <==> s == t;
    hide DeriveSessionKeys, ServerKey, ClientKey, PinOf, Mirrored, CollisionFree;
  }

  /** The messages are joined without their lengths. Both sides have mirrored keys and saw the same two messages
      exactly when the secret and the joined bytes are shared and the two forms of the ClientInit are of one length. */
  lemma SameMessagesIff(suite: Suite, i: Initiator, r: Responder, seen: bytes, finish: bytes)
    requires CollisionFree(suite)
    requires InitiatorComplete(suite, i, seen).Ok? && ResponderComplete(suite, r, finish).Ok?
    requires Mirrored(InitiatorComplete(suite, i, seen).value.keys, ResponderComplete(suite, r, finish).value.keys)
    ensures i.clientInit == r.clientInit && seen == r.serverInit <==> |i.clientInit| == |r.clientInit|
    ensures i.clientInit == r.clientInit <==> seen == r.serverInit
  {
    TamperingSeparatesKeys(suite, i, r, seen, finish);
    hide InitiatorComplete, ResponderComplete, CollisionFree, Mirrored;
    var joined := i.clientInit + seen;
    assert joined == r.clientInit + r.serverInit;
    assert joined[..|i.clientInit|] == i.clientInit && joined[|i.clientInit|..] == seen;
    assert joined[..|r.clientInit|] == r.clientInit && joined[|r.clientInit|..] == r.serverInit;
    if seen == r.serverInit {
      assert |joined| == |i.clientInit| + |seen| == |r.clientInit| + |r.serverInit|;
    }
  }

  /** A promise that fails. Bytes that the decoder passes over, such as an unknown field, are appended to the
      ClientInit on its way and put before the ServerInit on its way back: both sides complete, with mirrored keys
      and equal codes, and each saw another ClientInit and another ServerInit than its peer. */
  lemma TranscriptCanShift(suite: Suite, a: Secret, b: Secret, randomA: bytes, randomB: bytes, t: bytes)
    requires Lawful(suite) && CollisionFree(suite) && |randomA| == 32 && |randomB| == 32 && t != []
    requires var init, answer := Begin(suite, a, randomA).clientInit, ServerInitOf(suite, b, randomB);
             && suite.messages.decode(init + t) == suite.messages.decode(init)
             && suite.messages.decode(t + answer) == suite.messages.decode(answer)
    ensures var i := Begin(suite, a, randomA);
            var accepted := Accept(suite, i.clientInit + t, b, randomB);
            && accepted.Ok?
            && var client := InitiatorComplete(suite, i, t + accepted.value.serverInit);
               var server := ResponderComplete(suite, accepted.value, i.clientFinish);
               && client.Ok? && server.Ok?
               && Mirrored(client.value.keys, server.value.keys) && client.value.pin == server.value.pin
               && accepted.value.clientInit != i.clientInit && t + accepted.value.serverInit != accepted.value.serverInit
  {
    hide Begin, ServerInitOf, Accept, ServerKey, ClientKey, CollisionFree, Lawful, Mirrored, InitiatorComplete, ResponderComplete;
    var i, answer := Begin(suite, a, randomA), ServerInitOf(suite, b, randomB);
    InitIsAccepted(suite, a, randomA, b, randomB);
    ServerInitCarriesKey(suite, b, randomB);
    FinishCarriesKey(suite, a, randomA);
    AcceptsByContents(suite, i.clientInit, i.clientInit + t, b, randomB);
    KeyByContents(suite, answer, t + answer);
    BeginKeepsSecret(suite, a, randomA);
    assert i.clientInit + (t + answer) == i.clientInit + t + answer;
    OneTranscript(suite, i, Responder(suite.sha512(i.clientFinish), i.clientInit + t, answer, b), t + answer);
    assert |i.clientInit + t| != |i.clientInit| && |t + answer| != |answer|;
  }

  lemma KeyByContents(suite: Suite, raw: bytes, other: bytes)
    requires suite.messages.decode(other) == suite.messages.decode(raw)
    ensures ServerKey(suite, other) == ServerKey(suite, raw)
  {
    hide PeerOf;
  }

  lemma AcceptsByContents(suite: Suite, raw: bytes, other: bytes, secret: Secret, random: bytes)
    requires suite.messages.decode(other) == suite.messages.decode(raw) && Accept(suite, raw, secret, random).Ok?
    ensures Accept(suite, other, secret, random) == Ok(Accept(suite, raw, secret, random).value.(clientInit := other))
  {
    hide ServerInitOf;
  }
}
