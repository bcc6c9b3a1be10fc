/** The sequence-numbered encrypt-then-MAC channel of src/quick_share_crypto.rs.
    Ciphertexts and signatures are symbolic: a ciphertext opens only under the key and IV that made
    it, and a signature verifies only for the key and content that made it. */
module SecureChannels {
  import opened Prelude
  import opened WireMessages

  type Key = bytes

  datatype SessionKeys = SessionKeys(decryptKey: Key, receiveHmacKey: Key, encryptKey: Key, sendHmacKey: Key)

  const HMAC_SHA256: int := 1
  const AES_256_CBC: int := 2

  datatype Inner = Encoded(frame: OfflineFrame) | BadFrame
  datatype Plaintext = DeviceToDevice(message: Option<Inner>, sequence: Option<int>) | BadPlaintext
  datatype Ciphertext = Sealed(key: Key, iv: bytes, plaintext: Plaintext) | Noise
  datatype Content =
    | HeaderAndBody(signatureScheme: Option<int>, encryptionScheme: Option<int>, iv: Option<bytes>, body: Ciphertext)
    | BadContent
  datatype Signature = Mac(key: Key, content: Content) | Forged
  datatype Packet = SecureMessage(content: Content, signature: Signature) | BadPacket

  datatype ChannelError =
    | Protobuf
    | AuthenticationFailed
    | InvalidSecureMessage
    | DecryptionFailed
    | SequenceMismatch(expected: int, actual: int)

  /** The value of a channel object. */
  datatype ChannelState = ChannelState(keys: SessionKeys, receiveSequence: int, sendSequence: int)

  predicate InRange(c: ChannelState) {
    0 <= c.receiveSequence <= MAX_I32 && 0 <= c.sendSequence <= MAX_I32
  }

  function Fresh(keys: SessionKeys): ChannelState {
    ChannelState(keys, 0, 0)
  }

  /** The packet that carries `frame` as number `n`. */
  function Seal(keys: SessionKeys, frame: OfflineFrame, n: int, iv: bytes): Packet {
    var plaintext := DeviceToDevice(Some(Encoded(frame)), Some(n));
    var content := HeaderAndBody(Some(HMAC_SHA256), Some(AES_256_CBC), Some(iv), Sealed(keys.encryptKey, iv, plaintext));
    SecureMessage(content, Mac(keys.sendHmacKey, content))
  }

  function Encrypt(c: ChannelState, frame: OfflineFrame, iv: bytes): (ChannelState, Result<Packet, ChannelError>) {
    if c.sendSequence == MAX_I32 then (c, Err(InvalidSecureMessage))
    else
      var n := c.sendSequence + 1;
      (c.(sendSequence := n), Ok(Seal(c.keys, frame, n, iv)))
  }

  /** The checks of `decrypt_offline_frame` up to the plaintext, in order. */
  function Open(keys: SessionKeys, p: Packet): Result<Plaintext, ChannelError> {
    if p.BadPacket? then Err(Protobuf)
    else if p.signature != Mac(keys.receiveHmacKey, p.content) then Err(AuthenticationFailed)
    else if p.content.BadContent? then Err(Protobuf)
    else if p.content.signatureScheme != Some(HMAC_SHA256) || p.content.encryptionScheme != Some(AES_256_CBC) then
      Err(InvalidSecureMessage)
    else if p.content.iv.None? || |p.content.iv.value| != 16 then Err(InvalidSecureMessage)
    else
      var body := p.content.body;
      if body.Noise? || body.key != keys.decryptKey || body.iv != p.content.iv.value then Err(DecryptionFailed)
      else if body.plaintext.BadPlaintext? then Err(Protobuf)
      else Ok(body.plaintext)
  }

  function Decrypt(c: ChannelState, p: Packet): (ChannelState, Result<OfflineFrame, ChannelError>) {
    match Open(c.keys, p)
    case Err(e) => (c, Err(e))
    case Ok(plaintext) =>
      if plaintext.BadPlaintext? || plaintext.sequence.None? then (c, Err(InvalidSecureMessage))
      else if c.receiveSequence == MAX_I32 then (c, Err(InvalidSecureMessage))
      else
        var actual, expected := plaintext.sequence.value, c.receiveSequence + 1;
        if actual != expected then (c, Err(SequenceMismatch(expected, actual)))
        else
          var advanced := c.(receiveSequence := actual);
          match plaintext.message
          case None => (advanced, Err(InvalidSecureMessage))
          case Some(BadFrame) => (advanced, Err(Protobuf))
          case Some(Encoded(frame)) => (advanced, Ok(frame))
  }

  class SecureChannel {
    const keys: SessionKeys
    var receiveSequence: int
    var sendSequence: int

    ghost predicate Valid()
      reads this
    {
      InRange(State())
    }

    ghost function State(): ChannelState
      reads this
    {
      ChannelState(keys, receiveSequence, sendSequence)
    }

    constructor (keys: SessionKeys)
      ensures Valid() && State() == Fresh(keys)
    {
      this.keys := keys;
      receiveSequence, sendSequence := 0, 0;
    }

    method EncryptOfflineFrame(frame: OfflineFrame, iv: bytes) returns (r: Result<Packet, ChannelError>)
      requires Valid()
      modifies this
      ensures Valid()
      ensures (State(), r) == Encrypt(old(State()), frame, iv)
    {
      if sendSequence == MAX_I32 {
        return Err(InvalidSecureMessage);
      }
      sendSequence := sendSequence + 1;
      var plaintext := DeviceToDevice(Some(Encoded(frame)), Some(sendSequence));
      var body := Sealed(keys.encryptKey, iv, plaintext);
      var content := HeaderAndBody(Some(HMAC_SHA256), Some(AES_256_CBC), Some(iv), body);
      r := Ok(SecureMessage(content, Mac(keys.sendHmacKey, content)));
    }

    method DecryptOfflineFrame(p: Packet) returns (r: Result<OfflineFrame, ChannelError>)
      requires Valid()
      modifies this
      ensures Valid()
      ensures (State(), r) == Decrypt(old(State()), p)
    {
      var unsealed := Open(keys, p);
      if unsealed.Err? {
        return Err(unsealed.error);
      }
      var plaintext := unsealed.value;
      if plaintext.BadPlaintext? || plaintext.sequence.None? {
        return Err(InvalidSecureMessage);
      }
      if receiveSequence == MAX_I32 {
        return Err(InvalidSecureMessage);
      }
      var expected := receiveSequence + 1;
      if plaintext.sequence.value != expected {
        return Err(SequenceMismatch(expected, plaintext.sequence.value));
      }
      receiveSequence := plaintext.sequence.value;
      match plaintext.message {
        case None => r := Err(InvalidSecureMessage);
        case Some(BadFrame) => r := Err(Protobuf);
        case Some(Encoded(frame)) => r := Ok(frame);
      }
    }
  }

  /** The counter moves on exactly the authentic, well-numbered packets; a packet can move it and still
      be refused only when its authenticated plaintext holds no decodable frame. */
  lemma CounterMovesIff(c: ChannelState, p: Packet)
    requires InRange(c)
    ensures var (c', r) := Decrypt(c, p);
            var numbered := Open(c.keys, p).Ok? && Open(c.keys, p).value.sequence == Some(c.receiveSequence + 1);
            && (c' != c <==> numbered && c.receiveSequence < MAX_I32)
            && (r.Ok? ==> c' != c)
            && (c' != c && r.Err? ==> Open(c.keys, p).value.message in {None, Some(BadFrame)})
            && InRange(c') && (c' != c ==> c' == c.(receiveSequence := c.receiveSequence + 1))
  {
  }

  /** A packet is accepted with `frame` exactly when, for some IV of 16 octets, it is the next number and the frame,
      encrypted with AES-256-CBC under the decryption key and that IV, with the IV and both schemes in the header, and
      header and ciphertext signed under the receiving MAC key. */
  lemma AcceptedIff(c: ChannelState, p: Packet, frame: OfflineFrame)
    ensures Decrypt(c, p).1 == Ok(frame) <==>
            && c.receiveSequence != MAX_I32
            && exists iv: bytes ::
                 && |iv| == 16
                 && var plaintext := DeviceToDevice(Some(Encoded(frame)), Some(c.receiveSequence + 1));
                    var content := HeaderAndBody(Some(1), Some(2), Some(iv), Sealed(c.keys.decryptKey, iv, plaintext));
                    p == SecureMessage(content, Mac(c.keys.receiveHmacKey, content))
  {
    if Decrypt(c, p).1 == Ok(frame) {
      var iv := p.content.iv.value;
      var plaintext := DeviceToDevice(Some(Encoded(frame)), Some(c.receiveSequence + 1));
      assert p.content == HeaderAndBody(Some(1), Some(2), Some(iv), Sealed(c.keys.decryptKey, iv, plaintext));
    }
  }

  // ------------------------------------------------------------------
  // Two endpoints and a network that drops, repeats, reorders, reflects and injects.

  datatype Network = Network(
    a: ChannelState, b: ChannelState,
    sentA: seq<OfflineFrame>, sentB: seq<OfflineFrame>,
    acceptedA: seq<OfflineFrame>, acceptedB: seq<OfflineFrame>,
    wire: set<Packet>)

  datatype Action =
    | SendA(frame: OfflineFrame, iv: bytes)
    | SendB(frame: OfflineFrame, iv: bytes)
    | DeliverA(packet: Packet)
    | DeliverB(packet: Packet)

  /** The two endpoints hold mirrored keys, and the two directions use different MAC keys. */
  predicate Mirrored(a: SessionKeys, b: SessionKeys) {
    && a.encryptKey == b.decryptKey && a.decryptKey == b.encryptKey
    && a.sendHmacKey == b.receiveHmacKey && a.receiveHmacKey == b.sendHmacKey
    && a.sendHmacKey != b.sendHmacKey
  }

  /** A packet whose signature verifies under one of the two session MAC keys. */
  predicate Authentic(net: Network, p: Packet) {
    p.SecureMessage? && p.signature in {Mac(net.a.keys.sendHmacKey, p.content), Mac(net.b.keys.sendHmacKey, p.content)}
  }

  /** Unforgeability: what the network delivers was seen on the wire, or does not verify. */
  predicate Possible(net: Network, action: Action) {
    match action
    case SendA(_, iv) => |iv| == 16
    case SendB(_, iv) => |iv| == 16
    case DeliverA(p) => p in net.wire || !Authentic(net, p)
    case DeliverB(p) => p in net.wire || !Authentic(net, p)
  }

  function Apply(net: Network, action: Action): Network {
    match action
    case SendA(frame, iv) =>
      var (a, r) := Encrypt(net.a, frame, iv);
      if r.Err? then net.(a := a) else net.(a := a, sentA := net.sentA + [frame], wire := net.wire + {r.value})
    case SendB(frame, iv) =>
      var (b, r) := Encrypt(net.b, frame, iv);
      if r.Err? then net.(b := b) else net.(b := b, sentB := net.sentB + [frame], wire := net.wire + {r.value})
    case DeliverA(p) =>
      var (a, r) := Decrypt(net.a, p);
      if r.Err? then net.(a := a) else net.(a := a, acceptedA := net.acceptedA + [r.value])
    case DeliverB(p) =>
      var (b, r) := Decrypt(net.b, p);
      if r.Err? then net.(b := b) else net.(b := b, acceptedB := net.acceptedB + [r.value])
  }

  function Opening(keysA: SessionKeys, keysB: SessionKeys): Network {
    Network(Fresh(keysA), Fresh(keysB), [], [], [], [], {})
  }

  function IvOf(p: Packet): bytes {
    if p.SecureMessage? && p.content.HeaderAndBody? then GetOr(p.content.iv, []) else []
  }

  predicate SealOf(p: Packet, keys: SessionKeys, sent: seq<OfflineFrame>, i: nat) {
    i < |sent| && |IvOf(p)| == 16 && p == Seal(keys, sent[i], i + 1, IvOf(p))
  }

  ghost predicate ChannelInvariant(net: Network) {
    && Mirrored(net.a.keys, net.b.keys)
    && InRange(net.a) && InRange(net.b)
    && net.a.sendSequence == |net.sentA| && net.b.sendSequence == |net.sentB|
    && net.a.receiveSequence == |net.acceptedA| && net.b.receiveSequence == |net.acceptedB|
    && net.acceptedB <= net.sentA && net.acceptedA <= net.sentB
    && (forall p :: p in net.wire ==>
          || (exists i: nat :: SealOf(p, net.a.keys, net.sentA, i))
          || (exists i: nat :: SealOf(p, net.b.keys, net.sentB, i)))
  }

  lemma SealStaysSeal(p: Packet, keys: SessionKeys, sent: seq<OfflineFrame>, frame: OfflineFrame)
    requires exists i: nat :: SealOf(p, keys, sent, i)
    ensures exists i: nat :: SealOf(p, keys, sent + [frame], i)
  {
    var i: nat :| SealOf(p, keys, sent, i);
    assert SealOf(p, keys, sent + [frame], i);
  }

  /** Only the peer's seals open, and only in the peer's order. */
  lemma {:induction false} AcceptedIsNextSent(net: Network, p: Packet)
    requires ChannelInvariant(net) && Possible(net, DeliverB(p))
    ensures Decrypt(net.b, p).1.Ok? <==> SealOf(p, net.a.keys, net.sentA, |net.acceptedB|)
    ensures Decrypt(net.b, p).1.Ok? ==> Decrypt(net.b, p).1.value == net.sentA[|net.acceptedB|]
    ensures Decrypt(net.b, p).1.Err? ==> Decrypt(net.b, p).0 == net.b
  {
    if p in net.wire && Open(net.b.keys, p).Ok? {
      assert !(exists i: nat :: SealOf(p, net.b.keys, net.sentB, i));
      var i: nat :| SealOf(p, net.a.keys, net.sentA, i);
    }
  }

  /** The same statement with the roles exchanged. */
  function Swap(net: Network): Network {
    Network(net.b, net.a, net.sentB, net.sentA, net.acceptedB, net.acceptedA, net.wire)
  }

  function SwapAction(action: Action): Action {
    match action
    case SendA(f, iv) => SendB(f, iv)
    case SendB(f, iv) => SendA(f, iv)
    case DeliverA(p) => DeliverB(p)
    case DeliverB(p) => DeliverA(p)
  }

  lemma SendPreserves(net: Network, frame: OfflineFrame, iv: bytes)
    requires ChannelInvariant(net) && |iv| == 16
    ensures ChannelInvariant(Apply(net, SendA(frame, iv)))
  {
    var next := Apply(net, SendA(frame, iv));
    var r := Encrypt(net.a, frame, iv).1;
    if r.Ok? {
      assert SealOf(r.value, next.a.keys, next.sentA, |net.sentA|);
      forall p | p in net.wire && exists i: nat :: SealOf(p, net.a.keys, net.sentA, i)
        ensures exists i: nat :: SealOf(p, net.a.keys, next.sentA, i)
      {
        SealStaysSeal(p, net.a.keys, net.sentA, frame);
      }
    }
  }

  lemma DeliverPreserves(net: Network, p: Packet)
    requires ChannelInvariant(net) && Possible(net, DeliverB(p))
    ensures ChannelInvariant(Apply(net, DeliverB(p)))
  {
    AcceptedIsNextSent(net, p);
  }

  lemma StepPreserves(net: Network, action: Action)
    requires ChannelInvariant(net) && Possible(net, action)
    ensures ChannelInvariant(Apply(net, action))
  {
    match action
    case SendA(frame, iv) => SendPreserves(net, frame, iv);
    case DeliverB(p) => DeliverPreserves(net, p);
    case SendB(frame, iv) =>
      SendPreserves(Swap(net), frame, iv);
      assert Apply(net, action) == Swap(Apply(Swap(net), SwapAction(action)));
    case DeliverA(p) =>
      DeliverPreserves(Swap(net), p);
      assert Apply(net, action) == Swap(Apply(Swap(net), SwapAction(action)));
  }

  ghost predicate PossibleRun(net: Network, actions: seq<Action>)
    decreases |actions|
  {
    actions == [] || (Possible(net, actions[0]) && PossibleRun(Apply(net, actions[0]), actions[1..]))
  }

  function ApplyAll(net: Network, actions: seq<Action>): Network
    decreases |actions|
  {
    if actions == [] then net else ApplyAll(Apply(net, actions[0]), actions[1..])
  }

  lemma {:induction false} RunPreserves(net: Network, actions: seq<Action>)
    requires ChannelInvariant(net) && PossibleRun(net, actions)
    ensures ChannelInvariant(ApplyAll(net, actions))
    decreases |actions|
  {
    if actions != [] {
      StepPreserves(net, actions[0]);
      RunPreserves(Apply(net, actions[0]), actions[1..]);
    }
  }

  /** Over every run against the network, what each endpoint has accepted is a prefix of what its peer
      has sent, and both counters stay inside i32. */
  lemma ChannelSafety(keysA: SessionKeys, keysB: SessionKeys, actions: seq<Action>)
    requires Mirrored(keysA, keysB) && PossibleRun(Opening(keysA, keysB), actions)
    ensures var net := ApplyAll(Opening(keysA, keysB), actions);
            && net.acceptedB <= net.sentA && net.acceptedA <= net.sentB
            && InRange(net.a) && InRange(net.b)
            && net.a.sendSequence == |net.sentA| && net.b.receiveSequence == |net.acceptedB|
            && net.b.sendSequence == |net.sentB| && net.a.receiveSequence == |net.acceptedA|
  {
    RunPreserves(Opening(keysA, keysB), actions);
  }

  /** In every reachable state a delivery is accepted exactly when it is the peer's next packet; it then moves the
      receive counter by one and nothing else, and a refused delivery changes nothing at all. */
  lemma ExactAcceptance(keysA: SessionKeys, keysB: SessionKeys, actions: seq<Action>, p: Packet)
    requires Mirrored(keysA, keysB) && PossibleRun(Opening(keysA, keysB), actions)
    requires Possible(ApplyAll(Opening(keysA, keysB), actions), DeliverB(p))
    ensures var net := ApplyAll(Opening(keysA, keysB), actions);
            var next := Apply(net, DeliverB(p));
            if SealOf(p, keysA, net.sentA, |net.acceptedB|)
            then next == net.(
                           b := net.b.(receiveSequence := net.b.receiveSequence + 1),
                           acceptedB := net.acceptedB + [net.sentA[|net.acceptedB|]])
            else next == net
  {
    RunPreserves(Opening(keysA, keysB), actions);
    var net := ApplyAll(Opening(keysA, keysB), actions);
    KeysFixed(Opening(keysA, keysB), actions);
    AcceptedIsNextSent(net, p);
    CounterMovesIff(net.b, p);
    hide Decrypt;
  }

  lemma {:induction false} KeysFixed(net: Network, actions: seq<Action>)
    ensures ApplyAll(net, actions).a.keys == net.a.keys && ApplyAll(net, actions).b.keys == net.b.keys
    decreases |actions|
  {
    if actions != [] {
      KeysFixed(Apply(net, actions[0]), actions[1..]);
    }
  }
}
