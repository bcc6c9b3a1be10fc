/** The two drivers over the network of `SecureChannels`, which drops, repeats, reorders, reflects and injects what is
    encrypted. The messages before the channel are delivered as they were sent, late, or never. A side writes one
    message after the other and does nothing else meanwhile; a write, like anything else a side does, can fail. */
module NetworkSession {
  import opened Prelude
  import opened WireMessages
  import opened Paths
  import opened Transfers
  import opened TransferInvariant
  import opened Preparation
  import opened Sending
  import opened Fidelity
  import opened SecureChannels
  import opened Session
  import opened SessionInvariant
  import opened SessionSteps
  import opened SessionTheorems

  // ------------------------------------------------------------------
  // One direction

  /** What one side writes: the messages sent in the clear and not yet read, those it still has to write, and whether
      it has given up writing. The encrypted ones are the network's. */
  datatype Line = Line(plain: seq<Message>, out: seq<Message>, cut: bool)

  predicate AllPlain(messages: seq<Message>) {
    forall i :: 0 <= i < |messages| ==> !messages[i].Secure?
  }

  predicate AllSecure(messages: seq<Message>) {
    forall i :: 0 <= i < |messages| ==> messages[i].Secure?
  }

  predicate PlainFirst(messages: seq<Message>) {
    forall i, j :: 0 <= i < j < |messages| && !messages[j].Secure? ==> !messages[i].Secure?
  }

  predicate LineOk(line: Line, sent: seq<OfflineFrame>) {
    AllPlain(line.plain) && PlainFirst(line.out) && (sent != [] ==> AllSecure(line.out))
  }

  function Waiting(sent: seq<OfflineFrame>, accepted: seq<OfflineFrame>): seq<OfflineFrame> {
    if |accepted| <= |sent| then sent[|accepted|..] else []
  }

  /** The queue of `Session` that this direction amounts to. */
  function QueueOf(line: Line, sent: seq<OfflineFrame>, accepted: seq<OfflineFrame>): Queue {
    Queue(line.plain + SecureAll(Waiting(sent, accepted)) + line.out, line.cut)
  }

  lemma WritesPlain(line: Line, sent: seq<OfflineFrame>, accepted: seq<OfflineFrame>)
    requires LineOk(line, sent) && line.out != [] && !line.out[0].Secure?
    ensures var next := line.(plain := line.plain + [line.out[0]], out := line.out[1..]);
            LineOk(next, sent) && QueueOf(next, sent, accepted) == QueueOf(line, sent, accepted)
  {
    assert sent == [] && SecureAll(Waiting(sent, accepted)) == [];
    assert line.plain + line.out == line.plain + [line.out[0]] + line.out[1..];
  }

  lemma WritesSecure(line: Line, sent: seq<OfflineFrame>, accepted: seq<OfflineFrame>)
    requires LineOk(line, sent) && line.out != [] && line.out[0].Secure? && |accepted| <= |sent|
    ensures var next, more := line.(out := line.out[1..]), sent + [line.out[0].frame];
            LineOk(next, more) && AllSecure(next.out) && QueueOf(next, more, accepted) == QueueOf(line, sent, accepted)
  {
    var frame := line.out[0].frame;
    assert Waiting(sent + [frame], accepted) == Waiting(sent, accepted) + [frame];
    assert SecureAll(Waiting(sent, accepted) + [frame]) == SecureAll(Waiting(sent, accepted)) + [Secure(frame)];
    assert line.out == [Secure(frame)] + line.out[1..];
    var a, b := line.plain, SecureAll(Waiting(sent, accepted));
    assert a + b + line.out == a + (b + [Secure(frame)]) + line.out[1..];
  }

  lemma PlainIsRead(line: Line, sent: seq<OfflineFrame>, accepted: seq<OfflineFrame>)
    requires line.plain != []
    ensures var q := QueueOf(line, sent, accepted);
            && q.messages != [] && q.messages[0] == line.plain[0]
            && QueueOf(line.(plain := line.plain[1..]), sent, accepted) == Rest(q)
  {
    hide Waiting, SecureAll;
  }

  lemma SecureIsRead(line: Line, sent: seq<OfflineFrame>, accepted: seq<OfflineFrame>)
    requires line.plain == [] && |accepted| < |sent|
    ensures var q := QueueOf(line, sent, accepted);
            && q.messages != [] && q.messages[0] == Secure(sent[|accepted|])
            && QueueOf(line, sent, accepted + [sent[|accepted|]]) == Rest(q)
  {
    var q := QueueOf(line, sent, accepted);
    assert Waiting(sent, accepted)[1..] == Waiting(sent, accepted + [sent[|accepted|]]);
  }

  lemma PutOnLine(line: Line, sent: seq<OfflineFrame>, accepted: seq<OfflineFrame>, out: seq<Message>)
    requires line.out == [] && !line.cut
    ensures QueueOf(line.(out := out), sent, accepted) == Put(QueueOf(line, sent, accepted), out)
  {
    hide Waiting;
  }

  // ------------------------------------------------------------------
  // The system

  datatype Wired = Wired(sender: Sender, receiver: Receiver, toReceiver: Line, toSender: Line, net: Network)

  function Start(keysA: SessionKeys, keysB: SessionKeys): Wired {
    Wired(Initial().sender, Initial().receiver, Line([], [], false), Line([], [], false), Opening(keysA, keysB))
  }

  datatype Move =
    | SenderGoesOn
    | SenderWrites(iv: bytes)
    | SenderTakesPlain
    | SenderTakes(packet: Packet)
    | SenderSeesTheEnd
    | SenderBreaks(cause: SendError)
    | ReceiverWrites(iv: bytes)
    | ReceiverTakesPlain
    | ReceiverTakes(packet: Packet)
    | ReceiverTurns(keepAlive: bool, waiting: Option<Packet>)
    | UserDecides
    | ReceiverSaysGoodbye
    | ReceiverBreaks(error: ReceiveError)

  /** The sender waits for a message in the clear. */
  predicate PlainAtSender(s: Sender) {
    s.phase.AwaitServerInit? || s.phase.AwaitServerResponse?
  }

  /** The sender has only written in the clear. */
  predicate EarlySender(s: Sender) {
    s.phase.NotStarted? || s.phase.AwaitServerInit?
  }

  predicate PlainAtReceiver(r: Receiver) {
    r.phase.AwaitRequest? || r.phase.AwaitClientInit? || r.phase.AwaitClientFinish? || r.phase.AwaitClientResponse?
  }

  predicate CanMove(cfg: Config, h: Wired, move: Move) {
    match move
    case SenderGoesOn => h.toReceiver.out == [] && SenderCanMove(cfg, h.sender, true)
    case SenderWrites(iv) => h.toReceiver.out != [] && |iv| == 16
    case SenderTakesPlain => h.toReceiver.out == [] && PlainAtSender(h.sender) && h.toSender.plain != []
    case SenderTakes(p) =>
      h.toReceiver.out == [] && SenderReady(cfg, h.sender) && !PlainAtSender(h.sender) && Possible(h.net, DeliverA(p))
    case SenderSeesTheEnd => h.toReceiver.out == [] && SenderReady(cfg, h.sender)
    case SenderBreaks(cause) =>
      (!SenderEnded(h.sender) || h.toReceiver.out != []) && cause != SendRejected && cause != LateDisconnection
    case ReceiverWrites(iv) => h.toSender.out != [] && |iv| == 16
    case ReceiverTakesPlain => h.toSender.out == [] && PlainAtReceiver(h.receiver) && h.toReceiver.plain != []
    case ReceiverTakes(p) =>
      h.toSender.out == [] && ReceiverReady(h.receiver) && !PlainAtReceiver(h.receiver) && Possible(h.net, DeliverB(p))
    case ReceiverTurns(_, waiting) =>
      && h.toSender.out == [] && h.receiver.phase.Consent? && h.receiver.phase.polls > 0
      && (waiting.Some? ==> Possible(h.net, DeliverB(waiting.value)))
    case UserDecides => h.toSender.out == [] && h.receiver.phase.Consent?
    case ReceiverSaysGoodbye => h.toSender.out == [] && h.receiver.phase.AllReceived?
    case ReceiverBreaks(error) => (!ReceiverEnded(h.receiver) || h.toSender.out != []) && error != Rejected
  }

  /** The sender gives up, and nothing more is written; even a confirmed success turns into a failure. */
  function SenderGivesUp(h: Wired, cause: SendError): Wired {
    h.(
      sender := if h.sender.phase.SenderFailed? then h.sender else h.sender.(phase := SenderFailed(cause)),
      toReceiver := h.toReceiver.(out := [], cut := true))
  }

  /** The receiver gives up. Part files are not removed when it is the acceptance that cannot be written. One that has
      closed or declined stays so. */
  function ReceiverGivesUp(cfg: Config, h: Wired, error: ReceiveError): Wired {
    var r := h.receiver;
    var answering := r.phase.Receiving? && h.toSender.out != [] && !IsNoise(h.toSender.out[0]);
    h.(
      receiver :=
        if ReceiverEnded(r) then r
        else if answering then r.(phase := ReceiverFailed(error, r.phase.world.disk))
        else Fail(cfg, r, error).receiver,
      toSender := h.toSender.(out := [], cut := true))
  }

  function Sent(h: Wired, move: SenderMove): Wired {
    h.(sender := move.sender, toReceiver := h.toReceiver.(out := move.out))
  }

  function Answered(h: Wired, move: ReceiverMove): Wired {
    h.(receiver := move.receiver, toSender := h.toSender.(out := move.out))
  }

  function SenderWritesOne(h: Wired, iv: bytes): Wired
    requires h.toReceiver.out != []
  {
    var line := h.toReceiver;
    var rest := line.(out := line.out[1..]);
    if !line.out[0].Secure? then h.(toReceiver := rest.(plain := line.plain + [line.out[0]]))
    else if Encrypt(h.net.a, line.out[0].frame, iv).1.Err? then SenderGivesUp(h, SendCrypto)
    else h.(toReceiver := rest, net := Apply(h.net, SendA(line.out[0].frame, iv)))
  }

  function ReceiverWritesOne(cfg: Config, h: Wired, iv: bytes): Wired
    requires h.toSender.out != []
  {
    var line := h.toSender;
    var rest := line.(out := line.out[1..]);
    if !line.out[0].Secure? then h.(toSender := rest.(plain := line.plain + [line.out[0]]))
    else if Encrypt(h.net.b, line.out[0].frame, iv).1.Err? then ReceiverGivesUp(cfg, h, Crypto)
    else h.(toSender := rest, net := Apply(h.net, SendB(line.out[0].frame, iv)))
  }

  /** One move; a move that cannot be made changes nothing. */
  function Step(cfg: Config, h: Wired, move: Move): Wired {
    if !CanMove(cfg, h, move) then h
    else
      match move
      case SenderGoesOn => Sent(h, SenderMoves(cfg, h.sender))
      case SenderWrites(iv) => SenderWritesOne(h, iv)
      case SenderTakesPlain =>
        Sent(h.(toSender := h.toSender.(plain := h.toSender.plain[1..])), SenderReads(cfg, h.sender, h.toSender.plain[0]))
      case SenderTakes(p) =>
        var after := h.(net := Apply(h.net, DeliverA(p)));
        (match Decrypt(h.net.a, p).1
         case Err(_) => SenderGivesUp(after, SendCrypto)
         case Ok(frame) => Sent(after, SenderReads(cfg, h.sender, Secure(frame))))
      case SenderSeesTheEnd => h.(sender := SenderAtEof(h.sender))
      case SenderBreaks(cause) => SenderGivesUp(h, cause)
      case ReceiverWrites(iv) => ReceiverWritesOne(cfg, h, iv)
      case ReceiverTakesPlain =>
        Answered(
          h.(toReceiver := h.toReceiver.(plain := h.toReceiver.plain[1..])), ReceiverReads(cfg, h.receiver, h.toReceiver.plain[0]))
      case ReceiverTakes(p) =>
        var after := h.(net := Apply(h.net, DeliverB(p)));
        (match Decrypt(h.net.b, p).1
         case Err(_) => ReceiverGivesUp(cfg, after, Crypto)
         case Ok(frame) => Answered(after, ReceiverReads(cfg, h.receiver, Secure(frame))))
      case ReceiverTurns(keepAlive, None) => Answered(h, ReceiverWaits(cfg, h.receiver, keepAlive, None))
      case ReceiverTurns(keepAlive, Some(p)) =>
        var after := h.(net := Apply(h.net, DeliverB(p)));
        (match Decrypt(h.net.b, p).1
         case Err(_) => ReceiverGivesUp(cfg, after, Crypto)
         case Ok(frame) => Answered(after, ReceiverWaits(cfg, h.receiver, keepAlive, Some(Secure(frame)))))
      case UserDecides => Answered(h, ReceiverDecides(cfg, h.receiver))
      case ReceiverSaysGoodbye =>
        var r := h.receiver;
        Answered(h, ReceiverMove(r.(phase := Closed(r.phase.world), sent := r.sent + 1), [Secure(OfFrameType(DISCONNECTION))]))
      case ReceiverBreaks(error) => ReceiverGivesUp(cfg, h, error)
  }

  // ------------------------------------------------------------------
  // The invariant: seen through its lines the system is a session

  function Seen(h: Wired): State {
    State(
      h.sender, h.receiver,
      QueueOf(h.toReceiver, h.net.sentA, h.net.acceptedB), QueueOf(h.toSender, h.net.sentB, h.net.acceptedA), true)
  }

  ghost predicate SenderLineOk(h: Wired) {
    && LineOk(h.toReceiver, h.net.sentA) && (h.toReceiver.cut ==> SenderEnded(h.sender) && h.toReceiver.out == [])
    && (EarlySender(h.sender) ==> h.net.sentA == [] && AllPlain(h.toReceiver.out))
  }

  ghost predicate ReceiverLineOk(h: Wired) {
    && LineOk(h.toSender, h.net.sentB) && (h.toSender.cut ==> ReceiverEnded(h.receiver) && h.toSender.out == [])
    && (PlainAtReceiver(h.receiver) ==> h.net.sentB == [] && AllPlain(h.toSender.out))
  }

  ghost predicate WiredOk(cfg: Config, h: Wired) {
    SessionOk(cfg, Seen(h)) && ChannelInvariant(h.net) && SenderLineOk(h) && ReceiverLineOk(h)
  }

  lemma StartIsOk(cfg: Config, keysA: SessionKeys, keysB: SessionKeys)
    requires Proper(cfg) && Mirrored(keysA, keysB)
    ensures WiredOk(cfg, Start(keysA, keysB))
  {
    InitialIsOk(cfg);
    hide Proper;
    assert Seen(Start(keysA, keysB)).(faulty := false) == Initial();
  }

  // ------------------------------------------------------------------
  // What the sides write

  lemma SenderMovesShape(cfg: Config, s: Sender)
    requires SenderCanMove(cfg, s, true)
    ensures var move := SenderMoves(cfg, s);
            if s.phase.NotStarted? then AllPlain(move.out) else AllSecure(move.out) && !EarlySender(move.sender)
  {
    hide Plan;
  }

  lemma SenderReadsShape(cfg: Config, s: Sender, m: Message)
    requires SenderReady(cfg, s)
    ensures var move := SenderReads(cfg, s, m);
            && !EarlySender(move.sender)
            && if s.phase.AwaitServerInit? then AllPlain(move.out) else AllSecure(move.out)
  {
    hide Plan, ReadSharing, SharingMessages, Replies;
    FromSenderIsSecure(cfg);
  }

  lemma FromSenderIsSecure(cfg: Config)
    ensures forall i, frame :: i < 3 ==> AllSecure(FromSender(cfg, i, frame))
  {
  }

  lemma ReceiverReadsShape(cfg: Config, r: Receiver, m: Message)
    requires ReceiverReady(r)
    ensures var move := ReceiverReads(cfg, r, m);
            && PlainFirst(move.out) && (PlainAtReceiver(move.receiver) ==> AllPlain(move.out))
            && (!PlainAtReceiver(r) ==> AllSecure(move.out) && !PlainAtReceiver(move.receiver))
  {
    hide ReadSharing, SharingMessages, Replies, Handle, Finished, OfferOk;
    FromReceiverIsSecure(cfg);
  }

  lemma FromReceiverIsSecure(cfg: Config)
    ensures forall i, frame :: 3 <= i < 6 ==> AllSecure(FromReceiver(cfg, i, frame))
  {
  }

  lemma SenderLineKept(h: Wired, move: SenderMove)
    requires SenderLineOk(h) && h.toReceiver.out == [] && !h.toReceiver.cut
    requires if EarlySender(h.sender) then AllPlain(move.out) else AllSecure(move.out) && !EarlySender(move.sender)
    ensures SenderLineOk(Sent(h, move))
  {
  }

  lemma ReceiverLineKept(h: Wired, move: ReceiverMove)
    requires ReceiverLineOk(h) && h.toSender.out == [] && !h.toSender.cut
    requires PlainFirst(move.out) && (PlainAtReceiver(move.receiver) ==> PlainAtReceiver(h.receiver) && AllPlain(move.out))
    requires !PlainAtReceiver(h.receiver) ==> AllSecure(move.out)
    ensures ReceiverLineOk(Answered(h, move))
  {
  }

  // ------------------------------------------------------------------
  // Steps that read nothing

  lemma SenderGoesOnKeeps(cfg: Config, h: Wired)
    requires Proper(cfg) && WiredOk(cfg, h) && CanMove(cfg, h, SenderGoesOn)
    ensures WiredOk(cfg, Step(cfg, h, SenderGoesOn))
    ensures var move, seen := SenderMoves(cfg, h.sender), Seen(h);
            Seen(Step(cfg, h, SenderGoesOn)) == seen.(sender := move.sender, toReceiver := Put(seen.toReceiver, move.out))
  {
    hide SessionOk, ChannelInvariant, Proper, SenderMoves, QueueOf, LineOk, AllPlain, AllSecure;
    var move := SenderMoves(cfg, h.sender);
    assert h.sender.phase.NotStarted? || h.sender.phase.SendingFiles?;
    SenderMovesShape(cfg, h.sender);
    SenderLineKept(h, move);
    PutOnLine(h.toReceiver, h.net.sentA, h.net.acceptedA, move.out);
    PutOnLine(h.toReceiver, h.net.sentA, h.net.acceptedB, move.out);
    SenderHasMoved(cfg, Seen(h));
  }

  /** Whether anything waits to be read does not matter. */
  lemma SenderHasMoved(cfg: Config, st: State)
    requires Proper(cfg) && SessionOk(cfg, st) && st.faulty && (st.sender.phase.NotStarted? || st.sender.phase.SendingFiles?)
    ensures var move := SenderMoves(cfg, st.sender);
            SessionOk(cfg, st.(sender := move.sender, toReceiver := Put(st.toReceiver, move.out)))
  {
    hide SenderMoves, SenderOk, ReceiverOk, QueueOk, OutOk, OnlyAcks, NoNoise, Proper;
    SenderMovesKeep(cfg, st.sender);
    var move := SenderMoves(cfg, st.sender);
    PutOk(cfg, true, st.toReceiver, st.receiver.read, st.sender.sent, move.sender.sent, move.out);
    NoNoisePut(st.toReceiver, move.out);
  }

  lemma UserDecidesKeeps(cfg: Config, h: Wired)
    requires Proper(cfg) && WiredOk(cfg, h) && CanMove(cfg, h, UserDecides)
    ensures WiredOk(cfg, Step(cfg, h, UserDecides))
    ensures Seen(Step(cfg, h, UserDecides)) == Next(cfg, Seen(h), DecideStep)
  {
    hide SessionOk, ChannelInvariant, Proper, ReceiverDecides, QueueOf, LineOk, AllPlain, AllSecure, PlainFirst;
    var move := ReceiverDecides(cfg, h.receiver);
    DecidesShape(cfg, h.receiver);
    ReceiverLineKept(h, move);
    PutOnLine(h.toSender, h.net.sentB, h.net.acceptedA, move.out);
    StepKeeps(cfg, Seen(h), DecideStep);
  }

  lemma DecidesShape(cfg: Config, r: Receiver)
    requires r.phase.Consent?
    ensures var move := ReceiverDecides(cfg, r);
            AllSecure(move.out) && PlainFirst(move.out) && !PlainAtReceiver(move.receiver)
  {
    hide Prepare, Finished, SharingMessages;
    FromReceiverIsSecure(cfg);
  }

  lemma GoodbyeKeeps(cfg: Config, h: Wired)
    requires Proper(cfg) && WiredOk(cfg, h) && CanMove(cfg, h, ReceiverSaysGoodbye)
    ensures WiredOk(cfg, Step(cfg, h, ReceiverSaysGoodbye))
    ensures Seen(Step(cfg, h, ReceiverSaysGoodbye)) == Next(cfg, Seen(h), CloseStep)
  {
    hide SessionOk, ChannelInvariant, Proper, QueueOf, LineOk, OfFrameType;
    var out := [Secure(OfFrameType(DISCONNECTION))];
    var r := h.receiver;
    ReceiverLineKept(h, ReceiverMove(r.(phase := Closed(r.phase.world), sent := r.sent + 1), out));
    PutOnLine(h.toSender, h.net.sentB, h.net.acceptedA, out);
    StepKeeps(cfg, Seen(h), CloseStep);
  }

  // ------------------------------------------------------------------
  // Writing, and giving up

  lemma SenderGivesUpKeeps(cfg: Config, h: Wired, cause: SendError)
    requires Proper(cfg) && WiredOk(cfg, h) && cause != SendRejected && cause != LateDisconnection
    ensures WiredOk(cfg, SenderGivesUp(h, cause))
  {
    hide ChannelInvariant, Proper, SenderOk, ReceiverOk, QueueOk, At, QueueOf, OnlyAcks, NoNoise;
    SenderFails(cfg, h.sender, cause);
    TailLost(cfg, true, h.toReceiver, h.net.sentA, h.net.acceptedB, h.receiver.read, h.sender.sent);
  }

  lemma SenderFails(cfg: Config, s: Sender, cause: SendError)
    requires SenderOk(cfg, s) && cause != SendRejected && cause != LateDisconnection
    ensures SenderOk(cfg, s.(phase := SenderFailed(cause)))
  {
    hide Plan, SentFiles, EmittedBefore;
  }

  /** Messages that are never written are messages lost. */
  lemma TailLost(cfg: Config, fromSender: bool, line: Line, sent: seq<OfflineFrame>, accepted: seq<OfflineFrame>, read: nat, count: nat)
    requires QueueOk(cfg, fromSender, QueueOf(line, sent, accepted), read, count)
    ensures var q, cut := QueueOf(line, sent, accepted), QueueOf(line.(out := [], cut := true), sent, accepted);
            && QueueOk(cfg, fromSender, cut, read, count)
            && (OnlyAcks(q.messages) ==> OnlyAcks(cut.messages)) && (NoNoise(q.messages) ==> NoNoise(cut.messages))
  {
    hide At, Waiting;
    var q, cut := QueueOf(line, sent, accepted), QueueOf(line.(out := [], cut := true), sent, accepted);
    var n := |cut.messages|;
    assert q.messages[..n] == cut.messages;
    CutOk(cfg, fromSender, q, read, count, n);
  }

  lemma ReceiverGivesUpKeeps(cfg: Config, h: Wired, error: ReceiveError)
    requires Proper(cfg) && WiredOk(cfg, h) && error != Rejected
    ensures WiredOk(cfg, ReceiverGivesUp(cfg, h, error))
  {
    hide ChannelInvariant, Proper, SenderOk, ReceiverOk, QueueOk, At, QueueOf, ReceiverGivesUp;
    ReceiverFails(cfg, h, error);
    TailLost(cfg, false, h.toSender, h.net.sentB, h.net.acceptedA, h.sender.read, h.receiver.sent);
    SameCounts(cfg, h, error);
  }

  lemma ReceiverFails(cfg: Config, h: Wired, error: ReceiveError)
    requires Proper(cfg) && ReceiverOk(cfg, h.receiver) && error != Rejected
    ensures ReceiverOk(cfg, ReceiverGivesUp(cfg, h, error).receiver)
  {
    hide ReceiverOk, Proper, Fail;
    if !ReceiverEnded(h.receiver) {
      FailKeeps(cfg, h.receiver, error);
      if h.receiver.phase.Receiving? {
        AnswerFails(cfg, h.receiver, error, h.receiver.phase.world.disk);
      }
    }
  }

  lemma AnswerFails(cfg: Config, r: Receiver, error: ReceiveError, disk: Disk)
    requires ReceiverOk(cfg, r) && r.phase.Receiving? && error != Rejected
    ensures ReceiverOk(cfg, r.(phase := ReceiverFailed(error, disk)))
  {
    hide OnTheWay, Prepares, Finished, SentFiles;
  }

  lemma SameCounts(cfg: Config, h: Wired, error: ReceiveError)
    ensures var r := ReceiverGivesUp(cfg, h, error).receiver;
            && r.sent == h.receiver.sent && r.read == h.receiver.read && ReceiverEnded(r)
            && ReceiverGivesUp(cfg, h, error) == h.(receiver := r, toSender := h.toSender.(out := [], cut := true))
  {
  }

  lemma SenderWritesKeeps(cfg: Config, h: Wired, iv: bytes)
    requires Proper(cfg) && WiredOk(cfg, h) && CanMove(cfg, h, SenderWrites(iv))
    ensures WiredOk(cfg, Step(cfg, h, SenderWrites(iv)))
  {
    hide SessionOk, ChannelInvariant, Proper, QueueOf, LineOk, Encrypt;
    var line := h.toReceiver;
    if !line.out[0].Secure? {
      WritesPlain(line, h.net.sentA, h.net.acceptedB);
    } else if Encrypt(h.net.a, line.out[0].frame, iv).1.Err? {
      SenderGivesUpKeeps(cfg, h, SendCrypto);
    } else {
      StepPreserves(h.net, SendA(line.out[0].frame, iv));
      PrefixOfSent(h.net);
      WritesSecure(line, h.net.sentA, h.net.acceptedB);
    }
  }

  lemma PrefixOfSent(net: Network)
    requires ChannelInvariant(net)
    ensures |net.acceptedB| <= |net.sentA| && |net.acceptedA| <= |net.sentB|
  {
  }

  lemma ReceiverWritesKeeps(cfg: Config, h: Wired, iv: bytes)
    requires Proper(cfg) && WiredOk(cfg, h) && CanMove(cfg, h, ReceiverWrites(iv))
    ensures WiredOk(cfg, Step(cfg, h, ReceiverWrites(iv)))
  {
    hide SessionOk, ChannelInvariant, Proper, QueueOf, LineOk, Encrypt, ReceiverGivesUp;
    var line := h.toSender;
    if !line.out[0].Secure? {
      WritesPlain(line, h.net.sentB, h.net.acceptedA);
    } else if Encrypt(h.net.b, line.out[0].frame, iv).1.Err? {
      ReceiverGivesUpKeeps(cfg, h, Crypto);
    } else {
      StepPreserves(h.net, SendB(line.out[0].frame, iv));
      PrefixOfSent(h.net);
      WritesSecure(line, h.net.sentB, h.net.acceptedA);
    }
  }

  // ------------------------------------------------------------------
  // Reading

  /** A side past the messages in the clear has read them all. */
  lemma NoPlainLeft(cfg: Config, fromSender: bool, line: Line, sent: seq<OfflineFrame>, accepted: seq<OfflineFrame>, read: nat, count: nat)
    requires QueueOk(cfg, fromSender, QueueOf(line, sent, accepted), read, count) && AllPlain(line.plain)
    requires read >= if fromSender then 4 else 2
    ensures line.plain == []
  {
    hide Waiting;
    if line.plain != [] {
      var q := QueueOf(line, sent, accepted);
      assert q.messages[0] == line.plain[0] && !IsNoise(q.messages[0]);
      RestOk(cfg, fromSender, q, read, count);
      LaterIsSecure(cfg, fromSender, read);
      assert false;
    }
  }

  lemma LaterIsSecure(cfg: Config, fromSender: bool, i: nat)
    requires i >= if fromSender then 4 else 2
    ensures At(cfg, fromSender, i).Secure?
  {
    FromSenderIsSecure(cfg);
    FromReceiverIsSecure(cfg);
    hide FromSender, FromReceiver, SentFiles;
  }

  lemma SenderTakesPlainKeeps(cfg: Config, h: Wired)
    requires Proper(cfg) && WiredOk(cfg, h) && CanMove(cfg, h, SenderTakesPlain)
    ensures WiredOk(cfg, Step(cfg, h, SenderTakesPlain))
    ensures Seen(Step(cfg, h, SenderTakesPlain)) == Next(cfg, Seen(h), SenderReadStep)
  {
    hide SessionOk, ChannelInvariant, Proper, QueueOf, AllSecure, SenderReads;
    var move := SenderReads(cfg, h.sender, h.toSender.plain[0]);
    PlainIsRead(h.toSender, h.net.sentB, h.net.acceptedA);
    SenderReadsShape(cfg, h.sender, h.toSender.plain[0]);
    SenderLineKept(h, move);
    PutOnLine(h.toReceiver, h.net.sentA, h.net.acceptedB, move.out);
    StepKeeps(cfg, Seen(h), SenderReadStep);
  }

  lemma ReceiverTakesPlainKeeps(cfg: Config, h: Wired)
    requires Proper(cfg) && WiredOk(cfg, h) && CanMove(cfg, h, ReceiverTakesPlain)
    ensures WiredOk(cfg, Step(cfg, h, ReceiverTakesPlain))
    ensures Seen(Step(cfg, h, ReceiverTakesPlain)) == Next(cfg, Seen(h), ReceiverReadStep)
  {
    hide SessionOk, ChannelInvariant, Proper, QueueOf, AllSecure, ReceiverReads;
    var move := ReceiverReads(cfg, h.receiver, h.toReceiver.plain[0]);
    PlainIsRead(h.toReceiver, h.net.sentA, h.net.acceptedB);
    ReceiverReadsShape(cfg, h.receiver, h.toReceiver.plain[0]);
    ReceiverLineKept(h, move);
    PutOnLine(h.toSender, h.net.sentB, h.net.acceptedA, move.out);
    StepKeeps(cfg, Seen(h), ReceiverReadStep);
  }

  /** What the receiver accepts is the next frame of the sender, and stands at the head of its queue; a packet it
      does not accept changes nothing. */
  lemma ReceiverAccepts(cfg: Config, h: Wired, p: Packet)
    requires WiredOk(cfg, h) && Possible(h.net, DeliverB(p)) && h.receiver.read >= 4
    ensures var r, q, after := Decrypt(h.net.b, p).1, Seen(h).toReceiver, Apply(h.net, DeliverB(p));
            && ChannelInvariant(after)
            && if r.Err? then after == h.net
               else
                 && q.messages != [] && q.messages[0] == Secure(r.value)
                 && QueueOf(h.toReceiver, after.sentA, after.acceptedB) == Rest(q)
                 && after.sentB == h.net.sentB && after.acceptedA == h.net.acceptedA && after.sentA == h.net.sentA
  {
    hide SessionOk, QueueOf, Decrypt, SealOf, Mirrored;
    SeenQueues(cfg, h);
    NoPlainLeft(cfg, true, h.toReceiver, h.net.sentA, h.net.acceptedB, h.receiver.read, h.sender.sent);
    AcceptedIsNextSent(h.net, p);
    StepPreserves(h.net, DeliverB(p));
    if Decrypt(h.net.b, p).1.Ok? {
      NextExists(h.net, p);
      SecureIsRead(h.toReceiver, h.net.sentA, h.net.acceptedB);
    }
  }

  lemma NextExists(net: Network, p: Packet)
    requires SealOf(p, net.a.keys, net.sentA, |net.acceptedB|)
    ensures |net.acceptedB| < |net.sentA|
  {
  }

  lemma SeenQueues(cfg: Config, h: Wired)
    requires SessionOk(cfg, Seen(h))
    ensures QueueOk(cfg, true, Seen(h).toReceiver, h.receiver.read, h.sender.sent)
    ensures QueueOk(cfg, false, Seen(h).toSender, h.sender.read, h.receiver.sent)
    ensures SenderOk(cfg, h.sender) && ReceiverOk(cfg, h.receiver)
  {
  }

  lemma SenderAccepts(cfg: Config, h: Wired, p: Packet)
    requires WiredOk(cfg, h) && Possible(h.net, DeliverA(p)) && h.sender.read >= 2
    ensures var r, q, after := Decrypt(h.net.a, p).1, Seen(h).toSender, Apply(h.net, DeliverA(p));
            && ChannelInvariant(after)
            && if r.Err? then after == h.net
               else
                 && q.messages != [] && q.messages[0] == Secure(r.value)
                 && QueueOf(h.toSender, after.sentB, after.acceptedA) == Rest(q)
                 && after.sentA == h.net.sentA && after.acceptedB == h.net.acceptedB && after.sentB == h.net.sentB
  {
    hide SessionOk, QueueOf, Decrypt, SealOf;
    SeenQueues(cfg, h);
    NoPlainLeft(cfg, false, h.toSender, h.net.sentB, h.net.acceptedA, h.sender.read, h.receiver.sent);
    SwapKeeps(h.net, p);
    AcceptedIsNextSent(Swap(h.net), p);
    StepPreserves(h.net, DeliverA(p));
    if Decrypt(h.net.a, p).1.Ok? {
      NextExists(Swap(h.net), p);
      SecureIsRead(h.toSender, h.net.sentB, h.net.acceptedA);
    }
  }

  lemma SwapKeeps(net: Network, p: Packet)
    requires ChannelInvariant(net) && Possible(net, DeliverA(p))
    ensures ChannelInvariant(Swap(net)) && Possible(Swap(net), DeliverB(p))
  {
  }

  lemma SecurePhaseOfSender(cfg: Config, s: Sender)
    requires SenderOk(cfg, s) && SenderReady(cfg, s) && !PlainAtSender(s)
    ensures s.read >= 2 && !EarlySender(s)
  {
    hide Plan, SentFiles, EmittedBefore;
  }

  lemma SecurePhaseOfReceiver(cfg: Config, r: Receiver)
    requires ReceiverOk(cfg, r) && !PlainAtReceiver(r) && !ReceiverEnded(r)
    ensures r.read >= 4
  {
    hide OnTheWay, AllCommitted, Deliverable, SentFiles;
  }

  lemma SenderTakesKeeps(cfg: Config, h: Wired, p: Packet)
    requires Proper(cfg) && WiredOk(cfg, h) && CanMove(cfg, h, SenderTakes(p))
    ensures WiredOk(cfg, Step(cfg, h, SenderTakes(p)))
    ensures Decrypt(h.net.a, p).1.Ok? ==> Seen(Step(cfg, h, SenderTakes(p))) == Next(cfg, Seen(h), SenderReadStep)
  {
    hide SessionOk, ChannelInvariant, Proper, QueueOf, LineOk, AllPlain, AllSecure, SenderReads, Decrypt, SenderReady, SenderGivesUp;
    SeenQueues(cfg, h);
    SecurePhaseOfSender(cfg, h.sender);
    SenderAccepts(cfg, h, p);
    var r := Decrypt(h.net.a, p).1;
    if r.Err? {
      SenderGivesUpKeeps(cfg, h, SendCrypto);
    } else {
      var after, move := h.(net := Apply(h.net, DeliverA(p))), SenderReads(cfg, h.sender, Secure(r.value));
      SenderReadsShape(cfg, h.sender, Secure(r.value));
      SenderNotEnded(cfg, h.sender);
      SenderLineKept(after, move);
      PutOnLine(h.toReceiver, h.net.sentA, h.net.acceptedB, move.out);
      StepKeeps(cfg, Seen(h), SenderReadStep);
    }
  }

  lemma SenderNotEnded(cfg: Config, s: Sender)
    requires SenderReady(cfg, s)
    ensures !SenderEnded(s)
  {
  }

  lemma ReceiverTakesKeeps(cfg: Config, h: Wired, p: Packet)
    requires Proper(cfg) && WiredOk(cfg, h) && CanMove(cfg, h, ReceiverTakes(p))
    ensures WiredOk(cfg, Step(cfg, h, ReceiverTakes(p)))
    ensures Decrypt(h.net.b, p).1.Ok? ==> Seen(Step(cfg, h, ReceiverTakes(p))) == Next(cfg, Seen(h), ReceiverReadStep)
  {
    hide SessionOk, ChannelInvariant, Proper, QueueOf, LineOk, AllPlain, AllSecure, PlainFirst, ReceiverReads, Decrypt, ReceiverGivesUp;
    SeenQueues(cfg, h);
    SecurePhaseOfReceiver(cfg, h.receiver);
    ReceiverAccepts(cfg, h, p);
    var r := Decrypt(h.net.b, p).1;
    if r.Err? {
      ReceiverGivesUpKeeps(cfg, h, Crypto);
    } else {
      var after, move := h.(net := Apply(h.net, DeliverB(p))), ReceiverReads(cfg, h.receiver, Secure(r.value));
      ReceiverReadsShape(cfg, h.receiver, Secure(r.value));
      ReceiverLineKept(after, move);
      PutOnLine(h.toSender, h.net.sentB, h.net.acceptedA, move.out);
      StepKeeps(cfg, Seen(h), ReceiverReadStep);
    }
  }

  // ------------------------------------------------------------------
  // The consent loop

  lemma WaitsShape(cfg: Config, r: Receiver, keepAlive: bool, waiting: Option<Message>)
    requires r.phase.Consent? && r.phase.polls > 0
    ensures var move := ReceiverWaits(cfg, r, keepAlive, waiting);
            AllSecure(move.out) && PlainFirst(move.out) && !PlainAtReceiver(move.receiver)
  {
    hide Replies;
  }

  lemma TurnKeeps(cfg: Config, h: Wired, keepAlive: bool)
    requires h.receiver.phase.Consent? && h.receiver.phase.polls > 0 && h.toSender.out == [] && Proper(cfg) && WiredOk(cfg, h)
    ensures WiredOk(cfg, Step(cfg, h, ReceiverTurns(keepAlive, None)))
    ensures var move, seen := ReceiverWaits(cfg, h.receiver, keepAlive, None), Seen(h);
            Seen(Step(cfg, h, ReceiverTurns(keepAlive, None)))
            == seen.(receiver := move.receiver, toSender := Put(seen.toSender, move.out))
  {
    hide SessionOk, ChannelInvariant, Proper, QueueOf, LineOk, AllPlain, AllSecure, PlainFirst, ReceiverWaits;
    var move := ReceiverWaits(cfg, h.receiver, keepAlive, None);
    WaitsShape(cfg, h.receiver, keepAlive, None);
    ReceiverLineKept(h, move);
    PutOnLine(h.toSender, h.net.sentB, h.net.acceptedA, move.out);
    TurnedWithoutReading(cfg, Seen(h), keepAlive);
  }

  /** A turn may find nothing although something is on its way. */
  lemma TurnedWithoutReading(cfg: Config, st: State, keepAlive: bool)
    requires Proper(cfg) && SessionOk(cfg, st) && st.faulty && st.receiver.phase.Consent? && st.receiver.phase.polls > 0
    ensures var move := ReceiverWaits(cfg, st.receiver, keepAlive, None);
            SessionOk(cfg, st.(receiver := move.receiver, toSender := Put(st.toSender, move.out)))
  {
    WaitingKeepsReceiver(cfg, st.receiver);
    WaitingIsQuiet(cfg, st.receiver, keepAlive, None);
    hide SenderOk, ReceiverOk, QueueOk, OutOk, OnlyAcks, NoNoise, Proper, At, ReceiverWaits;
    var move := ReceiverWaits(cfg, st.receiver, keepAlive, None);
    PutOk(cfg, false, st.toSender, st.sender.read, st.receiver.sent, st.receiver.sent, move.out);
  }

  lemma TurnOnPacketKeeps(cfg: Config, h: Wired, keepAlive: bool, p: Packet)
    requires Proper(cfg) && WiredOk(cfg, h) && CanMove(cfg, h, ReceiverTurns(keepAlive, Some(p)))
    ensures WiredOk(cfg, Step(cfg, h, ReceiverTurns(keepAlive, Some(p))))
    ensures Decrypt(h.net.b, p).1.Ok? ==>
              Seen(Step(cfg, h, ReceiverTurns(keepAlive, Some(p)))) == Next(cfg, Seen(h), WaitStep(keepAlive))
  {
    hide SessionOk, ChannelInvariant, Proper, QueueOf, LineOk, AllPlain, AllSecure, PlainFirst, ReceiverWaits, Decrypt, ReceiverGivesUp;
    SeenQueues(cfg, h);
    SecurePhaseOfReceiver(cfg, h.receiver);
    ReceiverAccepts(cfg, h, p);
    var r := Decrypt(h.net.b, p).1;
    if r.Err? {
      ReceiverGivesUpKeeps(cfg, h, Crypto);
    } else {
      var after := h.(net := Apply(h.net, DeliverB(p)));
      var move := ReceiverWaits(cfg, h.receiver, keepAlive, Some(Secure(r.value)));
      WaitsShape(cfg, h.receiver, keepAlive, Some(Secure(r.value)));
      ReceiverLineKept(after, move);
      PutOnLine(h.toSender, h.net.sentB, h.net.acceptedA, move.out);
      TurnedOnMessage(cfg, Seen(h), keepAlive);
    }
  }

  lemma TurnedOnMessage(cfg: Config, st: State, keepAlive: bool)
    requires Proper(cfg) && SessionOk(cfg, st) && st.receiver.phase.Consent? && st.receiver.phase.polls > 0
    requires st.toReceiver.messages != []
    ensures var move := ReceiverWaits(cfg, st.receiver, keepAlive, Some(st.toReceiver.messages[0]));
            SessionOk(cfg, st.(receiver := move.receiver, toReceiver := Rest(st.toReceiver), toSender := Put(st.toSender, move.out)))
  {
    OnlyAcksWait(cfg, st);
    WaitingIsQuiet(cfg, st.receiver, keepAlive, Some(st.toReceiver.messages[0]));
    hide ReceiverWaits, SessionOk, Proper, Put, OutOk;
    ReceiverHasWaited(cfg, st, ReceiverWaits(cfg, st.receiver, keepAlive, Some(st.toReceiver.messages[0])).out);
  }

  // ------------------------------------------------------------------
  // Theorems

  lemma SenderSeesTheEndKeeps(cfg: Config, h: Wired)
    requires Proper(cfg) && WiredOk(cfg, h) && CanMove(cfg, h, SenderSeesTheEnd)
    ensures WiredOk(cfg, Step(cfg, h, SenderSeesTheEnd))
  {
    hide ChannelInvariant, QueueOk, SenderOk, SenderReady, ReceiverOk, Proper, NoNoise, OnlyAcks, QueueOf, LineOk, SenderAtEof;
    SenderAtEofOk(cfg, h.sender);
    SenderNotEnded(cfg, h.sender);
  }

  lemma {:induction false} StepStaysOk(cfg: Config, h: Wired, move: Move)
    requires Proper(cfg) && WiredOk(cfg, h) && CanMove(cfg, h, move)
    ensures WiredOk(cfg, Step(cfg, h, move))
  {
    hide WiredOk, Proper, SenderGivesUp, ReceiverGivesUp;
    match move
    case SenderGoesOn => SenderGoesOnKeeps(cfg, h);
    case SenderWrites(iv) => SenderWritesKeeps(cfg, h, iv);
    case SenderTakesPlain => SenderTakesPlainKeeps(cfg, h);
    case SenderTakes(p) => SenderTakesKeeps(cfg, h, p);
    case SenderSeesTheEnd => SenderSeesTheEndKeeps(cfg, h);
    case SenderBreaks(cause) => SenderGivesUpKeeps(cfg, h, cause);
    case ReceiverWrites(iv) => ReceiverWritesKeeps(cfg, h, iv);
    case ReceiverTakesPlain => ReceiverTakesPlainKeeps(cfg, h);
    case ReceiverTakes(p) => ReceiverTakesKeeps(cfg, h, p);
    case ReceiverTurns(keepAlive, None) => TurnKeeps(cfg, h, keepAlive);
    case ReceiverTurns(keepAlive, Some(p)) => TurnOnPacketKeeps(cfg, h, keepAlive, p);
    case UserDecides => UserDecidesKeeps(cfg, h);
    case ReceiverSaysGoodbye => GoodbyeKeeps(cfg, h);
    case ReceiverBreaks(error) => ReceiverGivesUpKeeps(cfg, h, error);
  }

  predicate CanGo(cfg: Config, h: Wired, moves: seq<Move>)
    decreases |moves|
  {
    moves == [] || (CanMove(cfg, h, moves[0]) && CanGo(cfg, Step(cfg, h, moves[0]), moves[1..]))
  }

  function End(cfg: Config, h: Wired, moves: seq<Move>): Wired
    decreases |moves|
  {
    if moves == [] then h else End(cfg, Step(cfg, h, moves[0]), moves[1..])
  }

  lemma {:induction false} RunStaysOk(cfg: Config, h: Wired, moves: seq<Move>)
    requires Proper(cfg) && WiredOk(cfg, h) && CanGo(cfg, h, moves)
    ensures WiredOk(cfg, End(cfg, h, moves))
    decreases |moves|
  {
    hide WiredOk, Proper, CanMove, Step;
    if moves != [] {
      StepStaysOk(cfg, h, moves[0]);
      RunStaysOk(cfg, Step(cfg, h, moves[0]), moves[1..]);
    }
  }

  /** Commit confirmation against the network. Two sides with mirrored keys, whatever the network drops, repeats,
      reorders, reflects or injects without forging a signature, and whatever else fails on either side: when the
      sender has taken a Disconnection for the end, the user had accepted, the files could be delivered, and the
      receiver had committed every file with the bytes read and had closed. */
  lemma ConfirmedOverTheNetwork(cfg: Config, keysA: SessionKeys, keysB: SessionKeys, moves: seq<Move>)
    requires Proper(cfg) && Mirrored(keysA, keysB) && CanGo(cfg, Start(keysA, keysB), moves)
    ensures var h := End(cfg, Start(keysA, keysB), moves);
            h.sender.phase in {Succeeded(true), SenderFailed(LateDisconnection)} ==>
              && cfg.accept && Deliverable(cfg) && h.receiver.phase.Closed?
              && AllCommitted(cfg, h.receiver.phase.world)
  {
    StartIsOk(cfg, keysA, keysB);
    RunStaysOk(cfg, Start(keysA, keysB), moves);
    hide End, CanGo, Proper, SessionOk, ChannelInvariant, AllCommitted, Deliverable;
    var h := End(cfg, Start(keysA, keysB), moves);
    if h.sender.phase in {Succeeded(true), SenderFailed(LateDisconnection)} {
      ConfirmedIsCommitted(cfg, Seen(h));
    }
  }

  /** And nothing is written while the user has not accepted. */
  lemma DeclinedOverTheNetwork(cfg: Config, keysA: SessionKeys, keysB: SessionKeys, moves: seq<Move>)
    requires Proper(cfg) && Mirrored(keysA, keysB) && CanGo(cfg, Start(keysA, keysB), moves) && !cfg.accept
    ensures DiskOf(cfg, End(cfg, Start(keysA, keysB), moves).receiver) == cfg.disk
  {
    StartIsOk(cfg, keysA, keysB);
    RunStaysOk(cfg, Start(keysA, keysB), moves);
    hide End, CanGo, Proper, QueueOk, ChannelInvariant, Halfway;
  }

  lemma AcceptingDecides(cfg: Config, r: Receiver)
    requires Proper(cfg) && ReceiverOk(cfg, r) && r.phase.Consent? && cfg.accept && Prepares(cfg)
    ensures var move := ReceiverDecides(cfg, r);
            && move.receiver.phase == Receiving(StartWorld(cfg)) && !ReceiverEnded(move.receiver)
            && move.out != [] && !IsNoise(move.out[0])
  {
    hide SentFiles, Prepare, AllFit, AllCommitted, ReceiveAll, OnTheWay, Finished, SharingMessages;
    FirstIsReal(cfg.codec, IdAt(cfg, 5), Answer(cfg), None);
    NotFinishedAtStart(cfg);
    hide StartOf;
  }

  /** When the acceptance cannot be written, the parts are there already and none of them is removed. */
  lemma UnsentAcceptanceLeavesParts(cfg: Config, h: Wired, error: ReceiveError)
    requires Proper(cfg) && WiredOk(cfg, h) && CanMove(cfg, h, UserDecides) && cfg.accept && Prepares(cfg) && error != Rejected
    ensures var decided := Step(cfg, h, UserDecides);
            CanMove(cfg, decided, ReceiverBreaks(error))
            && var r, files := Step(cfg, decided, ReceiverBreaks(error)).receiver, StartWorld(cfg).transfer.files;
               && r.phase.ReceiverFailed? && files != map[]
               && forall id :: id in files ==>
                    files[id].partPath !in cfg.disk
                    && files[id].partPath in r.phase.disk && r.phase.disk[files[id].partPath] == Regular([])
  {
    hide *;
    SeenOk(cfg, h);
    ConsentOnly(cfg, h);
    AcceptingDecides(cfg, h.receiver);
    PartsAtStart(cfg);
    DecidesThenBreaks(cfg, h, error);
    GivesUpAnswering(cfg, Answered(h, ReceiverDecides(cfg, h.receiver)), error);
  }

  lemma SeenOk(cfg: Config, h: Wired)
    requires WiredOk(cfg, h)
    ensures ReceiverOk(cfg, h.receiver)
  {
    SeenQueues(cfg, h);
  }

  lemma ConsentOnly(cfg: Config, h: Wired)
    requires CanMove(cfg, h, UserDecides)
    ensures h.receiver.phase.Consent?
  {
  }

  lemma DecidesThenBreaks(cfg: Config, h: Wired, error: ReceiveError)
    requires CanMove(cfg, h, UserDecides) && error != Rejected
    requires !ReceiverEnded(ReceiverDecides(cfg, h.receiver).receiver)
    ensures var decided := Answered(h, ReceiverDecides(cfg, h.receiver));
            && Step(cfg, h, UserDecides) == decided
            && CanMove(cfg, decided, ReceiverBreaks(error))
            && Step(cfg, decided, ReceiverBreaks(error)) == ReceiverGivesUp(cfg, decided, error)
            && decided.receiver == ReceiverDecides(cfg, h.receiver).receiver
            && decided.toSender.out == ReceiverDecides(cfg, h.receiver).out
  {
    hide ReceiverDecides, ReceiverGivesUp;
  }

  lemma GivesUpAnswering(cfg: Config, h: Wired, error: ReceiveError)
    requires h.receiver.phase.Receiving? && h.toSender.out != [] && !IsNoise(h.toSender.out[0])
    ensures ReceiverGivesUp(cfg, h, error).receiver.phase == ReceiverFailed(error, h.receiver.phase.world.disk)
  {
  }

  lemma PartsAtStart(cfg: Config)
    requires Proper(cfg) && Prepares(cfg)
    ensures var w := StartWorld(cfg);
            && w.transfer.files != map[]
            && forall id :: id in w.transfer.files ==>
                 var part := w.transfer.files[id].partPath;
                 part !in cfg.disk && part in w.disk && w.disk[part] == Regular([])
  {
    hide Prepare, SentFiles, Finished;
    var introduction := IntroductionOf(cfg.shipments);
    PrepareEstablishesSound(introduction, cfg.root, cfg.disk, cfg.processId, cfg.choices, map[]);
    PreparedExpects(cfg.shipments, cfg.root, cfg.disk, cfg.processId, cfg.choices);
    var w := StartWorld(cfg);
    assert cfg.shipments[0].file.payloadId in w.transfer.files;
    forall id | id in w.transfer.files
      ensures w.transfer.files[id].partPath !in cfg.disk && w.transfer.files[id].partPath in w.disk
      ensures w.disk[w.transfer.files[id].partPath] == Regular([])
    {
      EmptyParts(w, id);
      assert w.transfer.files[id].partPath in PartPaths(w.transfer.files);
    }
  }

  lemma EmptyParts(w: World, id: int)
    requires Sound(w) && id in w.transfer.files && w.transfer.files[id].received == 0
    ensures w.transfer.files[id].partPath in w.disk && w.disk[w.transfer.files[id].partPath] == Regular([])
  {
    hide Accounts, LogSound;
  }
}
