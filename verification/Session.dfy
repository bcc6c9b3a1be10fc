/** The two drivers, `receive_connection` (src/quick_share_receiver.rs:279-376) and `send_prepared_files` with
    `finalize_transfer` (src/quick_share_sender.rs:148-264, :530-620), as machines joined by two message
    queues. A message is what one frame carries once the layers below have delivered it. */
module Session {
  import opened Prelude
  import opened WireMessages
  import opened Transport
  import opened Assembler
  import opened Paths
  import opened Transfers
  import opened Preparation
  import opened Sending

  datatype Message =
    | ConnectionRequest
    | ClientInit
    | ServerInit
    | ClientFinish
    | ConnectionResponse(accepted: bool, safeToDisconnect: int)
    | Secure(frame: OfflineFrame)

  /** The Protocol Buffers form of sharing frames. */
  datatype SharingCodec = SharingCodec(encode: SharingFrame -> bytes, decode: bytes -> Option<SharingFrame>)

  /** What one run is about. The user's decision, the number of turns the receiver waits for it, the reads of
      the files and all random numbers are fixed in advance; the theorems hold for every choice. */
  datatype Config = Config(
    codec: SharingCodec,
    shipments: seq<Shipment>,
    root: Path, disk: Disk, processId: nat, choices: seq<Choice>,
    accept: bool, polls: nat,
    sharingIds: seq<int>)

  // ------------------------------------------------------------------
  // Messages the two sides send

  function OfType(frameType: int): SharingFrame {
    SharingFrame(Some(SharingV1(Some(frameType), None, None)))
  }

  function IntroductionFrame(introduction: Introduction): SharingFrame {
    SharingFrame(Some(SharingV1(Some(INTRODUCTION), Some(introduction), None)))
  }

  function ResponseFrame(status: int): SharingFrame {
    SharingFrame(Some(SharingV1(Some(RESPONSE), None, Some(SharingResponse(Some(status))))))
  }

  function TransferMessage(t: PayloadTransfer): Message {
    Secure(OfflineFrame(Some(OfflineV1(Some(PAYLOAD_TRANSFER), Some(t), None, None))))
  }

  /** `send_sharing_frame`: two messages. */
  function SharingMessages(codec: SharingCodec, id: int, frame: SharingFrame, terminator: Option<bytes>): (r: seq<Message>)
    ensures |r| == 2
  {
    var chunks := SharingChunks(id, codec.encode(frame), terminator);
    [TransferMessage(chunks[0]), TransferMessage(chunks[1])]
  }

  function IdAt(cfg: Config, i: nat): int {
    if i < |cfg.sharingIds| then cfg.sharingIds[i] else 0
  }

  /** The sender's terminator has an empty body, the receiver's none. */
  function FromSender(cfg: Config, i: nat, frame: SharingFrame): (r: seq<Message>)
    ensures |r| == 2
  {
    SharingMessages(cfg.codec, IdAt(cfg, i), frame, Some([]))
  }

  function FromReceiver(cfg: Config, i: nat, frame: SharingFrame): (r: seq<Message>)
    ensures |r| == 2
  {
    SharingMessages(cfg.codec, IdAt(cfg, i), frame, None)
  }

  function SafeDisconnectRequest(): Message {
    Secure(OfflineFrame(Some(OfflineV1(Some(DISCONNECTION), None, None, Some(Disconnection(Some(true), Some(false)))))))
  }

  function SafeDisconnectAck(): Message {
    Secure(OfflineFrame(Some(OfflineV1(Some(DISCONNECTION), None, None, Some(Disconnection(Some(false), Some(true)))))))
  }

  function SecureAll(frames: seq<OfflineFrame>): (r: seq<Message>)
    ensures |r| == |frames| && forall i :: 0 <= i < |r| ==> r[i] == Secure(frames[i])
  {
    seq(|frames|, i requires 0 <= i < |frames| => Secure(frames[i]))
  }

  // ------------------------------------------------------------------
  // The sender's file loop as a plan: a poll before every frame and one more after every file

  datatype Act = Poll | Emit(frame: OfflineFrame)

  function PolledFrames(frames: seq<OfflineFrame>): seq<Act> {
    if frames == [] then [Poll] else [Poll, Emit(frames[0])] + PolledFrames(frames[1..])
  }

  function Plan(shipments: seq<Shipment>): seq<Act> {
    if shipments == [] then []
    else PolledFrames(FileFrames(shipments[0].file, 0, shipments[0].pieces)) + Plan(shipments[1..])
  }

  function Emitted(acts: seq<Act>): seq<OfflineFrame> {
    if acts == [] then []
    else (if acts[0].Emit? then [acts[0].frame] else []) + Emitted(acts[1..])
  }

  // ------------------------------------------------------------------
  // Queues

  /** One direction of the connection. A lost direction delivers what it still holds and then ends. */
  datatype Queue = Queue(messages: seq<Message>, lost: bool)

  function Put(q: Queue, messages: seq<Message>): Queue {
    if q.lost then q else q.(messages := q.messages + messages)
  }

  function Rest(q: Queue): Queue
    requires q.messages != []
  {
    q.(messages := q.messages[1..])
  }

  // ------------------------------------------------------------------
  // Reading a sharing frame

  datatype SharingRead =
    | Failed(error: ReceiveError)
    | More(buffers: Buffers, replies: seq<OfflineFrame>)
    | Complete(buffers: Buffers, frame: SharingFrame)

  /** One turn of either `read_next_sharing_frame`. The receiver takes BYTES payloads only and checks sizes as
      it goes (src/quick_share_receiver.rs:615-661); the sender does neither (src/quick_share_sender.rs:816-857). */
  function ReadSharing(codec: SharingCodec, receiver: bool, buffers: Buffers, m: Message): SharingRead {
    if !m.Secure? then Failed(Crypto)
    else if m.frame.v1.None? then Failed(Protocol)
    else if IsKeepAlive(m.frame) then More(buffers, Replies(m.frame))
    else if IsPayload(m.frame) then
      if m.frame.v1.value.payloadTransfer.None? then Failed(Protocol)
      else
        var t := m.frame.v1.value.payloadTransfer.value;
        if receiver && !(t.header.Some? && t.header.value.payloadType == Some(PAYLOAD_BYTES)) then More(buffers, [])
        else
          var pushed := PushChunk(receiver, buffers, t);
          match pushed.result
          case Err(e) => Failed(Assembly(e))
          case Ok(None) => More(pushed.buffers, [])
          case Ok(Some(payload)) =>
            match codec.decode(payload.1)
            case None => Failed(Protobuf)
            case Some(frame) => Complete(pushed.buffers, frame)
    else if IsDisconnection(m.frame) then Failed(Disconnected)
    else More(buffers, [])
  }

  /** The codec inverts itself on `frame`, and the frame fits one wire frame. */
  predicate Carried(codec: SharingCodec, frame: SharingFrame) {
    codec.decode(codec.encode(frame)) == Some(frame) && |codec.encode(frame)| <= MAX_WIRE_FRAME_BYTES
  }

  /** The two messages of a sharing frame are read to that frame. */
  lemma SharingFrameRead(codec: SharingCodec, receiver: bool, id: int, frame: SharingFrame, terminator: Option<bytes>)
    requires Carried(codec, frame) && (terminator == None || terminator == Some([]))
    ensures var ms := SharingMessages(codec, id, frame, terminator);
            && ReadSharing(codec, receiver, map[], ms[0]) == More(map[id := codec.encode(frame)], [])
            && ReadSharing(codec, receiver, map[id := codec.encode(frame)], ms[1]) == Complete(map[], frame)
  {
    var body := codec.encode(frame);
    var chunks := SharingChunks(id, body, terminator);
    assert [] + body == body && body + GetOr(terminator, []) == body;
    assert PushChunk(receiver, map[], chunks[0]) == Pushed(map[id := body], Ok(None));
    assert map[id := body] - {id} == map[];
    assert PushChunk(receiver, map[id := body], chunks[1]) == Pushed(map[], Ok(Some((id, body))));
  }

  predicate HasType(frame: SharingFrame, frameType: int) {
    frame.v1.Some? && frame.v1.value.frameType == Some(frameType)
  }

  // ------------------------------------------------------------------
  // The receiver

  datatype ReceiverPhase =
    | AwaitRequest
    | AwaitClientInit
    | AwaitClientFinish
    | AwaitClientResponse
    | AwaitPairedKey
    | AwaitPairedResult
    | AwaitIntroduction
    | Consent(introduction: Introduction, polls: nat)
    | Receiving(world: World)
    | AllReceived(world: World)
    | Closed(world: World)
    | ReceiverFailed(error: ReceiveError, disk: Disk)

  /** `sent` and `read` count the messages that are not keep-alives; the program does not keep them. */
  datatype Receiver = Receiver(phase: ReceiverPhase, buffers: Buffers, sent: nat, read: nat)

  predicate ReceiverEnded(r: Receiver) {
    r.phase.Closed? || r.phase.ReceiverFailed?
  }

  function DiskOf(cfg: Config, r: Receiver): Disk {
    match r.phase
    case Receiving(w) => w.disk
    case AllReceived(w) => w.disk
    case Closed(w) => w.disk
    case ReceiverFailed(_, disk) => disk
    case _ => cfg.disk
  }

  datatype ReceiverMove = ReceiverMove(receiver: Receiver, out: seq<Message>)

  function Fail(cfg: Config, r: Receiver, error: ReceiveError): ReceiverMove {
    var disk := match r.phase case Receiving(w) => CleanupParts(w) case _ => DiskOf(cfg, r);
    ReceiverMove(r.(phase := ReceiverFailed(error, disk)), [])
  }

  /** `transfer_offer` succeeds. */
  predicate OfferOk(introduction: Introduction) {
    && (forall i :: 0 <= i < |introduction.files| ==> introduction.files[i].name.Some? && ValidSize(introduction.files[i].size))
    && (forall i :: 0 <= i < |introduction.texts| ==> ValidSize(introduction.texts[i].size))
  }

  function AfterSharing(cfg: Config, r: Receiver, frame: SharingFrame): ReceiverMove {
    match r.phase
    case AwaitPairedKey =>
      if !HasType(frame, PAIRED_KEY_ENCRYPTION) then Fail(cfg, r, Protocol)
      else
        ReceiverMove(r.(phase := AwaitPairedResult, sent := r.sent + 2), FromReceiver(cfg, 4, OfType(PAIRED_KEY_RESULT)))
    case AwaitPairedResult =>
      if !HasType(frame, PAIRED_KEY_RESULT) then Fail(cfg, r, Protocol)
      else ReceiverMove(r.(phase := AwaitIntroduction), [])
    case _ =>
      if !HasType(frame, INTRODUCTION) || frame.v1.value.introduction.None? then Fail(cfg, r, Protocol)
      else if !OfferOk(frame.v1.value.introduction.value) then Fail(cfg, r, UnsafeMetadata)
      else ReceiverMove(r.(phase := Consent(frame.v1.value.introduction.value, cfg.polls)), [])
  }

  function IsNoise(m: Message): bool {
    m.Secure? && IsKeepAlive(m.frame)
  }

  function Tick(m: Message): nat {
    if IsNoise(m) then 0 else 1
  }

  /** The receiver waits for a message. */
  predicate ReceiverReady(r: Receiver) {
    !ReceiverEnded(r) && !r.phase.Consent? && !r.phase.AllReceived?
  }

  /** The receiver reads `m` while it waits for a message; otherwise it reads nothing. */
  function ReceiverReads(cfg: Config, r0: Receiver, m: Message): ReceiverMove {
    var r := r0.(read := r0.read + Tick(m));
    if !ReceiverReady(r0) then ReceiverMove(r0, [])
    else
      match r.phase
      case AwaitRequest =>
        if m.ConnectionRequest? then ReceiverMove(r.(phase := AwaitClientInit), []) else Fail(cfg, r, Protocol)
      case AwaitClientInit =>
        if m.ClientInit? then ReceiverMove(r.(phase := AwaitClientFinish, sent := r.sent + 1), [ServerInit])
        else Fail(cfg, r, Crypto)
      case AwaitClientFinish =>
        if m.ClientFinish? then ReceiverMove(r.(phase := AwaitClientResponse), []) else Fail(cfg, r, Crypto)
      case AwaitClientResponse =>
        if m.ConnectionResponse? then
          ReceiverMove(
            r.(phase := AwaitPairedKey, sent := r.sent + 3),
            [ConnectionResponse(true, 1)] + FromReceiver(cfg, 3, OfType(PAIRED_KEY_ENCRYPTION)))
        else Fail(cfg, r, Protocol)
      case Receiving(w) =>
        if !m.Secure? then Fail(cfg, r, Crypto)
        else
          var step := Handle(w, m.frame, Env(NoFault, 0, 0));
          if step.error.Some? then Fail(cfg, r.(phase := Receiving(step.world)), step.error.value)
          else
            var phase := if Finished(step.world.transfer) then AllReceived(step.world) else Receiving(step.world);
            ReceiverMove(r.(phase := phase), SecureAll(Replies(m.frame)))
      case _ =>
        match ReadSharing(cfg.codec, true, r.buffers, m)
        case Failed(e) => Fail(cfg, r, e)
        case More(buffers, replies) => ReceiverMove(r.(buffers := buffers), SecureAll(replies))
        case Complete(buffers, frame) => AfterSharing(cfg, r.(buffers := buffers), frame)
  }

  /** The user has decided. */
  function ReceiverDecides(cfg: Config, r: Receiver): ReceiverMove {
    var status := if cfg.accept then STATUS_ACCEPT else STATUS_REJECT;
    var answer := FromReceiver(cfg, 5, ResponseFrame(status));
    if !r.phase.Consent? then ReceiverMove(r, [])
    else if !cfg.accept then ReceiverMove(r.(phase := ReceiverFailed(Rejected, cfg.disk), sent := r.sent + 2), answer)
    else if |cfg.choices| != |r.phase.introduction.files| then Fail(cfg, r, Io)
    else
      var prepared := Prepare(r.phase.introduction, cfg.root, cfg.disk, cfg.processId, cfg.choices);
      if prepared.result.Err? then
        ReceiverMove(r.(phase := ReceiverFailed(prepared.result.error, prepared.disk)), [])
      else
        var w := StartOf(prepared.result.value, prepared.disk, r.buffers);
        ReceiverMove(r.(phase := if Finished(w.transfer) then AllReceived(w) else Receiving(w), sent := r.sent + 2), answer)
  }

  /** One more turn of the consent loop: perhaps a keep-alive, and then one waiting frame, of which only a
      keep-alive is looked at and everything else is dropped. */
  function ReceiverWaits(cfg: Config, r0: Receiver, keepAlive: bool, waiting: Option<Message>): ReceiverMove
    requires r0.phase.Consent? && r0.phase.polls > 0
  {
    var r := r0.(
      phase := r0.phase.(polls := r0.phase.polls - 1),
      read := r0.read + if waiting.Some? then Tick(waiting.value) else 0);
    var request := if keepAlive then [Secure(KeepAliveFrame(false, None))] else [];
    if waiting.None? then ReceiverMove(r, request)
    else if !waiting.value.Secure? then ReceiverMove(Fail(cfg, r, Crypto).receiver, request)
    else ReceiverMove(r, request + SecureAll(Replies(waiting.value.frame)))
  }

  // ------------------------------------------------------------------
  // The sender

  datatype SendError = SendIo | SendProtocol | SendCrypto | SendRejected | LateDisconnection

  datatype SenderPhase =
    | NotStarted
    | AwaitServerInit
    | AwaitServerResponse
    | AwaitPeerKey
    | AwaitPeerResult
    | AwaitAcceptance
    | SendingFiles(position: nat, budget: nat)
    | AwaitClose
    | Succeeded(confirmed: bool)
    | SenderFailed(cause: SendError)

  datatype Sender = Sender(phase: SenderPhase, buffers: Buffers, safeToDisconnect: int, sent: nat, read: nat)

  predicate SenderEnded(s: Sender) {
    s.phase.Succeeded? || s.phase.SenderFailed?
  }

  datatype SenderMove = SenderMove(sender: Sender, out: seq<Message>)

  function Abort(s: Sender, cause: SendError): SenderMove {
    SenderMove(s.(phase := SenderFailed(cause)), [])
  }

  const POLL_BUDGET: nat := 8

  function SenderAfterSharing(cfg: Config, s: Sender, frame: SharingFrame): SenderMove {
    match s.phase
    case AwaitPeerKey =>
      if !HasType(frame, PAIRED_KEY_ENCRYPTION) then Abort(s, SendProtocol)
      else SenderMove(s.(phase := AwaitPeerResult, sent := s.sent + 2), FromSender(cfg, 1, OfType(PAIRED_KEY_RESULT)))
    case AwaitPeerResult =>
      if !HasType(frame, PAIRED_KEY_RESULT) then Abort(s, SendProtocol)
      else
        SenderMove(s.(phase := AwaitAcceptance, sent := s.sent + 2), FromSender(cfg, 2, IntroductionFrame(IntroductionOf(cfg.shipments))))
    case _ =>
      if !HasType(frame, RESPONSE) then Abort(s, SendProtocol)
      else
        var response := frame.v1.value.connectionResponse;
        if response.None? || response.value.status != Some(STATUS_ACCEPT) then Abort(s, SendRejected)
        else SenderMove(s.(phase := SendingFiles(0, POLL_BUDGET)), [])
  }

  /** One frame taken up by `acknowledge_pending_peer_frames`. */
  function PollReads(s: Sender, m: Message): SenderMove
    requires s.phase.SendingFiles? && s.phase.budget > 0
  {
    if !m.Secure? then Abort(s, SendCrypto)
    else if IsDisconnection(m.frame) then Abort(s, LateDisconnection)
    else SenderMove(s.(phase := s.phase.(budget := s.phase.budget - 1)), SecureAll(Replies(m.frame)))
  }

  /** One frame taken up by the loop of `finalize_transfer`. */
  function CloseReads(s: Sender, m: Message): SenderMove {
    if !m.Secure? then Abort(s, SendCrypto)
    else if IsDisconnection(m.frame) then
      var d := m.frame.v1.value.disconnection;
      var request := d.Some? && GetOr(d.value.requestSafe, false);
      var ack := d.Some? && GetOr(d.value.ackSafe, false);
      var answer := if request && !ack then [SafeDisconnectAck()] else [];
      SenderMove(s.(phase := Succeeded(true), sent := s.sent + |answer|), answer)
    else SenderMove(s, SecureAll(Replies(m.frame)))
  }

  predicate SenderReady(cfg: Config, s: Sender) {
    match s.phase
    case NotStarted => false
    case SendingFiles(position, budget) => position < |Plan(cfg.shipments)| && Plan(cfg.shipments)[position].Poll? && budget > 0
    case Succeeded(_) => false
    case SenderFailed(_) => false
    case _ => true
  }

  function SenderReads(cfg: Config, s0: Sender, m: Message): SenderMove {
    var s := s0.(read := s0.read + Tick(m));
    if !SenderReady(cfg, s0) then SenderMove(s0, [])
    else
      match s.phase
      case AwaitServerInit =>
        if m.ServerInit? then
          SenderMove(s.(phase := AwaitServerResponse, sent := s.sent + 2), [ClientFinish, ConnectionResponse(true, 1)])
        else Abort(s, SendCrypto)
      case AwaitServerResponse =>
        if m.ConnectionResponse? && m.accepted then
          SenderMove(
            s.(phase := AwaitPeerKey, safeToDisconnect := m.safeToDisconnect, sent := s.sent + 2),
            FromSender(cfg, 0, OfType(PAIRED_KEY_ENCRYPTION)))
        else Abort(s, SendProtocol)
      case SendingFiles(_, _) => PollReads(s, m)
      case AwaitClose => CloseReads(s, m)
      case _ =>
        match ReadSharing(cfg.codec, false, s.buffers, m)
        case Failed(e) => Abort(s, if e.Crypto? then SendCrypto else SendProtocol)
        case More(buffers, replies) => SenderMove(s.(buffers := buffers), SecureAll(replies))
        case Complete(buffers, frame) => SenderAfterSharing(cfg, s.(buffers := buffers), frame)
  }

  /** A move the sender makes without reading: starting, sending a frame, ending a poll, asking to close.
      `nothing` says that nothing waits to be read. */
  predicate SenderCanMove(cfg: Config, s: Sender, nothing: bool) {
    match s.phase
    case NotStarted => true
    case SendingFiles(position, budget) =>
      position >= |Plan(cfg.shipments)| || Plan(cfg.shipments)[position].Emit? || budget == 0 || nothing
    case _ => false
  }

  function SenderMoves(cfg: Config, s: Sender): SenderMove {
    var plan := Plan(cfg.shipments);
    match s.phase
    case NotStarted => SenderMove(s.(phase := AwaitServerInit, sent := s.sent + 2), [ConnectionRequest, ClientInit])
    case SendingFiles(position, _) =>
      if position >= |plan| then
        var bye := if s.safeToDisconnect >= 1 then [SafeDisconnectRequest()] else [];
        SenderMove(s.(phase := AwaitClose, sent := s.sent + |bye|), bye)
      else
        var next := s.(phase := SendingFiles(position + 1, POLL_BUDGET));
        if plan[position].Poll? then SenderMove(next, [])
        else SenderMove(next.(sent := s.sent + 1), [Secure(plan[position].frame)])
    case _ => SenderMove(s, [])
  }

  // ------------------------------------------------------------------
  // The two together

  datatype State = State(sender: Sender, receiver: Receiver, toReceiver: Queue, toSender: Queue, faulty: bool)

  function Initial(): State {
    State(
      Sender(NotStarted, map[], 0, 0, 0), Receiver(AwaitRequest, map[], 0, 0),
      Queue([], false), Queue([], false), false)
  }

  datatype Event =
    | SenderStep
    | SenderReadStep
    | SenderEof
    | ReceiverReadStep
    | ReceiverEof
    | WaitStep(keepAlive: bool)
    | DecideStep
    | CloseStep
    | CutToReceiver(kept: nat)
    | CutToSender(kept: nat)
    | SenderCrash
    | ReceiverCrash

  /** The faults: a direction of the connection is lost with what it carried, or one side fails for reasons of
      its own (a timeout, a local input or output error). */
  predicate IsFault(event: Event) {
    event.CutToReceiver? || event.CutToSender? || event.SenderCrash? || event.ReceiverCrash?
  }

  predicate EofAtSender(st: State) {
    st.toSender.messages == [] && (st.toSender.lost || ReceiverEnded(st.receiver))
  }

  predicate EofAtReceiver(st: State) {
    st.toReceiver.messages == [] && (st.toReceiver.lost || SenderEnded(st.sender))
  }

  predicate Enabled(cfg: Config, st: State, event: Event) {
    match event
    case SenderStep => SenderCanMove(cfg, st.sender, st.toSender.messages == [] && !EofAtSender(st))
    case SenderReadStep => SenderReady(cfg, st.sender) && st.toSender.messages != []
    case SenderEof => SenderReady(cfg, st.sender) && EofAtSender(st)
    case ReceiverReadStep => ReceiverReady(st.receiver) && st.toReceiver.messages != []
    case ReceiverEof => (ReceiverReady(st.receiver) || st.receiver.phase.Consent?) && EofAtReceiver(st)
    case WaitStep(_) => st.receiver.phase.Consent? && st.receiver.phase.polls > 0 && !EofAtReceiver(st)
    case DecideStep => st.receiver.phase.Consent?
    case CloseStep => st.receiver.phase.AllReceived?
    case CutToReceiver(kept) => kept <= |st.toReceiver.messages|
    case CutToSender(kept) => kept <= |st.toSender.messages|
    case SenderCrash => !SenderEnded(st.sender)
    case ReceiverCrash => !ReceiverEnded(st.receiver)
  }

  /** At end of file the closing loop succeeds; everything else fails. */
  function SenderAtEof(s: Sender): Sender {
    if s.phase.AwaitClose? then s.(phase := Succeeded(false)) else s.(phase := SenderFailed(SendIo))
  }

  /** One step; an event that cannot happen changes nothing. */
  function Next(cfg: Config, st: State, event: Event): State {
    if !Enabled(cfg, st, event) then st
    else
      match event
      case SenderStep =>
        var move := SenderMoves(cfg, st.sender);
        st.(sender := move.sender, toReceiver := Put(st.toReceiver, move.out))
      case SenderReadStep =>
        var move := SenderReads(cfg, st.sender, st.toSender.messages[0]);
        st.(sender := move.sender, toSender := Rest(st.toSender), toReceiver := Put(st.toReceiver, move.out))
      case SenderEof => st.(sender := SenderAtEof(st.sender))
      case ReceiverReadStep =>
        var move := ReceiverReads(cfg, st.receiver, st.toReceiver.messages[0]);
        st.(receiver := move.receiver, toReceiver := Rest(st.toReceiver), toSender := Put(st.toSender, move.out))
      case ReceiverEof => st.(receiver := Fail(cfg, st.receiver, WireFraming).receiver)
      case WaitStep(keepAlive) =>
        var waiting := if st.toReceiver.messages == [] then None else Some(st.toReceiver.messages[0]);
        var move := ReceiverWaits(cfg, st.receiver, keepAlive, waiting);
        st.(
          receiver := move.receiver,
          toReceiver := if waiting.None? then st.toReceiver else Rest(st.toReceiver),
          toSender := Put(st.toSender, move.out))
      case DecideStep =>
        var move := ReceiverDecides(cfg, st.receiver);
        st.(receiver := move.receiver, toSender := Put(st.toSender, move.out))
      case CloseStep =>
        var r := st.receiver;
        st.(
          receiver := r.(phase := Closed(r.phase.world), sent := r.sent + 1),
          toSender := Put(st.toSender, [Secure(OfFrameType(DISCONNECTION))]))
      case CutToReceiver(kept) => st.(toReceiver := Queue(st.toReceiver.messages[..kept], true), faulty := true)
      case CutToSender(kept) => st.(toSender := Queue(st.toSender.messages[..kept], true), faulty := true)
      case SenderCrash => st.(sender := st.sender.(phase := SenderFailed(SendIo)), faulty := true)
      case ReceiverCrash => st.(receiver := Fail(cfg, st.receiver, Io).receiver, faulty := true)
  }

  predicate CanRun(cfg: Config, st: State, events: seq<Event>)
    decreases |events|
  {
    events == [] || (Enabled(cfg, st, events[0]) && CanRun(cfg, Next(cfg, st, events[0]), events[1..]))
  }

  function After(cfg: Config, st: State, events: seq<Event>): State
    decreases |events|
  {
    if events == [] then st else After(cfg, Next(cfg, st, events[0]), events[1..])
  }

  predicate FaultFree(events: seq<Event>) {
    forall i :: 0 <= i < |events| ==> !IsFault(events[i])
  }
}
