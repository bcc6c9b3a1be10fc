/** What every reachable state of a session satisfies, faults included. */
module SessionInvariant {
  import opened Prelude
  import opened WireMessages
  import opened Assembler
  import opened Transfers
  import opened Preparation
  import opened Sending
  import opened Fidelity
  import opened Session

  // ------------------------------------------------------------------
  // The messages of a session, by number

  function SentFiles(cfg: Config): seq<OfflineFrame> {
    SentFrames(cfg.shipments)
  }

  /** Message number `i` from the sender, or from the receiver; keep-alives are not numbered. */
  function At(cfg: Config, fromSender: bool, i: nat): Message {
    if fromSender then SenderMessage(cfg, i) else ReceiverMessage(cfg, i)
  }

  function SenderMessage(cfg: Config, i: nat): Message {
    if i == 0 then ConnectionRequest
    else if i == 1 then ClientInit
    else if i == 2 then ClientFinish
    else if i == 3 then ConnectionResponse(true, 1)
    else if i < 6 then FromSender(cfg, 0, OfType(PAIRED_KEY_ENCRYPTION))[i - 4]
    else if i < 8 then FromSender(cfg, 1, OfType(PAIRED_KEY_RESULT))[i - 6]
    else if i < 10 then FromSender(cfg, 2, IntroductionFrame(IntroductionOf(cfg.shipments)))[i - 8]
    else if i < 10 + |SentFiles(cfg)| then Secure(SentFiles(cfg)[i - 10])
    else SafeDisconnectRequest()
  }

  function Answer(cfg: Config): SharingFrame {
    ResponseFrame(if cfg.accept then STATUS_ACCEPT else STATUS_REJECT)
  }

  function ReceiverMessage(cfg: Config, i: nat): Message {
    if i == 0 then ServerInit
    else if i == 1 then ConnectionResponse(true, 1)
    else if i < 4 then FromReceiver(cfg, 3, OfType(PAIRED_KEY_ENCRYPTION))[i - 2]
    else if i < 6 then FromReceiver(cfg, 4, OfType(PAIRED_KEY_RESULT))[i - 4]
    else if i < 8 then FromReceiver(cfg, 5, Answer(cfg))[i - 6]
    else Secure(OfFrameType(DISCONNECTION))
  }

  /** `prepare` accepts the introduction. */
  predicate Prepares(cfg: Config) {
    && |cfg.choices| == |cfg.shipments|
    && Prepare(IntroductionOf(cfg.shipments), cfg.root, cfg.disk, cfg.processId, cfg.choices).result.Ok?
  }

  function StartWorld(cfg: Config): World
    requires Prepares(cfg)
  {
    var prepared := Prepare(IntroductionOf(cfg.shipments), cfg.root, cfg.disk, cfg.processId, cfg.choices);
    StartOf(prepared.result.value, prepared.disk, map[])
  }

  /** An accepted transfer can succeed: `prepare` accepts the introduction, every file is read to the length
      announced, and no destination is a directory. Nothing here is assumed of a session. */
  ghost predicate Deliverable(cfg: Config) {
    Prepares(cfg) && AllFit(StartWorld(cfg), cfg.shipments)
  }

  /** A session of a proper sender: at least one file, sizes not negative, sharing frames that can be carried,
      random numbers for every file, and no destination that bears the random name of a part file. */
  ghost predicate Proper(cfg: Config) {
    && cfg.shipments != []
    && (forall i :: 0 <= i < |cfg.shipments| ==> 0 <= cfg.shipments[i].file.size)
    && Carried(cfg.codec, OfType(PAIRED_KEY_ENCRYPTION)) && Carried(cfg.codec, OfType(PAIRED_KEY_RESULT))
    && Carried(cfg.codec, IntroductionFrame(IntroductionOf(cfg.shipments)))
    && Carried(cfg.codec, ResponseFrame(STATUS_ACCEPT)) && Carried(cfg.codec, ResponseFrame(STATUS_REJECT))
    && |cfg.choices| == |cfg.shipments|
    && (Prepares(cfg) ==> PartsApart(StartWorld(cfg).transfer.files, StartWorld(cfg).disk))
  }

  // ------------------------------------------------------------------
  // Queues hold what was sent and not read

  function Real(messages: seq<Message>): (r: seq<Message>)
    ensures forall i :: 0 <= i < |r| ==> !IsNoise(r[i])
  {
    if messages == [] then []
    else (if IsNoise(messages[0]) then [] else [messages[0]]) + Real(messages[1..])
  }

  lemma {:induction false} RealAppend(a: seq<Message>, b: seq<Message>)
    ensures Real(a + b) == Real(a) + Real(b)
  {
    if a == [] {
      assert a + b == b;
    } else {
      assert (a + b)[1..] == a[1..] + b;
      RealAppend(a[1..], b);
    }
  }

  lemma {:induction false} RealTake(a: seq<Message>, n: nat)
    requires n <= |a|
    ensures |Real(a[..n])| <= |Real(a)| && Real(a[..n]) == Real(a)[..|Real(a[..n])|]
  {
    RealAppend(a[..n], a[n..]);
    assert a == a[..n] + a[n..];
  }

  lemma {:induction false} AllReal(a: seq<Message>)
    requires forall i :: 0 <= i < |a| ==> !IsNoise(a[i])
    ensures Real(a) == a
  {
    if a != [] {
      AllReal(a[1..]);
    }
  }

  lemma {:induction false} AllNoise(a: seq<Message>)
    requires forall i :: 0 <= i < |a| ==> IsNoise(a[i])
    ensures Real(a) == []
  {
    if a != [] {
      AllNoise(a[1..]);
    }
  }

  ghost predicate QueueOk(cfg: Config, fromSender: bool, q: Queue, read: nat, sent: nat) {
    var numbered := Real(q.messages);
    && read <= sent && |numbered| <= sent - read
    && (!q.lost ==> |numbered| == sent - read)
    && (forall i :: 0 <= i < |numbered| ==> numbered[i] == At(cfg, fromSender, read + i))
  }

  ghost predicate OutOk(cfg: Config, fromSender: bool, before: nat, after: nat, out: seq<Message>) {
    var numbered := Real(out);
    && before <= after && |numbered| == after - before
    && (forall i :: 0 <= i < |numbered| ==> numbered[i] == At(cfg, fromSender, before + i))
  }

  lemma PutOk(cfg: Config, fromSender: bool, q: Queue, read: nat, before: nat, after: nat, out: seq<Message>)
    requires QueueOk(cfg, fromSender, q, read, before) && OutOk(cfg, fromSender, before, after, out)
    ensures QueueOk(cfg, fromSender, Put(q, out), read, after)
  {
    RealAppend(q.messages, out);
    hide Real, At;
  }

  lemma RestOk(cfg: Config, fromSender: bool, q: Queue, read: nat, sent: nat)
    requires QueueOk(cfg, fromSender, q, read, sent) && q.messages != []
    ensures QueueOk(cfg, fromSender, Rest(q), read + Tick(q.messages[0]), sent)
    ensures !IsNoise(q.messages[0]) ==> read < sent && q.messages[0] == At(cfg, fromSender, read)
  {
    hide At;
    var numbered, rest := Real(q.messages), Real(q.messages[1..]);
    if !IsNoise(q.messages[0]) {
      assert numbered == [q.messages[0]] + rest;
      assert numbered[0] == At(cfg, fromSender, read + 0);
      forall i | 0 <= i < |rest|
        ensures rest[i] == At(cfg, fromSender, read + 1 + i)
      {
        assert numbered[i + 1] == rest[i];
      }
    } else {
      assert numbered == rest;
    }
  }

  lemma CutOk(cfg: Config, fromSender: bool, q: Queue, read: nat, sent: nat, kept: nat)
    requires QueueOk(cfg, fromSender, q, read, sent) && kept <= |q.messages|
    ensures QueueOk(cfg, fromSender, Queue(q.messages[..kept], true), read, sent)
  {
    RealTake(q.messages, kept);
    hide At;
  }

  lemma EmptyOk(cfg: Config, fromSender: bool, sent: nat)
    ensures OutOk(cfg, fromSender, sent, sent, [])
  {
  }

  predicate NoNoise(messages: seq<Message>) {
    forall i :: 0 <= i < |messages| ==> !IsNoise(messages[i])
  }

  /** Acknowledgements are keep-alives, and none of them asks for another. */
  predicate OnlyAcks(messages: seq<Message>) {
    forall i :: 0 <= i < |messages| ==> IsNoise(messages[i]) ==> !WantsAck(messages[i].frame)
  }

  lemma RepliesOk(cfg: Config, fromSender: bool, sent: nat, frame: OfflineFrame)
    ensures OutOk(cfg, fromSender, sent, sent, SecureAll(Replies(frame)))
    ensures OnlyAcks(SecureAll(Replies(frame)))
  {
    AllNoise(SecureAll(Replies(frame)));
  }

  // ------------------------------------------------------------------
  // The sender's plan

  lemma {:induction false} EmittedAppend(a: seq<Act>, b: seq<Act>)
    ensures Emitted(a + b) == Emitted(a) + Emitted(b)
  {
    if a == [] {
      assert a + b == b;
    } else {
      var head := if a[0].Emit? then [a[0].frame] else [];
      assert (a + b)[0] == a[0] && (a + b)[1..] == a[1..] + b;
      EmittedAppend(a[1..], b);
      assert Emitted(a + b) == head + Emitted(a[1..] + b);
      assert Emitted(a) == head + Emitted(a[1..]);
    }
  }

  lemma {:induction false} EmittedPolled(frames: seq<OfflineFrame>)
    ensures Emitted(PolledFrames(frames)) == frames
    decreases |frames|
  {
    if frames == [] {
      assert PolledFrames(frames)[1..] == [];
    } else {
      EmittedAppend([Poll, Emit(frames[0])], PolledFrames(frames[1..]));
      EmittedPolled(frames[1..]);
      assert [Poll, Emit(frames[0])][1..] == [Emit(frames[0])];
      assert [Emit(frames[0])][1..] == [];
    }
  }

  lemma {:induction false} PlanEmitsAll(shipments: seq<Shipment>)
    ensures Emitted(Plan(shipments)) == SentFrames(shipments)
    decreases |shipments|
  {
    if shipments != [] {
      var frames := FileFrames(shipments[0].file, 0, shipments[0].pieces);
      EmittedPolled(frames);
      EmittedAppend(PolledFrames(frames), Plan(shipments[1..]));
      PlanEmitsAll(shipments[1..]);
    }
  }

  /** The number of files frames sent before position `n` of the plan. */
  function EmittedBefore(cfg: Config, n: nat): nat
    requires n <= |Plan(cfg.shipments)|
  {
    |Emitted(Plan(cfg.shipments)[..n])|
  }

  lemma PlanStep(cfg: Config, n: nat)
    requires n < |Plan(cfg.shipments)|
    ensures var act := Plan(cfg.shipments)[n];
            && (act.Poll? ==> EmittedBefore(cfg, n + 1) == EmittedBefore(cfg, n))
            && (act.Emit? ==>
                  && EmittedBefore(cfg, n + 1) == EmittedBefore(cfg, n) + 1
                  && EmittedBefore(cfg, n) < |SentFiles(cfg)|
                  && SentFiles(cfg)[EmittedBefore(cfg, n)] == act.frame)
  {
    var plan := Plan(cfg.shipments);
    PlanEmitsAll(cfg.shipments);
    EmittedAppend(plan[..n], plan[n..]);
    assert plan == plan[..n] + plan[n..];
    EmittedAppend(plan[..n], [plan[n]]);
    assert plan[..n + 1] == plan[..n] + [plan[n]];
    assert [plan[n]][1..] == [];
    hide Plan;
  }

  lemma PlanEnd(cfg: Config)
    ensures EmittedBefore(cfg, |Plan(cfg.shipments)|) == |SentFiles(cfg)|
  {
    PlanEmitsAll(cfg.shipments);
    assert Plan(cfg.shipments)[..|Plan(cfg.shipments)|] == Plan(cfg.shipments);
  }

  lemma EmittedBound(cfg: Config, n: nat)
    requires n <= |Plan(cfg.shipments)|
    ensures EmittedBefore(cfg, n) <= |SentFiles(cfg)|
  {
    var plan := Plan(cfg.shipments);
    PlanEmitsAll(cfg.shipments);
    EmittedAppend(plan[..n], plan[n..]);
    assert plan == plan[..n] + plan[n..];
  }

  // ------------------------------------------------------------------
  // Where each side stands

  /** Between or inside a sharing frame: `read` of its two messages have been taken. */
  predicate Halfway(cfg: Config, buffers: Buffers, read: nat, start: nat, id: int, frame: SharingFrame) {
    || (read == start && buffers == map[])
    || (read == start + 1 && buffers == map[id := cfg.codec.encode(frame)])
  }

  predicate SenderOk(cfg: Config, s: Sender) {
    && s.sent <= 11 + |SentFiles(cfg)| && s.read <= 9
    && (s.sent > 10 ==> s.read >= 8 && cfg.accept)
    && match s.phase
       case NotStarted => s.sent == 0 && s.read == 0 && s.buffers == map[]
       case AwaitServerInit => s.sent == 2 && s.read == 0 && s.buffers == map[]
       case AwaitServerResponse => s.sent == 4 && s.read == 1 && s.buffers == map[]
       case AwaitPeerKey =>
         && s.sent == 6 && s.safeToDisconnect == 1
         && Halfway(cfg, s.buffers, s.read, 2, IdAt(cfg, 3), OfType(PAIRED_KEY_ENCRYPTION))
       case AwaitPeerResult =>
         && s.sent == 8 && s.safeToDisconnect == 1
         && Halfway(cfg, s.buffers, s.read, 4, IdAt(cfg, 4), OfType(PAIRED_KEY_RESULT))
       case AwaitAcceptance =>
         && s.sent == 10 && s.safeToDisconnect == 1
         && Halfway(cfg, s.buffers, s.read, 6, IdAt(cfg, 5), Answer(cfg))
       case SendingFiles(position, budget) =>
         && cfg.accept && position <= |Plan(cfg.shipments)| && s.safeToDisconnect == 1
         && s.sent == 10 + EmittedBefore(cfg, position) && s.read == 8
       case AwaitClose => cfg.accept && s.sent == 11 + |SentFiles(cfg)| && s.read == 8
       case Succeeded(confirmed) =>
         && cfg.accept && s.sent == 11 + |SentFiles(cfg)|
         && s.read == if confirmed then 9 else 8
       case SenderFailed(cause) =>
         && (cause == SendRejected ==> !cfg.accept && s.read == 8 && s.sent == 10)
         && (cause == LateDisconnection ==> cfg.accept && s.read == 9)
  }

  /** The frames still to come take `w` to the same end as all of them take the starting world. */
  ghost predicate OnTheWay(cfg: Config, w: World, k: nat)
    requires Prepares(cfg) && k <= |SentFiles(cfg)|
  {
    SameEnd(ReceiveAll(w, Arriving(SentFiles(cfg)[k..])), ReceiveAll(StartWorld(cfg), Arriving(SentFiles(cfg))))
  }

  /** Every file is committed with the bytes the sender read. */
  ghost predicate AllCommitted(cfg: Config, w: World)
    requires Prepares(cfg)
  {
    Expecting(StartWorld(cfg).transfer, cfg.shipments) && DeliveredAll(StartWorld(cfg), cfg.shipments, w)
  }

  ghost predicate ReceiverOk(cfg: Config, r: Receiver) {
    && r.sent <= 9 && r.read <= 11 + |SentFiles(cfg)|
    && (!cfg.accept ==> r.sent <= 8 && r.read <= 10)
    && match r.phase
       case AwaitRequest => r.sent == 0 && r.read == 0 && r.buffers == map[]
       case AwaitClientInit => r.sent == 0 && r.read == 1 && r.buffers == map[]
       case AwaitClientFinish => r.sent == 1 && r.read == 2 && r.buffers == map[]
       case AwaitClientResponse => r.sent == 1 && r.read == 3 && r.buffers == map[]
       case AwaitPairedKey => r.sent == 4 && Halfway(cfg, r.buffers, r.read, 4, IdAt(cfg, 0), OfType(PAIRED_KEY_ENCRYPTION))
       case AwaitPairedResult => r.sent == 6 && Halfway(cfg, r.buffers, r.read, 6, IdAt(cfg, 1), OfType(PAIRED_KEY_RESULT))
       case AwaitIntroduction =>
         r.sent == 6 && Halfway(cfg, r.buffers, r.read, 8, IdAt(cfg, 2), IntroductionFrame(IntroductionOf(cfg.shipments)))
       case Consent(introduction, polls) =>
         r.sent == 6 && r.read == 10 && r.buffers == map[] && introduction == IntroductionOf(cfg.shipments)
       case Receiving(w) =>
         && cfg.accept && Prepares(cfg) && r.sent == 8 && 10 <= r.read <= 10 + |SentFiles(cfg)|
         && OnTheWay(cfg, w, r.read - 10) && !Finished(w.transfer)
       case AllReceived(w) =>
         cfg.accept && Deliverable(cfg) && r.sent == 8 && r.read == 10 + |SentFiles(cfg)| && AllCommitted(cfg, w)
       case Closed(w) =>
         cfg.accept && Deliverable(cfg) && r.sent == 9 && r.read == 10 + |SentFiles(cfg)| && AllCommitted(cfg, w)
       case ReceiverFailed(error, disk) =>
         && r.sent <= 8
         && (error == Rejected ==> !cfg.accept && r.sent == 8 && r.read == 10)
         && (!cfg.accept ==> disk == cfg.disk)
  }

  /** The user accepted, but the receiver could not take the files: `prepare` failed, or some frame after the
      introduction did. */
  ghost predicate Refused(cfg: Config, r: Receiver) {
    && r.phase.ReceiverFailed? && r.phase.error != Rejected && cfg.accept && !Deliverable(cfg)
    && (Prepares(cfg) ==> r.read > 10)
  }

  /** Without faults the receiver fails only when the user declined or the files cannot be delivered; and what
      the sender makes of the end of the stream, a failure or an unconfirmed success, comes after the latter. */
  ghost predicate FaultFreeOk(cfg: Config, st: State) {
    && !st.toReceiver.lost && !st.toSender.lost
    && (st.receiver.phase.ReceiverFailed? ==> st.receiver.phase.error == Rejected || Refused(cfg, st.receiver))
    && (st.sender.phase.SenderFailed? ==>
          st.sender.phase.cause in {SendRejected, LateDisconnection} || (st.sender.phase.cause == SendIo && Refused(cfg, st.receiver)))
    && (st.sender.phase.Succeeded? ==> st.sender.phase.confirmed || Refused(cfg, st.receiver))
  }

  ghost predicate SessionOk(cfg: Config, st: State) {
    && SenderOk(cfg, st.sender) && ReceiverOk(cfg, st.receiver)
    && QueueOk(cfg, true, st.toReceiver, st.receiver.read, st.sender.sent)
    && QueueOk(cfg, false, st.toSender, st.sender.read, st.receiver.sent)
    && OnlyAcks(st.toReceiver.messages)
    && (st.receiver.read < 10 ==> NoNoise(st.toReceiver.messages) && NoNoise(st.toSender.messages))
    && (!st.faulty ==> FaultFreeOk(cfg, st))
  }
}
