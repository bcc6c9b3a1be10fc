/** Safety of every run of a session, progress, and how sessions end. */
module SessionTheorems {
  import opened Prelude
  import opened WireMessages
  import opened Transfers
  import opened Session
  import opened SessionInvariant
  import opened SessionSteps

  // ------------------------------------------------------------------
  // Every event keeps the invariant

  lemma NoNoisePut(q: Queue, out: seq<Message>)
    ensures NoNoise(q.messages) && NoNoise(out) ==> NoNoise(Put(q, out).messages)
    ensures OnlyAcks(q.messages) && OnlyAcks(out) ==> OnlyAcks(Put(q, out).messages)
  {
  }

  lemma NoNoiseRest(q: Queue)
    requires q.messages != []
    ensures NoNoise(q.messages) ==> NoNoise(Rest(q).messages) && !IsNoise(q.messages[0])
    ensures OnlyAcks(q.messages) ==> OnlyAcks(Rest(q).messages)
    ensures OnlyAcks(q.messages) && IsNoise(q.messages[0]) ==> !WantsAck(q.messages[0].frame)
  {
  }

  lemma EmptyQueueIsEven(cfg: Config, fromSender: bool, q: Queue, read: nat, sent: nat)
    requires QueueOk(cfg, fromSender, q, read, sent) && q.messages == [] && !q.lost
    ensures read == sent
  {
  }

  lemma SenderStepKeeps(cfg: Config, st: State)
    requires Proper(cfg) && SessionOk(cfg, st) && Enabled(cfg, st, SenderStep)
    ensures SessionOk(cfg, Next(cfg, st, SenderStep))
  {
    hide SenderMoves, SenderOk, ReceiverOk, QueueOk, OutOk, OnlyAcks, NoNoise, Proper;
    SenderMovesKeep(cfg, st.sender);
    var move := SenderMoves(cfg, st.sender);
    PutOk(cfg, true, st.toReceiver, st.receiver.read, st.sender.sent, move.sender.sent, move.out);
    NoNoisePut(st.toReceiver, move.out);
  }

  /** What the sender does with the message at the head of its queue. */
  lemma SenderReadMove(cfg: Config, st: State)
    requires Proper(cfg) && SessionOk(cfg, st) && SenderReady(cfg, st.sender) && st.toSender.messages != []
    ensures var m := st.toSender.messages[0];
            var move := SenderReads(cfg, st.sender, m);
            && SenderMoveOk(cfg, st.sender, move)
            && move.sender.read == st.sender.read + Tick(m)
            && (IsNoise(m) ==> st.receiver.read >= 10 && move.out == SecureAll(Replies(m.frame)))
            && (!IsNoise(m) ==> NoNoise(move.out))
  {
    var m := st.toSender.messages[0];
    ReadBelowSent(cfg, st);
    hide SenderReads, SenderOk, ReceiverOk, QueueOk, OutOk, OnlyAcks, Proper, SenderReady, At, Replies, FaultFreeOk;
    RestOk(cfg, false, st.toSender, st.sender.read, st.receiver.sent);
    NoNoiseRest(st.toSender);
    if IsNoise(m) {
      SenderReadsNoise(cfg, st.sender, m);
    } else {
      SenderReadsNumbered(cfg, st.sender);
    }
  }

  lemma SenderReadStepKeeps(cfg: Config, st: State)
    requires Proper(cfg) && SessionOk(cfg, st) && Enabled(cfg, st, SenderReadStep)
    ensures SessionOk(cfg, Next(cfg, st, SenderReadStep))
  {
    hide SenderReads, SenderReady, SessionOk, Proper, Put, Replies, SenderMoveOk, OnlyAcks, NoNoise;
    SenderReadMove(cfg, st);
    SenderHasRead(cfg, st, SenderReads(cfg, st.sender, st.toSender.messages[0]));
  }

  lemma SenderHasRead(cfg: Config, st: State, move: SenderMove)
    requires Proper(cfg) && SessionOk(cfg, st) && st.toSender.messages != [] && SenderMoveOk(cfg, st.sender, move)
    requires move.sender.read == st.sender.read + Tick(st.toSender.messages[0])
    requires IsNoise(st.toSender.messages[0]) ==> st.receiver.read >= 10
    requires !IsNoise(st.toSender.messages[0]) ==> NoNoise(move.out)
    ensures SessionOk(cfg, st.(sender := move.sender, toSender := Rest(st.toSender), toReceiver := Put(st.toReceiver, move.out)))
  {
    hide SenderOk, ReceiverOk, QueueOk, OutOk, OnlyAcks, NoNoise, Proper, At, IsNoise;
    RestOk(cfg, false, st.toSender, st.sender.read, st.receiver.sent);
    NoNoiseRest(st.toSender);
    PutOk(cfg, true, st.toReceiver, st.receiver.read, st.sender.sent, move.sender.sent, move.out);
    NoNoisePut(st.toReceiver, move.out);
  }

  lemma ReadBelowSent(cfg: Config, st: State)
    requires Proper(cfg) && SessionOk(cfg, st)
    ensures st.receiver.read <= st.sender.sent && st.sender.read <= st.receiver.sent <= 9
  {
  }

  /** A receiver that has ended without refusing the files has declined or closed. */
  lemma EndedReceiverSent(cfg: Config, r: Receiver)
    requires Proper(cfg) && ReceiverOk(cfg, r) && ReceiverEnded(r)
    requires r.phase.ReceiverFailed? ==> r.phase.error == Rejected
    ensures if cfg.accept then r.sent == 9 && r.phase.Closed? else r.sent == 8
  {
    hide AllCommitted, OnTheWay, Halfway, Deliverable;
  }

  /** A sender that has read everything such a receiver sends has nothing more to read. */
  lemma AllReadIsEnded(cfg: Config, s: Sender)
    requires SenderOk(cfg, s) && SenderReady(cfg, s)
    ensures s.read < if cfg.accept then 9 else 8
  {
    hide EmittedBefore, Plan, SentFiles;
  }

  lemma SenderAtEofOk(cfg: Config, s: Sender)
    requires SenderOk(cfg, s) && SenderReady(cfg, s)
    ensures SenderOk(cfg, SenderAtEof(s)) && SenderAtEof(s).sent == s.sent && SenderAtEof(s).read == s.read
    ensures SenderAtEof(s).phase in {Succeeded(false), SenderFailed(SendIo)}
  {
    hide Plan, SentFiles, EmittedBefore;
  }

  lemma SenderEofKeeps(cfg: Config, st: State)
    requires Proper(cfg) && SessionOk(cfg, st) && Enabled(cfg, st, SenderEof)
    ensures SessionOk(cfg, Next(cfg, st, SenderEof))
  {
    hide QueueOk, SenderOk, SenderReady, ReceiverOk, Proper, Refused, EofAtSender, SenderAtEof, NoNoise, OnlyAcks;
    SenderAtEofOk(cfg, st.sender);
    if !st.faulty {
      EofMeansRefused(cfg, st);
    }
  }

  /** Without a fault the sender meets the end of the stream only when the receiver has refused the files. */
  lemma EofMeansRefused(cfg: Config, st: State)
    requires Proper(cfg) && SessionOk(cfg, st) && !st.faulty && SenderReady(cfg, st.sender) && EofAtSender(st)
    ensures Refused(cfg, st.receiver)
  {
    EmptyQueueIsEven(cfg, false, st.toSender, st.sender.read, st.receiver.sent);
    AllReadIsEnded(cfg, st.sender);
    hide QueueOk, SenderOk, SenderReady, Proper, Deliverable;
    if !Refused(cfg, st.receiver) {
      EndedReceiverSent(cfg, st.receiver);
    }
  }

  /** What the receiver does with the message at the head of its queue. */
  lemma ReceiverReadMove(cfg: Config, st: State)
    requires Proper(cfg) && SessionOk(cfg, st) && ReceiverReady(st.receiver) && st.toReceiver.messages != []
    ensures var m := st.toReceiver.messages[0];
            var move := ReceiverReads(cfg, st.receiver, m);
            && ReceiverMoveOk(cfg, st.receiver, move)
            && move.receiver.read == st.receiver.read + Tick(m)
            && (IsNoise(m) ==> move.receiver == st.receiver && move.out == [] && st.receiver.read >= 10)
            && NoNoise(move.out)
  {
    var m := st.toReceiver.messages[0];
    hide ReceiverReads, ReceiverOk, SenderOk, QueueOk, OutOk, OnlyAcks, Proper, ReceiverReady, At, FaultFreeOk;
    RestOk(cfg, true, st.toReceiver, st.receiver.read, st.sender.sent);
    NoNoiseRest(st.toReceiver);
    if IsNoise(m) {
      ReceiverReadsNoise(cfg, st.receiver, m);
      EmptyOk(cfg, false, st.receiver.sent);
      OkIsNotFailed(cfg, st.receiver);
    } else {
      ReceiverReadsNumbered(cfg, st.receiver);
    }
  }

  lemma OkIsNotFailed(cfg: Config, r: Receiver)
    requires ReceiverReady(r)
    ensures !r.phase.ReceiverFailed?
  {
  }

  lemma ReceiverReadStepKeeps(cfg: Config, st: State)
    requires Proper(cfg) && SessionOk(cfg, st) && Enabled(cfg, st, ReceiverReadStep)
    ensures SessionOk(cfg, Next(cfg, st, ReceiverReadStep))
  {
    hide ReceiverReads, SessionOk, Proper, Put, ReceiverMoveOk, NoNoise;
    ReceiverReadMove(cfg, st);
    ReceiverHasRead(cfg, st, ReceiverReads(cfg, st.receiver, st.toReceiver.messages[0]));
  }

  lemma ReceiverHasRead(cfg: Config, st: State, move: ReceiverMove)
    requires Proper(cfg) && SessionOk(cfg, st) && st.toReceiver.messages != [] && ReceiverMoveOk(cfg, st.receiver, move)
    requires move.receiver.read == st.receiver.read + Tick(st.toReceiver.messages[0]) && NoNoise(move.out)
    requires !ReceiverEnded(st.receiver)
    ensures SessionOk(cfg, st.(receiver := move.receiver, toReceiver := Rest(st.toReceiver), toSender := Put(st.toSender, move.out)))
  {
    hide SenderOk, ReceiverOk, QueueOk, OutOk, OnlyAcks, NoNoise, Proper, At, IsNoise;
    RestOk(cfg, true, st.toReceiver, st.receiver.read, st.sender.sent);
    NoNoiseRest(st.toReceiver);
    PutOk(cfg, false, st.toSender, st.sender.read, st.receiver.sent, move.receiver.sent, move.out);
    NoNoisePut(st.toSender, move.out);
  }

  lemma FailKeeps(cfg: Config, r: Receiver, error: ReceiveError)
    requires Proper(cfg) && ReceiverOk(cfg, r) && !ReceiverEnded(r) && error != Rejected
    ensures ReceiverOk(cfg, Fail(cfg, r, error).receiver)
  {
    hide Proper, AllCommitted, OnTheWay, CleanupParts;
  }

  lemma ReceiverEofKeeps(cfg: Config, st: State)
    requires Proper(cfg) && SessionOk(cfg, st) && Enabled(cfg, st, ReceiverEof)
    ensures st.faulty && SessionOk(cfg, Next(cfg, st, ReceiverEof))
  {
    hide QueueOk, Proper, AllCommitted, OnTheWay, CleanupParts, At;
    ReadBelowSent(cfg, st);
    FailKeeps(cfg, st.receiver, WireFraming);
  }

  lemma WaitStepKeeps(cfg: Config, st: State, keepAlive: bool)
    requires Proper(cfg) && SessionOk(cfg, st) && Enabled(cfg, st, WaitStep(keepAlive))
    ensures SessionOk(cfg, Next(cfg, st, WaitStep(keepAlive)))
  {
    var r := st.receiver;
    var waiting := if st.toReceiver.messages == [] then None else Some(st.toReceiver.messages[0]);
    var move := ReceiverWaits(cfg, r, keepAlive, waiting);
    OnlyAcksWait(cfg, st);
    WaitingIsQuiet(cfg, r, keepAlive, waiting);
    hide ReceiverWaits, SessionOk, Proper, Put, OutOk;
    ReceiverHasWaited(cfg, st, move.out);
  }

  lemma ReceiverHasWaited(cfg: Config, st: State, out: seq<Message>)
    requires Proper(cfg) && SessionOk(cfg, st) && st.receiver.phase.Consent? && st.receiver.phase.polls > 0
    requires OutOk(cfg, false, st.receiver.sent, st.receiver.sent, out)
    requires st.toReceiver.messages != [] ==> IsNoise(st.toReceiver.messages[0])
    ensures var r := st.receiver;
            SessionOk(cfg, st.(
              receiver := r.(phase := r.phase.(polls := r.phase.polls - 1)),
              toReceiver := if st.toReceiver.messages == [] then st.toReceiver else Rest(st.toReceiver),
              toSender := Put(st.toSender, out)))
  {
    WaitingKeepsReceiver(cfg, st.receiver);
    hide SenderOk, ReceiverOk, QueueOk, OutOk, OnlyAcks, NoNoise, Proper, At;
    if st.toReceiver.messages != [] {
      RestOk(cfg, true, st.toReceiver, st.receiver.read, st.sender.sent);
      NoNoiseRest(st.toReceiver);
    }
    PutOk(cfg, false, st.toSender, st.sender.read, st.receiver.sent, st.receiver.sent, out);
  }

  /** While the user decides, the sender has nothing to say: no message can be lost by the consent loop. */
  lemma OnlyAcksWait(cfg: Config, st: State)
    requires Proper(cfg) && SessionOk(cfg, st) && st.receiver.phase.Consent?
    ensures st.sender.sent == st.receiver.read == 10
    ensures st.toReceiver.messages != [] ==>
              IsNoise(st.toReceiver.messages[0]) && !WantsAck(st.toReceiver.messages[0].frame)
  {
    ReadBelowSent(cfg, st);
    hide Proper, At, FaultFreeOk, Halfway;
    if st.toReceiver.messages != [] {
      RestOk(cfg, true, st.toReceiver, st.receiver.read, st.sender.sent);
    }
  }

  lemma WaitingKeepsReceiver(cfg: Config, r: Receiver)
    requires Proper(cfg) && ReceiverOk(cfg, r) && r.phase.Consent? && r.phase.polls > 0
    ensures ReceiverOk(cfg, r.(phase := r.phase.(polls := r.phase.polls - 1))) && r.read == 10
  {
    hide Proper, Halfway;
  }

  /** A turn of the consent loop that meets nothing but acknowledgements. */
  lemma WaitingIsQuiet(cfg: Config, r: Receiver, keepAlive: bool, waiting: Option<Message>)
    requires r.phase.Consent? && r.phase.polls > 0
    requires waiting.Some? ==> IsNoise(waiting.value) && !WantsAck(waiting.value.frame)
    ensures var move := ReceiverWaits(cfg, r, keepAlive, waiting);
            && move.receiver == r.(phase := r.phase.(polls := r.phase.polls - 1))
            && move.out == (if keepAlive then [Secure(KeepAliveFrame(false, None))] else [])
            && OutOk(cfg, false, r.sent, r.sent, move.out)
  {
    var move := ReceiverWaits(cfg, r, keepAlive, waiting);
    AllNoise(move.out);
  }

  lemma DecideStepKeeps(cfg: Config, st: State)
    requires Proper(cfg) && SessionOk(cfg, st) && Enabled(cfg, st, DecideStep)
    ensures SessionOk(cfg, Next(cfg, st, DecideStep))
  {
    hide ReceiverDecides, SenderOk, ReceiverOk, QueueOk, OutOk, OnlyAcks, NoNoise, Proper, At, SenderMoves, SenderReads;
    hide ReceiverReads, ReceiverWaits, Fail, SenderAtEof, EofAtSender, EofAtReceiver, SenderCanMove, SenderReady;
    var move := ReceiverDecides(cfg, st.receiver);
    ReceiverDecidesKeep(cfg, st.receiver);
    PutOk(cfg, false, st.toSender, st.sender.read, st.receiver.sent, move.receiver.sent, move.out);
    NoNoisePut(st.toSender, move.out);
  }

  lemma CloseStepKeeps(cfg: Config, st: State)
    requires Proper(cfg) && SessionOk(cfg, st) && Enabled(cfg, st, CloseStep)
    ensures SessionOk(cfg, Next(cfg, st, CloseStep))
  {
    hide SenderOk, ReceiverOk, QueueOk, OutOk, OnlyAcks, NoNoise, Proper, At, OfFrameType;
    hide SenderReads, SenderMoves, ReceiverReads, ReceiverDecides, ReceiverWaits, Fail, EofAtSender, EofAtReceiver, SenderCanMove;
    var out := [Secure(OfFrameType(DISCONNECTION))];
    ClosingKeepsReceiver(cfg, st.receiver);
    ClosingIsNumbered(cfg);
    NoNoisePut(st.toSender, out);
    PutOk(cfg, false, st.toSender, st.sender.read, 8, 9, out);
  }

  lemma ClosingIsNumbered(cfg: Config)
    ensures var out := [Secure(OfFrameType(DISCONNECTION))];
            NoNoise(out) && OnlyAcks(out) && OutOk(cfg, false, 8, 9, out)
  {
    var out := [Secure(OfFrameType(DISCONNECTION))];
    assert out[0] == At(cfg, false, 8);
    OutIsNumbered(cfg, false, 8, out);
  }

  lemma ClosingKeepsReceiver(cfg: Config, r: Receiver)
    requires Proper(cfg) && ReceiverOk(cfg, r) && r.phase.AllReceived?
    ensures r.sent == 8 && r.read >= 10
    ensures ReceiverOk(cfg, r.(phase := Closed(r.phase.world), sent := 9))
  {
    hide AllCommitted, Halfway, Proper, Deliverable, SentFiles;
  }

  lemma FaultKeeps(cfg: Config, st: State, event: Event)
    requires Proper(cfg) && SessionOk(cfg, st) && Enabled(cfg, st, event) && IsFault(event)
    ensures SessionOk(cfg, Next(cfg, st, event))
  {
    hide Proper, At, Real, OnTheWay, AllCommitted;
    match event
    case CutToReceiver(kept) => CutOk(cfg, true, st.toReceiver, st.receiver.read, st.sender.sent, kept);
    case CutToSender(kept) => CutOk(cfg, false, st.toSender, st.sender.read, st.receiver.sent, kept);
    case SenderCrash =>
    case ReceiverCrash => FailKeeps(cfg, st.receiver, Io);
  }

  lemma {:induction false} StepKeeps(cfg: Config, st: State, event: Event)
    requires Proper(cfg) && SessionOk(cfg, st) && Enabled(cfg, st, event)
    ensures SessionOk(cfg, Next(cfg, st, event))
  {
    hide SessionOk, Enabled, Next, Proper;
    match event
    case SenderStep => SenderStepKeeps(cfg, st);
    case SenderReadStep => SenderReadStepKeeps(cfg, st);
    case SenderEof => SenderEofKeeps(cfg, st);
    case ReceiverReadStep => ReceiverReadStepKeeps(cfg, st);
    case ReceiverEof => ReceiverEofKeeps(cfg, st);
    case WaitStep(keepAlive) => WaitStepKeeps(cfg, st, keepAlive);
    case DecideStep => DecideStepKeeps(cfg, st);
    case CloseStep => CloseStepKeeps(cfg, st);
    case CutToReceiver(_) => FaultKeeps(cfg, st, event);
    case CutToSender(_) => FaultKeeps(cfg, st, event);
    case SenderCrash => FaultKeeps(cfg, st, event);
    case ReceiverCrash => FaultKeeps(cfg, st, event);
  }

  lemma InitialIsOk(cfg: Config)
    requires Proper(cfg)
    ensures SessionOk(cfg, Initial())
  {
  }

  lemma {:induction false} RunKeeps(cfg: Config, st: State, events: seq<Event>)
    requires Proper(cfg) && SessionOk(cfg, st) && CanRun(cfg, st, events)
    ensures SessionOk(cfg, After(cfg, st, events))
    ensures FaultFree(events) && !st.faulty ==> !After(cfg, st, events).faulty
    decreases |events|
  {
    hide SessionOk, Enabled, Proper;
    if events != [] {
      StepKeeps(cfg, st, events[0]);
      if !IsFault(events[0]) {
        OnlyFaultsFault(cfg, st, events[0]);
      }
      RunKeeps(cfg, Next(cfg, st, events[0]), events[1..]);
    }
  }

  lemma OnlyFaultsFault(cfg: Config, st: State, event: Event)
    requires Enabled(cfg, st, event) && !IsFault(event)
    ensures Next(cfg, st, event).faulty == st.faulty
  {
  }

  /** Every reachable state is as it should be. */
  lemma Reachable(cfg: Config, events: seq<Event>)
    requires Proper(cfg) && CanRun(cfg, Initial(), events)
    ensures SessionOk(cfg, After(cfg, Initial(), events))
    ensures FaultFree(events) ==> !After(cfg, Initial(), events).faulty
  {
    InitialIsOk(cfg);
    RunKeeps(cfg, Initial(), events);
  }

  // ------------------------------------------------------------------
  // Safety, faults included

  /** Commit confirmation. In every run, with any faults, whatever the files and the receiver's disk are like:
      when the sender's closing loop has returned on a Disconnection frame -- and also when its last poll has met
      one and reported a failure -- the user had accepted, the files could be delivered, and the receiver had left
      its loop with every file committed, each holding the bytes the sender read, and had closed. */
  lemma CommitConfirmation(cfg: Config, events: seq<Event>)
    requires Proper(cfg) && CanRun(cfg, Initial(), events)
    ensures var st := After(cfg, Initial(), events);
            st.sender.phase in {Succeeded(true), SenderFailed(LateDisconnection)} ==>
              && cfg.accept && Deliverable(cfg) && st.receiver.phase.Closed?
              && AllCommitted(cfg, st.receiver.phase.world)
  {
    Reachable(cfg, events);
    hide After, CanRun, Proper, SessionOk, AllCommitted, Deliverable;
    var st := After(cfg, Initial(), events);
    if st.sender.phase in {Succeeded(true), SenderFailed(LateDisconnection)} {
      ConfirmedIsCommitted(cfg, st);
    }
  }

  lemma ConfirmedIsCommitted(cfg: Config, st: State)
    requires Proper(cfg) && SessionOk(cfg, st) && st.sender.phase in {Succeeded(true), SenderFailed(LateDisconnection)}
    ensures cfg.accept && Deliverable(cfg) && st.receiver.phase.Closed? && AllCommitted(cfg, st.receiver.phase.world)
  {
    ReadBelowSent(cfg, st);
    hide Proper, QueueOk, OnTheWay, AllCommitted, Halfway, Deliverable;
  }

  /** A declined session never touches the receiver's disk, whatever happens. */
  lemma DeclinedTouchesNothing(cfg: Config, events: seq<Event>)
    requires Proper(cfg) && CanRun(cfg, Initial(), events) && !cfg.accept
    ensures DiskOf(cfg, After(cfg, Initial(), events).receiver) == cfg.disk
  {
    Reachable(cfg, events);
    hide After, CanRun, Proper, QueueOk, Halfway;
  }

  /** Success on a closed connection proves nothing: with the files still under way, losing the connection is
      enough for the sender to succeed, unconfirmed, while the receiver goes on exactly as it was. */
  lemma UnconfirmedSuccessProvesNothing(cfg: Config, st: State)
    requires st.sender.phase.AwaitClose?
    ensures var events := [CutToSender(0), SenderEof];
            && CanRun(cfg, st, events)
            && After(cfg, st, events).sender.phase == Succeeded(false)
            && After(cfg, st, events).receiver == st.receiver
  {
    var cut := Next(cfg, st, CutToSender(0));
    assert [CutToSender(0), SenderEof][1..] == [SenderEof];
    assert Enabled(cfg, cut, SenderEof);
    assert [SenderEof][1..] == [];
    assert CanRun(cfg, cut, [SenderEof]);
    assert After(cfg, cut, [SenderEof]) == Next(cfg, cut, SenderEof);
  }

  /** Without a fault the sender succeeds unconfirmed only when the receiver has refused files that cannot be
      delivered; `SessionRuns.RefusalLooksLikeSuccess` shows that it then can. */
  lemma UnconfirmedMeansRefused(cfg: Config, events: seq<Event>)
    requires Proper(cfg) && CanRun(cfg, Initial(), events) && FaultFree(events)
    ensures var st := After(cfg, Initial(), events);
            st.sender.phase == Succeeded(false) ==> Refused(cfg, st.receiver)
  {
    Reachable(cfg, events);
    hide After, CanRun, Proper, QueueOk, SenderOk, ReceiverOk, Refused;
  }

  // ------------------------------------------------------------------
  // Progress

  predicate BothEnded(st: State) {
    SenderEnded(st.sender) && ReceiverEnded(st.receiver)
  }

  /** When both queues are empty and nobody has ended, one side can act without reading. */
  lemma SomeoneCanAct(cfg: Config, s: Sender, r: Receiver)
    requires Proper(cfg) && SenderOk(cfg, s) && ReceiverOk(cfg, r)
    requires s.sent == r.read && r.sent == s.read
    ensures SenderEnded(s) || ReceiverEnded(r) || SenderCanMove(cfg, s, true) || r.phase.Consent? || r.phase.AllReceived?
  {
    hide Proper, OnTheWay, AllCommitted, Plan, EmittedBefore, SentFiles;
  }

  /** One of the two sides can read, or sees the end of the stream, or can move without reading. */
  predicate CanAct(cfg: Config, st: State) {
    || SenderCanMove(cfg, st.sender, st.toSender.messages == [] && !EofAtSender(st))
    || (ReceiverReady(st.receiver) && (st.toReceiver.messages != [] || EofAtReceiver(st)))
    || (SenderReady(cfg, st.sender) && (st.toSender.messages != [] || EofAtSender(st)))
  }

  lemma SenderReadyUnless(cfg: Config, s: Sender)
    ensures SenderEnded(s) || SenderReady(cfg, s) || SenderCanMove(cfg, s, false)
  {
    hide Plan;
  }

  lemma QuietMoves(cfg: Config, s: Sender, nothing: bool)
    requires SenderCanMove(cfg, s, false) || (nothing && SenderCanMove(cfg, s, true))
    ensures SenderCanMove(cfg, s, nothing)
  {
    hide Plan;
  }

  lemma Unblocked(cfg: Config, st: State)
    requires Proper(cfg) && SessionOk(cfg, st) && !BothEnded(st)
    requires !st.receiver.phase.Consent? && !st.receiver.phase.AllReceived?
    ensures CanAct(cfg, st)
  {
    hide SenderOk, ReceiverOk, QueueOk, Proper, FaultFreeOk, NoNoise, OnlyAcks, SenderReady, SenderCanMove, SenderEnded;
    var nothing := st.toSender.messages == [] && !EofAtSender(st);
    SenderReadyUnless(cfg, st.sender);
    if SenderCanMove(cfg, st.sender, false) {
      QuietMoves(cfg, st.sender, nothing);
    } else if !SenderEnded(st.sender) && !ReceiverEnded(st.receiver) && !EofAtSender(st) && !EofAtReceiver(st)
              && st.toSender.messages == [] && st.toReceiver.messages == [] {
      EmptyQueueIsEven(cfg, true, st.toReceiver, st.receiver.read, st.sender.sent);
      EmptyQueueIsEven(cfg, false, st.toSender, st.sender.read, st.receiver.sent);
      SomeoneCanAct(cfg, st.sender, st.receiver);
      QuietMoves(cfg, st.sender, nothing);
    }
  }

  /** No deadlock: in every reachable state in which not both sides have ended, faults or not, some side can
      take a step other than waiting. */
  lemma NeverStuck(cfg: Config, st: State) returns (event: Event)
    requires Proper(cfg) && SessionOk(cfg, st) && !BothEnded(st)
    ensures !IsFault(event) && !event.WaitStep? && Enabled(cfg, st, event)
  {
    hide SessionOk, Proper, EofAtSender, EofAtReceiver, SenderReady, SenderCanMove, ReceiverReady, BothEnded, SenderMoves, SenderReads;
    hide ReceiverReads, ReceiverDecides, ReceiverWaits;
    if !st.receiver.phase.Consent? && !st.receiver.phase.AllReceived? {
      Unblocked(cfg, st);
    }
    event :=
      if st.receiver.phase.Consent? then DecideStep
      else if st.receiver.phase.AllReceived? then CloseStep
      else if SenderCanMove(cfg, st.sender, st.toSender.messages == [] && !EofAtSender(st)) then SenderStep
      else if ReceiverReady(st.receiver) && st.toReceiver.messages != [] then ReceiverReadStep
      else if ReceiverReady(st.receiver) && EofAtReceiver(st) then ReceiverEof
      else if st.toSender.messages != [] then SenderReadStep
      else SenderEof;
  }

  // ------------------------------------------------------------------
  // Termination

  function NoiseWeight(messages: seq<Message>): nat {
    if messages == [] then 0
    else (if !IsNoise(messages[0]) then 0 else if WantsAck(messages[0].frame) then 2 else 1) + NoiseWeight(messages[1..])
  }

  lemma {:induction false} NoiseWeightAppend(a: seq<Message>, b: seq<Message>)
    ensures NoiseWeight(a + b) == NoiseWeight(a) + NoiseWeight(b)
  {
    if a == [] {
      assert a + b == b;
    } else {
      assert (a + b)[1..] == a[1..] + b;
      NoiseWeightAppend(a[1..], b);
    }
  }

  lemma {:induction false} NoNoiseNoWeight(messages: seq<Message>)
    requires NoNoise(messages)
    ensures NoiseWeight(messages) == 0
  {
    if messages != [] {
      NoNoiseNoWeight(messages[1..]);
    }
  }

  function SenderPhaseRank(cfg: Config, phase: SenderPhase): nat {
    var n := |Plan(cfg.shipments)|;
    match phase
    case NotStarted => 2 * n + 6
    case SendingFiles(position, _) => if position <= n then 2 * (n - position) + 4 else 4
    case AwaitClose => 2
    case Succeeded(_) => 0
    case SenderFailed(_) => 0
    case _ => 2 * n + 5
  }

  function SenderRank(cfg: Config, s: Sender): nat {
    if SenderEnded(s) then 0 else SenderPhaseRank(cfg, s.phase) + if s.read <= 9 then 2 * (9 - s.read) else 0
  }

  function ReceiverPhaseRank(cfg: Config, phase: ReceiverPhase): nat {
    match phase
    case Consent(_, polls) => 6 + 4 * polls
    case Receiving(_) => 5
    case AllReceived(_) => 3
    case Closed(_) => 0
    case ReceiverFailed(_, _) => 0
    case _ => 7 + 4 * cfg.polls
  }

  function ReceiverRank(cfg: Config, r: Receiver): nat {
    var total := 11 + |SentFiles(cfg)|;
    if ReceiverEnded(r) then 0 else ReceiverPhaseRank(cfg, r.phase) + if r.read <= total then 2 * (total - r.read) else 0
  }

  function Rank(cfg: Config, st: State): nat {
    SenderRank(cfg, st.sender) + ReceiverRank(cfg, st.receiver)
    + NoiseWeight(st.toReceiver.messages) + NoiseWeight(st.toSender.messages)
  }

  lemma PutWeight(q: Queue, out: seq<Message>)
    ensures NoiseWeight(Put(q, out).messages) <= NoiseWeight(q.messages) + NoiseWeight(out)
  {
    NoiseWeightAppend(q.messages, out);
  }

  /** The weight of the acknowledgement is less than that of what it answers: acknowledgements are never
      acknowledged. */
  lemma ReplyWeight(frame: OfflineFrame)
    requires IsKeepAlive(frame)
    ensures NoiseWeight(SecureAll(Replies(frame))) < NoiseWeight([Secure(frame)])
  {
    var out := SecureAll(Replies(frame));
    assert [Secure(frame)][1..] == [];
    if WantsAck(frame) {
      assert out == [Secure(AckFor(frame))];
      assert out[1..] == [];
    }
  }

  lemma HeadWeight(q: Queue)
    requires q.messages != []
    ensures NoiseWeight(q.messages) == NoiseWeight([q.messages[0]]) + NoiseWeight(Rest(q).messages)
  {
    NoiseWeightAppend([q.messages[0]], q.messages[1..]);
    assert q.messages == [q.messages[0]] + q.messages[1..];
  }

  lemma SenderReadsRank(cfg: Config, s: Sender, m: Message)
    requires SenderReady(cfg, s)
    ensures var next := SenderReads(cfg, s, m).sender;
            SenderEnded(next) || (next.read == s.read + Tick(m) && SenderPhaseRank(cfg, next.phase) <= SenderPhaseRank(cfg, s.phase))
  {
    hide ReadSharing, Plan, FromSender, Replies;
  }

  lemma SenderMovesRank(cfg: Config, st: State)
    requires Enabled(cfg, st, SenderStep)
    ensures var next := SenderMoves(cfg, st.sender).sender;
            next.read == st.sender.read && !SenderEnded(next) && SenderPhaseRank(cfg, next.phase) < SenderPhaseRank(cfg, st.sender.phase)
  {
    hide Plan;
  }

  lemma ReceiverReadsRank(cfg: Config, r: Receiver, m: Message)
    requires ReceiverReady(r)
    ensures var next := ReceiverReads(cfg, r, m).receiver;
            || ReceiverEnded(next)
            || (next.read == r.read + Tick(m) && ReceiverPhaseRank(cfg, next.phase) <= ReceiverPhaseRank(cfg, r.phase))
  {
    hide ReadSharing, Handle, FromReceiver, Replies, OfferOk, SentFiles;
  }

  lemma ReaderProgress(cfg: Config, st: State, event: Event)
    requires Proper(cfg) && SessionOk(cfg, st) && Enabled(cfg, st, event)
    requires event == SenderReadStep || event == ReceiverReadStep
    ensures Rank(cfg, Next(cfg, st, event)) < Rank(cfg, st)
  {
    hide SenderReads, ReceiverReads, Proper, SenderPhaseRank, ReceiverPhaseRank, NoiseWeight, Replies;
    if event == SenderReadStep {
      var m := st.toSender.messages[0];
      var move := SenderReads(cfg, st.sender, m);
      SenderReadMove(cfg, st);
      SenderReadsRank(cfg, st.sender, m);
      SenderReadsPositive(cfg, st.sender);
      HeadWeight(st.toSender);
      PutWeight(st.toReceiver, move.out);
      MoveWeight(m, move.out);
      SenderBounds(cfg, st);
    } else {
      var m := st.toReceiver.messages[0];
      var move := ReceiverReads(cfg, st.receiver, m);
      ReceiverReadMove(cfg, st);
      ReceiverReadsRank(cfg, st.receiver, m);
      ReceiverReadsPositive(cfg, st.receiver);
      HeadWeight(st.toReceiver);
      PutWeight(st.toSender, move.out);
      NoNoiseNoWeight(move.out);
      MoveWeight(m, SecureAll([]));
      ReceiverBounds(cfg, st, m);
    }
  }

  lemma MoveWeight(m: Message, out: seq<Message>)
    requires NoNoise(out) || (IsNoise(m) && out == SecureAll(Replies(m.frame)))
    ensures NoiseWeight(out) <= NoiseWeight([m])
    ensures IsNoise(m) ==> NoiseWeight(out) < NoiseWeight([m])
  {
    if IsNoise(m) && !NoNoise(out) {
      ReplyWeight(m.frame);
    } else {
      NoNoiseNoWeight(out);
      assert [m][1..] == [];
    }
  }

  lemma SenderReadsPositive(cfg: Config, s: Sender)
    requires SenderReady(cfg, s)
    ensures !SenderEnded(s) && SenderPhaseRank(cfg, s.phase) > 0
  {
  }

  lemma ReceiverReadsPositive(cfg: Config, r: Receiver)
    requires ReceiverReady(r)
    ensures !ReceiverEnded(r) && ReceiverPhaseRank(cfg, r.phase) > 0
  {
  }

  lemma SenderBounds(cfg: Config, st: State)
    requires Proper(cfg) && SessionOk(cfg, st) && SenderReady(cfg, st.sender)
    ensures st.sender.read < 9
  {
    hide Proper, ReceiverOk, QueueOk, Plan, EmittedBefore, SentFiles;
  }

  lemma ReceiverBounds(cfg: Config, st: State, m: Message)
    requires Proper(cfg) && SessionOk(cfg, st) && ReceiverReady(st.receiver)
    ensures st.receiver.read < 11 + |SentFiles(cfg)|
  {
    hide Proper, SenderOk, QueueOk, OnTheWay;
    FilesAreSent(cfg) by { ShipmentsExist(cfg); }
  }

  lemma ShipmentsExist(cfg: Config)
    requires Proper(cfg)
    ensures cfg.shipments != []
  {
  }

  lemma SmallWeight(out: seq<Message>)
    requires |out| <= 1
    ensures NoiseWeight(out) <= 2
  {
    assert out != [] ==> out[1..] == [];
  }

  lemma WaitProgress(cfg: Config, st: State, keepAlive: bool)
    requires Proper(cfg) && SessionOk(cfg, st) && Enabled(cfg, st, WaitStep(keepAlive))
    ensures Rank(cfg, Next(cfg, st, WaitStep(keepAlive))) < Rank(cfg, st)
  {
    var r := st.receiver;
    var waiting := if st.toReceiver.messages == [] then None else Some(st.toReceiver.messages[0]);
    OnlyAcksWait(cfg, st);
    WaitingIsQuiet(cfg, r, keepAlive, waiting);
    hide ReceiverWaits, SessionOk, Proper, Put, OutOk, Rank, NoiseWeight;
    WaitedRank(cfg, st, ReceiverWaits(cfg, r, keepAlive, waiting).out);
  }

  lemma WaitedRank(cfg: Config, st: State, out: seq<Message>)
    requires st.receiver.phase.Consent? && st.receiver.phase.polls > 0 && st.receiver.read == 10 && |out| <= 1
    requires st.toReceiver.messages != [] ==> IsNoise(st.toReceiver.messages[0])
    ensures var r := st.receiver;
            Rank(cfg, st.(
              receiver := r.(phase := r.phase.(polls := r.phase.polls - 1)),
              toReceiver := if st.toReceiver.messages == [] then st.toReceiver else Rest(st.toReceiver),
              toSender := Put(st.toSender, out))) < Rank(cfg, st)
  {
    hide SenderRank, SentFiles, NoiseWeight, Put;
    PutWeight(st.toSender, out);
    SmallWeight(out);
    if st.toReceiver.messages != [] {
      HeadWeight(st.toReceiver);
    }
  }

  lemma DecideProgress(cfg: Config, st: State)
    requires Proper(cfg) && SessionOk(cfg, st) && Enabled(cfg, st, DecideStep)
    ensures Rank(cfg, Next(cfg, st, DecideStep)) < Rank(cfg, st)
  {
    ReceiverDecidesKeep(cfg, st.receiver);
    var move := ReceiverDecides(cfg, st.receiver);
    DecideRank(cfg, st.receiver);
    hide ReceiverDecides, SessionOk, Proper, SenderRank, NoiseWeight, ReceiverRank;
    PutWeight(st.toSender, move.out);
    NoNoiseNoWeight(move.out);
  }

  lemma DecideRank(cfg: Config, r: Receiver)
    requires r.phase.Consent?
    ensures ReceiverRank(cfg, ReceiverDecides(cfg, r).receiver) < ReceiverRank(cfg, r)
  {
    hide SentFiles, Prepare, FromReceiver;
  }

  /** Every step that is not a fault brings the session nearer its end, and faults do not take it away. */
  lemma StepProgress(cfg: Config, st: State, event: Event)
    requires Proper(cfg) && SessionOk(cfg, st) && Enabled(cfg, st, event)
    ensures Rank(cfg, Next(cfg, st, event)) + (if IsFault(event) then 0 else 1) <= Rank(cfg, st)
  {
    hide SessionOk, Proper, SenderMoves, SenderReads, ReceiverReads, NoiseWeight, SentFiles, Plan;
    match event
    case SenderStep =>
      SenderMovesRank(cfg, st);
      SenderMovesQuiet(cfg, st);
      PutWeight(st.toReceiver, SenderMoves(cfg, st.sender).out);
      NoNoiseNoWeight(SenderMoves(cfg, st.sender).out);
    case SenderReadStep => ReaderProgress(cfg, st, event);
    case ReceiverReadStep => ReaderProgress(cfg, st, event);
    case WaitStep(keepAlive) => WaitProgress(cfg, st, keepAlive);
    case DecideStep => DecideProgress(cfg, st);
    case CloseStep =>
      var out := [Secure(OfFrameType(DISCONNECTION))];
      PutWeight(st.toSender, out);
      assert NoNoise(out);
      NoNoiseNoWeight(out);
    case SenderEof => SenderReadsPositive(cfg, st.sender);
    case ReceiverEof =>
    case CutToReceiver(kept) => CutWeight(st.toReceiver.messages, kept);
    case CutToSender(kept) => CutWeight(st.toSender.messages, kept);
    case SenderCrash =>
    case ReceiverCrash =>
  }

  lemma SenderMovesQuiet(cfg: Config, st: State)
    requires Proper(cfg) && SessionOk(cfg, st) && Enabled(cfg, st, SenderStep)
    ensures NoNoise(SenderMoves(cfg, st.sender).out)
  {
    hide ReceiverOk, QueueOk, Proper;
    SenderMovesKeep(cfg, st.sender);
  }

  lemma CutWeight(messages: seq<Message>, kept: nat)
    requires kept <= |messages|
    ensures NoiseWeight(messages[..kept]) <= NoiseWeight(messages)
  {
    NoiseWeightAppend(messages[..kept], messages[kept..]);
    assert messages == messages[..kept] + messages[kept..];
  }

  function NotFaults(events: seq<Event>): nat {
    if events == [] then 0 else (if IsFault(events[0]) then 0 else 1) + NotFaults(events[1..])
  }

  /** Every session ends: no run, whatever the faults, has more steps of the two sides than the rank of the
      first state. */
  lemma {:induction false} RunsAreBounded(cfg: Config, st: State, events: seq<Event>)
    requires Proper(cfg) && SessionOk(cfg, st) && CanRun(cfg, st, events)
    ensures NotFaults(events) + Rank(cfg, After(cfg, st, events)) <= Rank(cfg, st)
    decreases |events|
  {
    hide SessionOk, Proper, Enabled, Rank, Next;
    if events != [] {
      StepKeeps(cfg, st, events[0]);
      StepProgress(cfg, st, events[0]);
      RunsAreBounded(cfg, Next(cfg, st, events[0]), events[1..]);
    }
  }

  // ------------------------------------------------------------------
  // How sessions end

  /** Two-party completion. A run without faults is never stuck before both sides have ended, and it cannot go
      on for ever. When it has ended, exactly one of three things has happened. The user declined: both sides say
      so and the receiver's disk is as it was. The files could be delivered: every file is committed with the
      bytes the sender read, the receiver has closed, and the sender either has its confirmation or met it too
      early, in its last poll. They could not: the receiver has failed, and the sender has failed or has taken
      the end of the stream for success. */
  lemma Completion(cfg: Config, events: seq<Event>)
    requires Proper(cfg) && CanRun(cfg, Initial(), events) && FaultFree(events)
    ensures NotFaults(events) <= Rank(cfg, Initial())
    ensures var st := After(cfg, Initial(), events);
            if !BothEnded(st) then exists event :: !IsFault(event) && Enabled(cfg, st, event)
            else if !cfg.accept then
              && st.receiver.phase == ReceiverFailed(Rejected, cfg.disk)
              && st.sender.phase == SenderFailed(SendRejected)
            else if Deliverable(cfg) then
              && st.receiver.phase.Closed? && AllCommitted(cfg, st.receiver.phase.world)
              && st.sender.phase in {Succeeded(true), SenderFailed(LateDisconnection)}
            else Refused(cfg, st.receiver) && st.sender.phase in {Succeeded(false), SenderFailed(SendIo)}
  {
    Reachable(cfg, events);
    InitialIsOk(cfg);
    RunsAreBounded(cfg, Initial(), events);
    var st := After(cfg, Initial(), events);
    if BothEnded(st) {
      EndedWell(cfg, st);
    } else {
      var event := NeverStuck(cfg, st);
    }
  }

  lemma EndedWell(cfg: Config, st: State)
    requires Proper(cfg) && SessionOk(cfg, st) && BothEnded(st) && !st.faulty
    ensures if !cfg.accept then
              && st.receiver.phase == ReceiverFailed(Rejected, cfg.disk)
              && st.sender.phase == SenderFailed(SendRejected)
            else if Deliverable(cfg) then
              && st.receiver.phase.Closed? && AllCommitted(cfg, st.receiver.phase.world)
              && st.sender.phase in {Succeeded(true), SenderFailed(LateDisconnection)}
            else Refused(cfg, st.receiver) && st.sender.phase in {Succeeded(false), SenderFailed(SendIo)}
  {
    hide Proper, AllCommitted, OnTheWay, Halfway, Deliverable, At;
  }
}
