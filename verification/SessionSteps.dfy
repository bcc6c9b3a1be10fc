/** Every step keeps the invariant of a session. */
module SessionSteps {
  import opened Prelude
  import opened WireMessages
  import opened Assembler
  import opened Paths
  import opened Transfers
  import opened TransferInvariant
  import opened Preparation
  import opened Sending
  import opened Fidelity
  import opened Session
  import opened SessionInvariant

  // ------------------------------------------------------------------
  // Canonical messages

  lemma NumberedIsReal(cfg: Config, fromSender: bool, i: nat)
    ensures !IsNoise(At(cfg, fromSender, i))
  {
    if fromSender && 10 <= i < 10 + |SentFiles(cfg)| {
      assert IsPayload(SentFiles(cfg)[i - 10]);
    }
  }

  lemma SharingFramesAt(cfg: Config, i: nat)
    requires i < 2
    ensures At(cfg, true, 4 + i) == FromSender(cfg, 0, OfType(PAIRED_KEY_ENCRYPTION))[i]
    ensures At(cfg, true, 6 + i) == FromSender(cfg, 1, OfType(PAIRED_KEY_RESULT))[i]
    ensures At(cfg, true, 8 + i) == FromSender(cfg, 2, IntroductionFrame(IntroductionOf(cfg.shipments)))[i]
    ensures At(cfg, false, 2 + i) == FromReceiver(cfg, 3, OfType(PAIRED_KEY_ENCRYPTION))[i]
    ensures At(cfg, false, 4 + i) == FromReceiver(cfg, 4, OfType(PAIRED_KEY_RESULT))[i]
    ensures At(cfg, false, 6 + i) == FromReceiver(cfg, 5, Answer(cfg))[i]
  {
    hide SharingMessages, IntroductionOf, SentFiles;
  }

  lemma FramesAreCarried(cfg: Config)
    requires Proper(cfg)
    ensures Carried(cfg.codec, OfType(PAIRED_KEY_ENCRYPTION)) && Carried(cfg.codec, OfType(PAIRED_KEY_RESULT))
    ensures Carried(cfg.codec, IntroductionFrame(IntroductionOf(cfg.shipments))) && Carried(cfg.codec, Answer(cfg))
  {
    hide Carried, Prepares, IntroductionOf;
  }

  lemma FirstIsReal(codec: SharingCodec, id: int, frame: SharingFrame, terminator: Option<bytes>)
    ensures NoNoise(SharingMessages(codec, id, frame, terminator))
  {
  }

  lemma {:induction false} MetadataIsOk(shipments: seq<Shipment>)
    requires forall i :: 0 <= i < |shipments| ==> 0 <= shipments[i].file.size
    ensures OfferOk(IntroductionOf(shipments))
    decreases |shipments|
  {
    if shipments != [] {
      MetadataIsOk(shipments[1..]);
      var all, rest := MetadataOf(shipments), MetadataOf(shipments[1..]);
      assert IntroductionOf(shipments[1..]).files == rest;
      forall i | 0 <= i < |all|
        ensures all[i].name.Some? && ValidSize(all[i].size)
      {
        if i > 0 {
          assert all[i] == rest[i - 1];
        }
      }
    }
  }

  lemma OutIsNumbered(cfg: Config, fromSender: bool, before: nat, out: seq<Message>)
    requires NoNoise(out)
    requires forall i :: 0 <= i < |out| ==> out[i] == At(cfg, fromSender, before + i)
    ensures OutOk(cfg, fromSender, before, before + |out|, out) && OnlyAcks(out)
  {
    AllReal(out);
  }

  // ------------------------------------------------------------------
  // The sender

  ghost predicate SenderMoveOk(cfg: Config, s: Sender, move: SenderMove) {
    && SenderOk(cfg, move.sender)
    && OutOk(cfg, true, s.sent, move.sender.sent, move.out) && OnlyAcks(move.out)
    && (move.sender.phase.SenderFailed? ==> move.sender.phase.cause in {SendRejected, LateDisconnection})
    && (move.sender.phase.Succeeded? ==> move.sender.phase.confirmed)
  }

  lemma OnlySentCounts(cfg: Config, a: Sender, b: Sender, move: SenderMove)
    requires a.sent == b.sent && SenderMoveOk(cfg, b, move)
    ensures SenderMoveOk(cfg, a, move)
  {
    hide SenderOk, OutOk, OnlyAcks;
  }

  lemma SenderMovesKeep(cfg: Config, s: Sender)
    requires SenderOk(cfg, s) && (s.phase.NotStarted? || s.phase.SendingFiles?)
    ensures SenderMoveOk(cfg, s, SenderMoves(cfg, s)) && NoNoise(SenderMoves(cfg, s).out)
    ensures SenderMoves(cfg, s).sender.read == s.read
  {
    hide Plan, SentFiles;
    var move := SenderMoves(cfg, s);
    if s.phase.SendingFiles? {
      var position := s.phase.position;
      if position < |Plan(cfg.shipments)| {
        PlanStep(cfg, position);
        EmittedBound(cfg, position + 1);
        if Plan(cfg.shipments)[position].Emit? {
          NumberedIsReal(cfg, true, s.sent);
          assert move.out[0] == At(cfg, true, s.sent);
        }
      } else {
        PlanEnd(cfg);
        NumberedIsReal(cfg, true, s.sent);
      }
    }
    OutIsNumbered(cfg, true, s.sent, move.out);
  }

  lemma SenderReadsHandshake(cfg: Config, s: Sender)
    requires Proper(cfg) && SenderOk(cfg, s) && (s.phase.AwaitServerInit? || s.phase.AwaitServerResponse?)
    ensures var move := SenderReads(cfg, s, At(cfg, false, s.read));
            SenderMoveOk(cfg, s, move) && NoNoise(move.out) && move.sender.read == s.read + 1
  {
    hide SentFiles, Plan, FromReceiver, EmittedBefore, Answer, IntroductionOf, Proper;
    var move := SenderReads(cfg, s, At(cfg, false, s.read));
    FirstIsReal(cfg.codec, IdAt(cfg, 0), OfType(PAIRED_KEY_ENCRYPTION), Some([]));
    OutIsNumbered(cfg, true, s.sent, move.out);
  }

  lemma HalfwaySender(cfg: Config, s: Sender, id: int, frame: SharingFrame, start: nat)
    requires SenderOk(cfg, s) && s.read == start
    requires match s.phase
             case AwaitPeerKey => id == IdAt(cfg, 3) && frame == OfType(PAIRED_KEY_ENCRYPTION) && start == 2
             case AwaitPeerResult => id == IdAt(cfg, 4) && frame == OfType(PAIRED_KEY_RESULT) && start == 4
             case AwaitAcceptance => id == IdAt(cfg, 5) && frame == Answer(cfg) && start == 6
             case _ => false
    ensures SenderMoveOk(cfg, s, SenderMove(s.(buffers := map[id := cfg.codec.encode(frame)], read := s.read + 1), []))
  {
    hide SentFiles, Plan, At, Answer;
    OutIsNumbered(cfg, true, s.sent, []);
  }

  lemma SenderReadsSharing(cfg: Config, s: Sender)
    requires Proper(cfg) && SenderOk(cfg, s)
    requires s.phase.AwaitPeerKey? || s.phase.AwaitPeerResult? || s.phase.AwaitAcceptance?
    ensures var move := SenderReads(cfg, s, At(cfg, false, s.read));
            SenderMoveOk(cfg, s, move) && NoNoise(move.out) && move.sender.read == s.read + 1
  {
    hide SentFiles, Plan, EmittedBefore, ReadSharing, SharingMessages, SenderMoveOk, IsNoise, Proper, At, SenderAfterSharing, Carried;
    hide Answer, IntroductionOf;
    var (id, frame, start) :=
      if s.phase.AwaitPeerKey? then (IdAt(cfg, 3), OfType(PAIRED_KEY_ENCRYPTION), 2)
      else if s.phase.AwaitPeerResult? then (IdAt(cfg, 4), OfType(PAIRED_KEY_RESULT), 4)
      else (IdAt(cfg, 5), Answer(cfg), 6);
    var m := At(cfg, false, s.read);
    SharingFramesAt(cfg, s.read - start);
    FramesAreCarried(cfg);
    SharingFrameRead(cfg.codec, false, id, frame, None);
    NumberedIsReal(cfg, false, s.read);
    var move := SenderReads(cfg, s, m);
    if s.read == start {
      assert move.sender == s.(buffers := map[id := cfg.codec.encode(frame)], read := s.read + 1) && move.out == [];
      HalfwaySender(cfg, s, id, frame, start);
    } else {
      assert ReadSharing(cfg.codec, false, s.buffers, m) == Complete(map[], frame);
      SenderTakesSharing(cfg, s.(read := s.read + 1, buffers := map[]), frame);
      OnlySentCounts(cfg, s, s.(read := s.read + 1, buffers := map[]), move);
    }
  }

  lemma SenderTakesSharing(cfg: Config, s: Sender, frame: SharingFrame)
    requires Proper(cfg) && s.buffers == map[] && s.safeToDisconnect == 1
    requires match s.phase
             case AwaitPeerKey => s.sent == 6 && s.read == 4 && frame == OfType(PAIRED_KEY_ENCRYPTION)
             case AwaitPeerResult => s.sent == 8 && s.read == 6 && frame == OfType(PAIRED_KEY_RESULT)
             case AwaitAcceptance => s.sent == 10 && s.read == 8 && frame == Answer(cfg)
             case _ => false
    ensures SenderMoveOk(cfg, s, SenderAfterSharing(cfg, s, frame)) && NoNoise(SenderAfterSharing(cfg, s, frame).out)
    ensures SenderAfterSharing(cfg, s, frame).sender.read == s.read
  {
    hide Plan, SentFiles, SharingMessages, Carried, Proper, EmittedBefore, IsNoise, IntroductionOf;
    var move := SenderAfterSharing(cfg, s, frame);
    FirstIsReal(cfg.codec, IdAt(cfg, 1), OfType(PAIRED_KEY_RESULT), Some([]));
    FirstIsReal(cfg.codec, IdAt(cfg, 2), IntroductionFrame(IntroductionOf(cfg.shipments)), Some([]));
    NothingEmitted(cfg);
    OutIsNumbered(cfg, true, s.sent, move.out);
  }

  lemma NothingEmitted(cfg: Config)
    ensures EmittedBefore(cfg, 0) == 0
  {
    assert Plan(cfg.shipments)[..0] == [];
  }

  lemma SenderReadsClose(cfg: Config, s: Sender)
    requires Proper(cfg) && SenderOk(cfg, s) && SenderReady(cfg, s) && (s.phase.SendingFiles? || s.phase.AwaitClose?)
    ensures var move := SenderReads(cfg, s, At(cfg, false, s.read));
            && SenderMoveOk(cfg, s, move) && NoNoise(move.out) && move.sender.read == s.read + 1
            && (s.phase.SendingFiles? ==> move.sender.phase == SenderFailed(LateDisconnection))
            && (s.phase.AwaitClose? ==> move.sender.phase == Succeeded(true))
  {
    hide SentFiles, Plan, EmittedBefore, Proper, FromReceiver, ReadSharing;
    if s.phase.SendingFiles? {
      EmittedBound(cfg, s.phase.position);
    }
    EmptyOk(cfg, true, s.sent);
  }

  lemma SenderReadsNumbered(cfg: Config, s: Sender)
    requires Proper(cfg) && SenderOk(cfg, s) && SenderReady(cfg, s)
    ensures var move := SenderReads(cfg, s, At(cfg, false, s.read));
            SenderMoveOk(cfg, s, move) && NoNoise(move.out) && move.sender.read == s.read + 1
  {
    hide At, SenderReads, SenderMoveOk;
    match s.phase
    case AwaitServerInit => SenderReadsHandshake(cfg, s);
    case AwaitServerResponse => SenderReadsHandshake(cfg, s);
    case SendingFiles(_, _) => SenderReadsClose(cfg, s);
    case AwaitClose => SenderReadsClose(cfg, s);
    case _ => SenderReadsSharing(cfg, s);
  }

  lemma SenderReadsNoise(cfg: Config, s: Sender, m: Message)
    requires SenderOk(cfg, s) && SenderReady(cfg, s) && IsNoise(m) && s.sent >= 10
    ensures var move := SenderReads(cfg, s, m);
            && SenderMoveOk(cfg, s, move) && move.sender.read == s.read
            && move.out == SecureAll(Replies(m.frame))
            && (move.sender == s || (s.phase.SendingFiles? && move.sender == s.(phase := s.phase.(budget := s.phase.budget - 1))))
  {
    hide Plan, SentFiles, EmittedBefore;
    RepliesOk(cfg, true, s.sent, m.frame);
  }

  // ------------------------------------------------------------------
  // The receiver

  ghost predicate ReceiverMoveOk(cfg: Config, r: Receiver, move: ReceiverMove) {
    && ReceiverOk(cfg, move.receiver)
    && OutOk(cfg, false, r.sent, move.receiver.sent, move.out)
    && (move.receiver.phase.ReceiverFailed? ==> move.receiver.phase.error == Rejected || Refused(cfg, move.receiver))
  }

  lemma FilesAreSent(cfg: Config)
    requires cfg.shipments != []
    ensures SentFiles(cfg) != []
  {
  }

  /** The run of all the sender's frames from the starting world. */
  lemma WholeRun(cfg: Config)
    requires Proper(cfg) && Prepares(cfg)
    ensures var out := ReceiveAll(StartWorld(cfg), Arriving(SentFiles(cfg)));
            && (out.error.None? <==> Deliverable(cfg))
            && (out.error.None? ==> out.rest == [] && AllCommitted(cfg, out.world))
            && Sound(StartWorld(cfg))
  {
    var introduction := IntroductionOf(cfg.shipments);
    hide Prepare, ReceiveAll, SentFrames, AllFit, Expecting, Sound, DeliveredAll;
    PrepareEstablishesSound(introduction, cfg.root, cfg.disk, cfg.processId, cfg.choices, map[]);
    PreparedExpects(cfg.shipments, cfg.root, cfg.disk, cfg.processId, cfg.choices);
    var arrivals := Arriving(SentFiles(cfg));
    assert Frames(arrivals) == SentFrames(cfg.shipments);
    PlainArrivals(arrivals);
    DeliveryIff(StartWorld(cfg), cfg.shipments, arrivals);
    if ReceiveAll(StartWorld(cfg), arrivals).error.None? {
      NothingUnread(StartWorld(cfg), arrivals);
    }
  }

  lemma NothingUnread(w: World, arrivals: seq<Arrival>)
    requires ReceiveAll(w, arrivals).error.None? && Payloads(ReceiveAll(w, arrivals).rest) == []
    requires forall i :: 0 <= i < |arrivals| ==> IsPayload(arrivals[i].frame) && arrivals[i].env.fault == NoFault
    ensures ReceiveAll(w, arrivals).rest == []
  {
    RepliesAreAcks(w, arrivals);
    PlainArrivals(ReceiveAll(w, arrivals).rest);
  }

  /** One more of the sender's frames: it is refused only if the files cannot be delivered; and nothing is
      pending any more only after the last, with everything committed. */
  lemma OneMoreFrame(cfg: Config, w: World, k: nat)
    requires Proper(cfg) && Prepares(cfg) && k < |SentFiles(cfg)| && OnTheWay(cfg, w, k) && !Finished(w.transfer)
    ensures var step := Handle(w, SentFiles(cfg)[k], Env(NoFault, 0, 0));
            && (step.error.Some? ==> !Deliverable(cfg))
            && (step.error.None? ==> OnTheWay(cfg, step.world, k + 1))
            && (step.error.None? && Finished(step.world.transfer) ==>
                  k + 1 == |SentFiles(cfg)| && Deliverable(cfg) && AllCommitted(cfg, step.world))
  {
    hide Handle, SentFiles, Deliverable, AllCommitted, StartWorld;
    WholeRun(cfg);
    var frames := SentFiles(cfg);
    var arrivals := Arriving(frames[k..]);
    var step := Handle(w, frames[k], Env(NoFault, 0, 0));
    assert arrivals[0] == Arrival(frames[k], Env(NoFault, 0, 0));
    assert arrivals[1..] == Arriving(frames[k + 1..]);
    ReceiveOne(w, arrivals);
  }

  /** What is still pending after the last frame cannot be delivered. */
  lemma NothingMoreComes(cfg: Config, w: World)
    requires Proper(cfg) && Prepares(cfg) && OnTheWay(cfg, w, |SentFiles(cfg)|) && !Finished(w.transfer)
    ensures !Deliverable(cfg)
  {
    hide SentFiles, Deliverable, AllCommitted, StartWorld;
    WholeRun(cfg);
    assert Arriving(SentFiles(cfg)[|SentFiles(cfg)|..]) == [];
  }

  /** Only the user rejects. */
  lemma HandleNeverRejects(w: World, frame: OfflineFrame, env: Env)
    ensures Handle(w, frame, env).error != Some(Rejected)
  {
    hide PushChunk, UniqueDestination, Rename, AppendTo;
  }

  lemma {:induction false} PrepareFilesNeverReject(
    p: Preparing, root: Path, files: seq<FileMetadata>, processId: nat, choices: seq<Choice>)
    requires |choices| == |files|
    ensures PrepareFiles(p, root, files, processId, choices).1 != Some(Rejected)
    decreases |files|
  {
    hide SafeParentDirectory, UniqueDestination, SanitizeFileName, PartName;
    if files != [] {
      var next := PrepareFile(p, root, files[0], processId, choices[0]).0;
      PrepareFilesNeverReject(next, root, files[1..], processId, choices[1..]);
    }
  }

  lemma {:induction false} PrepareTextsNeverReject(p: Preparing, texts: seq<TextMetadata>)
    ensures PrepareTexts(p, texts).1 != Some(Rejected)
    decreases |texts|
  {
    if texts != [] {
      PrepareTextsNeverReject(PrepareText(p, texts[0]).0, texts[1..]);
    }
  }

  lemma PrepareNeverRejects(cfg: Config)
    requires |cfg.choices| == |cfg.shipments|
    ensures var prepared := Prepare(IntroductionOf(cfg.shipments), cfg.root, cfg.disk, cfg.processId, cfg.choices);
            prepared.result.Err? ==> prepared.result.error != Rejected
  {
    var introduction := IntroductionOf(cfg.shipments);
    var start := Preparing(cfg.disk, map[], map[], 0);
    PrepareFilesNeverReject(start, cfg.root, introduction.files, cfg.processId, cfg.choices);
    PrepareTextsNeverReject(PrepareFiles(start, cfg.root, introduction.files, cfg.processId, cfg.choices).0, introduction.texts);
    hide PrepareFiles, PrepareTexts;
  }

  lemma ReceiverReadsHandshake(cfg: Config, r: Receiver)
    requires Proper(cfg) && ReceiverOk(cfg, r)
    requires r.phase.AwaitRequest? || r.phase.AwaitClientInit? || r.phase.AwaitClientFinish? || r.phase.AwaitClientResponse?
    ensures var move := ReceiverReads(cfg, r, At(cfg, true, r.read));
            ReceiverMoveOk(cfg, r, move) && NoNoise(move.out) && move.receiver.read == r.read + 1
  {
    hide SentFiles, FromSender, Proper, Answer;
    var move := ReceiverReads(cfg, r, At(cfg, true, r.read));
    FirstIsReal(cfg.codec, IdAt(cfg, 3), OfType(PAIRED_KEY_ENCRYPTION), None);
    OutIsNumbered(cfg, false, r.sent, move.out);
  }

  lemma ReceiverReadsSharing(cfg: Config, r: Receiver)
    requires Proper(cfg) && ReceiverOk(cfg, r)
    requires r.phase.AwaitPairedKey? || r.phase.AwaitPairedResult? || r.phase.AwaitIntroduction?
    ensures var move := ReceiverReads(cfg, r, At(cfg, true, r.read));
            ReceiverMoveOk(cfg, r, move) && NoNoise(move.out) && move.receiver.read == r.read + 1
  {
    hide SentFiles, ReadSharing, SharingMessages, Carried, IsNoise, At, Proper, AfterSharing, IntroductionOf, Deliverable, Prepares;
    hide AllCommitted, OnTheWay, Handle;
    var (id, frame, start) :=
      if r.phase.AwaitPairedKey? then (IdAt(cfg, 0), OfType(PAIRED_KEY_ENCRYPTION), 4)
      else if r.phase.AwaitPairedResult? then (IdAt(cfg, 1), OfType(PAIRED_KEY_RESULT), 6)
      else (IdAt(cfg, 2), IntroductionFrame(IntroductionOf(cfg.shipments)), 8);
    var m := At(cfg, true, r.read);
    SharingFramesAt(cfg, r.read - start);
    FramesAreCarried(cfg);
    SharingFrameRead(cfg.codec, true, id, frame, Some([]));
    NumberedIsReal(cfg, true, r.read);
    var move := ReceiverReads(cfg, r, m);
    if r.read == start {
      assert move.receiver == r.(buffers := map[id := cfg.codec.encode(frame)], read := r.read + 1) && move.out == [];
      EmptyOk(cfg, false, r.sent);
    } else {
      assert ReadSharing(cfg.codec, true, r.buffers, m) == Complete(map[], frame);
      ReceiverTakesSharing(cfg, r.(read := r.read + 1, buffers := map[]), frame);
    }
  }

  lemma ReceiverTakesSharing(cfg: Config, r: Receiver, frame: SharingFrame)
    requires Proper(cfg) && r.buffers == map[]
    requires match r.phase
             case AwaitPairedKey => r.sent == 4 && r.read == 6 && frame == OfType(PAIRED_KEY_ENCRYPTION)
             case AwaitPairedResult => r.sent == 6 && r.read == 8 && frame == OfType(PAIRED_KEY_RESULT)
             case AwaitIntroduction => r.sent == 6 && r.read == 10 && frame == IntroductionFrame(IntroductionOf(cfg.shipments))
             case _ => false
    ensures ReceiverMoveOk(cfg, r, AfterSharing(cfg, r, frame)) && NoNoise(AfterSharing(cfg, r, frame).out)
    ensures AfterSharing(cfg, r, frame).receiver.read == r.read
  {
    MetadataIsOk(cfg.shipments);
    var move := AfterSharing(cfg, r, frame);
    FirstIsReal(cfg.codec, IdAt(cfg, 4), OfType(PAIRED_KEY_RESULT), None);
    hide SentFiles, SharingMessages, OfferOk, IntroductionOf, Proper;
    OutIsNumbered(cfg, false, r.sent, move.out);
  }

  lemma ReceiverReadsFrame(cfg: Config, r: Receiver)
    requires Proper(cfg) && ReceiverOk(cfg, r) && r.phase.Receiving?
    ensures var move := ReceiverReads(cfg, r, At(cfg, true, r.read));
            ReceiverMoveOk(cfg, r, move) && NoNoise(move.out) && move.receiver.read == r.read + 1
  {
    hide OnTheWay, AllCommitted, Handle, SentFiles, Proper, Answer, Deliverable, CleanupParts, StartWorld, Prepares;
    var k := r.read - 10;
    EmptyOk(cfg, false, r.sent);
    if k < |SentFiles(cfg)| {
      OneMoreFrame(cfg, r.phase.world, k);
      FileFrameIsPayload(cfg, k);
      HandleNeverRejects(r.phase.world, SentFiles(cfg)[k], Env(NoFault, 0, 0));
    } else {
      NothingMoreComes(cfg, r.phase.world);
      ClosingIsDisconnected(cfg, r.phase.world);
    }
  }

  lemma ClosingIsDisconnected(cfg: Config, w: World)
    ensures At(cfg, true, 10 + |SentFiles(cfg)|) == SafeDisconnectRequest()
    ensures Handle(w, SafeDisconnectRequest().frame, Env(NoFault, 0, 0)) == Stepped(w, Some(Disconnected))
  {
  }

  lemma FileFrameIsPayload(cfg: Config, k: nat)
    requires k < |SentFiles(cfg)|
    ensures IsPayload(SentFiles(cfg)[k]) && Replies(SentFiles(cfg)[k]) == []
    ensures At(cfg, true, 10 + k) == Secure(SentFiles(cfg)[k])
  {
  }

  lemma ReceiverReadsNumbered(cfg: Config, r: Receiver)
    requires Proper(cfg) && ReceiverOk(cfg, r) && ReceiverReady(r)
    ensures var move := ReceiverReads(cfg, r, At(cfg, true, r.read));
            ReceiverMoveOk(cfg, r, move) && NoNoise(move.out) && move.receiver.read == r.read + 1
  {
    hide At, ReceiverReads, ReceiverMoveOk, ReceiverOk, Proper;
    match r.phase
    case AwaitRequest => ReceiverReadsHandshake(cfg, r);
    case AwaitClientInit => ReceiverReadsHandshake(cfg, r);
    case AwaitClientFinish => ReceiverReadsHandshake(cfg, r);
    case AwaitClientResponse => ReceiverReadsHandshake(cfg, r);
    case Receiving(_) => ReceiverReadsFrame(cfg, r);
    case _ => ReceiverReadsSharing(cfg, r);
  }

  lemma ReceiverReadsNoise(cfg: Config, r: Receiver, m: Message)
    requires Proper(cfg) && ReceiverOk(cfg, r) && ReceiverReady(r) && IsNoise(m) && !WantsAck(m.frame) && r.read >= 10
    ensures var move := ReceiverReads(cfg, r, m);
            move.receiver == r && move.out == []
  {
    hide OnTheWay, Proper, Deliverable, SentFiles, AllCommitted, Fail, ReadSharing, StartWorld, Prepares;
    assert r.phase.Receiving?;
  }

  lemma ReceiverDecidesKeep(cfg: Config, r: Receiver)
    requires Proper(cfg) && ReceiverOk(cfg, r) && r.phase.Consent?
    ensures var move := ReceiverDecides(cfg, r);
            ReceiverMoveOk(cfg, r, move) && NoNoise(move.out) && move.receiver.read == r.read
  {
    hide SentFiles, Prepare, AllFit, AllCommitted, ReceiveAll, OnTheWay, Finished;
    var move := ReceiverDecides(cfg, r);
    var answer := FromReceiver(cfg, 5, Answer(cfg));
    FirstIsReal(cfg.codec, IdAt(cfg, 5), Answer(cfg), None);
    hide SharingMessages;
    OutIsNumbered(cfg, false, 6, answer);
    FilesAreSent(cfg);
    if cfg.accept && Prepares(cfg) {
      NotFinishedAtStart(cfg);
      hide StartOf;
      assert move == ReceiverMove(r.(phase := Receiving(StartWorld(cfg)), sent := 8), answer);
    } else if cfg.accept {
      PrepareNeverRejects(cfg);
      EmptyOk(cfg, false, 6);
    }
  }

  lemma NotFinishedAtStart(cfg: Config)
    requires Proper(cfg) && Prepares(cfg)
    ensures OnTheWay(cfg, StartWorld(cfg), 0) && !Finished(StartWorld(cfg).transfer)
  {
    assert SentFiles(cfg)[0..] == SentFiles(cfg);
    PreparedExpects(cfg.shipments, cfg.root, cfg.disk, cfg.processId, cfg.choices);
    hide Prepare, SentFiles, ReceiveAll;
    assert cfg.shipments[0].file.payloadId in StartWorld(cfg).transfer.files.Keys;
  }
}
