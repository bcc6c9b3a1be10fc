/** Each driver against any peer whatsoever: what it has heard and said when it gets somewhere
    (src/quick_share_sender.rs:148-264, src/quick_share_receiver.rs:279-376). Nothing is assumed of what arrives. */
module AnyPeer {
  import opened Prelude
  import opened WireMessages
  import opened Assembler
  import opened Transfers
  import opened Sending
  import opened Session
  import opened SessionInvariant
  import opened SessionSteps

  /** What a side took notice of: a message in the clear, or a whole sharing frame. */
  datatype Heard = Clear(message: Message) | Shared(frame: SharingFrame)

  predicate IsOfType(h: Heard, frameType: int) {
    h.Shared? && h.frame.v1.Some? && h.frame.v1.value.frameType == Some(frameType)
  }

  // ------------------------------------------------------------------
  // The sender

  datatype SenderTurn = SenderGoes | SenderHears(m: Message) | SenderAtEnd | SenderBreaks(cause: SendError)

  /** The sender with all it has taken notice of and all it has sent. */
  datatype SenderRun = SenderRun(sender: Sender, heard: seq<Heard>, said: seq<Message>)

  predicate SenderMay(cfg: Config, s: Sender, turn: SenderTurn) {
    match turn
    case SenderGoes => SenderCanMove(cfg, s, true)
    case SenderHears(_) => SenderReady(cfg, s)
    case SenderAtEnd => SenderReady(cfg, s)
    case SenderBreaks(cause) => !SenderEnded(s) && cause != SendRejected
  }

  /** What the sender notices of a message it reads. */
  function SenderNotices(cfg: Config, s: Sender, m: Message): seq<Heard> {
    match s.phase
    case AwaitServerInit => [Clear(m)]
    case AwaitServerResponse => [Clear(m)]
    case AwaitPeerKey => Noticed(cfg, false, s.buffers, m)
    case AwaitPeerResult => Noticed(cfg, false, s.buffers, m)
    case AwaitAcceptance => Noticed(cfg, false, s.buffers, m)
    case _ => []
  }

  function Noticed(cfg: Config, receiver: bool, buffers: Buffers, m: Message): seq<Heard> {
    var read := ReadSharing(cfg.codec, receiver, buffers, m);
    if read.Complete? then [Shared(read.frame)] else []
  }

  function SenderTakes(cfg: Config, run: SenderRun, turn: SenderTurn): SenderRun {
    if !SenderMay(cfg, run.sender, turn) then run
    else
      match turn
      case SenderGoes =>
        var move := SenderMoves(cfg, run.sender);
        run.(sender := move.sender, said := run.said + move.out)
      case SenderHears(m) =>
        var move := SenderReads(cfg, run.sender, m);
        SenderRun(move.sender, run.heard + SenderNotices(cfg, run.sender, m), run.said + move.out)
      case SenderAtEnd => run.(sender := SenderAtEof(run.sender))
      case SenderBreaks(cause) => run.(sender := run.sender.(phase := SenderFailed(cause)))
  }

  function SenderAfter(cfg: Config, run: SenderRun, turns: seq<SenderTurn>): SenderRun
    decreases |turns|
  {
    if turns == [] then run else SenderAfter(cfg, SenderTakes(cfg, run, turns[0]), turns[1..])
  }

  function SenderStarts(): SenderRun {
    SenderRun(Initial().sender, [], [])
  }

  // What the sender says, up to its introduction.

  function Greeting(cfg: Config): seq<Message> {
    [ConnectionRequest, ClientInit, ClientFinish, ConnectionResponse(true, 1)]
    + FromSender(cfg, 0, OfType(PAIRED_KEY_ENCRYPTION)) + FromSender(cfg, 1, OfType(PAIRED_KEY_RESULT))
    + FromSender(cfg, 2, IntroductionFrame(IntroductionOf(cfg.shipments)))
  }

  /** The receiver's answers were: a ServerInit, an accepting connection response of that version, both paired-key frames,
      and a response that accepts. */
  predicate Accepted(heard: seq<Heard>, version: int) {
    && |heard| == 5 && heard[0] == Clear(ServerInit) && heard[1] == Clear(ConnectionResponse(true, version))
    && IsOfType(heard[2], 3) && IsOfType(heard[3], 4) && IsOfType(heard[4], 2)
    && heard[4].frame.v1.value.connectionResponse == Some(SharingResponse(Some(1)))
  }

  /** The files' frames among the first `n` acts of the plan. */
  function FilesUpTo(cfg: Config, n: nat): seq<Message>
    requires n <= |Plan(cfg.shipments)|
  {
    SecureAll(Emitted(Plan(cfg.shipments)[..n]))
  }

  /** The request to close safely, sent to peers that know it. */
  function Goodbye(version: int): seq<Message> {
    if version >= 1 then
      [Secure(OfflineFrame(Some(OfflineV1(Some(DISCONNECTION), None, None, Some(Disconnection(Some(true), Some(false)))))))]
    else []
  }

  ghost predicate SenderStory(cfg: Config, run: SenderRun) {
    var heard, said, hello := run.heard, Real(run.said), Greeting(cfg);
    match run.sender.phase
    case NotStarted => heard == [] && said == []
    case AwaitServerInit => heard == [] && said == hello[..2]
    case AwaitServerResponse => heard == [Clear(ServerInit)] && said == hello[..4]
    case AwaitPeerKey =>
      heard == [Clear(ServerInit), Clear(ConnectionResponse(true, run.sender.safeToDisconnect))] && said == hello[..6]
    case AwaitPeerResult =>
      && |heard| == 3 && heard[..2] == [Clear(ServerInit), Clear(ConnectionResponse(true, run.sender.safeToDisconnect))]
      && IsOfType(heard[2], 3) && said == hello[..8]
    case AwaitAcceptance =>
      && |heard| == 4 && heard[..2] == [Clear(ServerInit), Clear(ConnectionResponse(true, run.sender.safeToDisconnect))]
      && IsOfType(heard[2], 3) && IsOfType(heard[3], 4) && said == hello
    case SendingFiles(position, _) =>
      && Accepted(heard, run.sender.safeToDisconnect) && position <= |Plan(cfg.shipments)|
      && said == hello + FilesUpTo(cfg, position)
    case AwaitClose =>
      && Accepted(heard, run.sender.safeToDisconnect)
      && said == hello + FilesUpTo(cfg, |Plan(cfg.shipments)|) + Goodbye(run.sender.safeToDisconnect)
    case Succeeded(confirmed) =>
      && Accepted(heard, run.sender.safeToDisconnect)
      && hello + FilesUpTo(cfg, |Plan(cfg.shipments)|) + Goodbye(run.sender.safeToDisconnect) <= said
      && (!confirmed ==> said == hello + FilesUpTo(cfg, |Plan(cfg.shipments)|) + Goodbye(run.sender.safeToDisconnect))
    case SenderFailed(_) => said <= hello || Accepted(heard, run.sender.safeToDisconnect)
  }

  lemma HelloShape(cfg: Config)
    ensures var hello := Greeting(cfg);
            && |hello| == 10 && NoNoise(hello)
            && hello[..2] == [ConnectionRequest, ClientInit]
            && hello[..4] == hello[..2] + [ClientFinish, ConnectionResponse(true, 1)]
            && hello[..6] == hello[..4] + FromSender(cfg, 0, OfType(PAIRED_KEY_ENCRYPTION))
            && hello[..8] == hello[..6] + FromSender(cfg, 1, OfType(PAIRED_KEY_RESULT))
            && hello == hello[..8] + FromSender(cfg, 2, IntroductionFrame(IntroductionOf(cfg.shipments)))
  {
    FirstIsReal(cfg.codec, IdAt(cfg, 0), OfType(PAIRED_KEY_ENCRYPTION), Some([]));
    FirstIsReal(cfg.codec, IdAt(cfg, 1), OfType(PAIRED_KEY_RESULT), Some([]));
    FirstIsReal(cfg.codec, IdAt(cfg, 2), IntroductionFrame(IntroductionOf(cfg.shipments)), Some([]));
    hide SharingMessages, IntroductionOf;
    var a, b, c := FromSender(cfg, 0, OfType(PAIRED_KEY_ENCRYPTION)), FromSender(cfg, 1, OfType(PAIRED_KEY_RESULT)),
                   FromSender(cfg, 2, IntroductionFrame(IntroductionOf(cfg.shipments)));
    var head := [ConnectionRequest, ClientInit, ClientFinish, ConnectionResponse(true, 1)];
    assert NoNoise(head) && NoNoise(a) && NoNoise(b) && NoNoise(c);
    hide IsNoise, FromSender;
  }

  /** Noise adds nothing to what was said. */
  lemma SaidMore(said: seq<Message>, out: seq<Message>)
    ensures NoNoise(out) ==> Real(said + out) == Real(said) + out
    ensures (forall i :: 0 <= i < |out| ==> IsNoise(out[i])) ==> Real(said + out) == Real(said)
  {
    RealAppend(said, out);
    if NoNoise(out) {
      AllReal(out);
    }
    if forall i :: 0 <= i < |out| ==> IsNoise(out[i]) {
      AllNoise(out);
      assert Real(said) + [] == Real(said);
    }
  }

  lemma PlanIsReal(cfg: Config, n: nat)
    requires n < |Plan(cfg.shipments)|
    ensures var act := Plan(cfg.shipments)[n];
            && (act.Poll? ==> FilesUpTo(cfg, n + 1) == FilesUpTo(cfg, n))
            && (act.Emit? ==> FilesUpTo(cfg, n + 1) == FilesUpTo(cfg, n) + [Secure(act.frame)] && !IsNoise(Secure(act.frame)))
    ensures FilesUpTo(cfg, 0) == []
  {
    var plan := Plan(cfg.shipments);
    assert plan[..n + 1] == plan[..n] + [plan[n]] && plan[..0] == [];
    EmittedAppend(plan[..n], [plan[n]]);
    assert [plan[n]][1..] == [];
    PlanStep(cfg, n);
    if plan[n].Emit? {
      NumberedIsReal(cfg, true, 10 + EmittedBefore(cfg, n));
    }
  }

  lemma SenderGoesOn(cfg: Config, run: SenderRun)
    requires SenderStory(cfg, run) && SenderMay(cfg, run.sender, SenderGoes)
    ensures SenderStory(cfg, SenderTakes(cfg, run, SenderGoes))
  {
    hide Greeting, FilesUpTo, Plan, Real, Accepted, Goodbye;
    var s, move := run.sender, SenderMoves(cfg, run.sender);
    SaidMore(run.said, move.out);
    if s.phase.SendingFiles? {
      FilesGoOn(cfg, s);
      assert Real(run.said) + [] == Real(run.said);
    } else {
      HelloShape(cfg);
      assert Real(run.said) + move.out == move.out;
    }
  }

  /** One more act of the plan, or the goodbye after it. */
  lemma FilesGoOn(cfg: Config, s: Sender)
    requires s.phase.SendingFiles? && s.phase.position <= |Plan(cfg.shipments)|
    ensures var move, position, hello := SenderMoves(cfg, s), s.phase.position, Greeting(cfg);
            && NoNoise(move.out)
            && (position < |Plan(cfg.shipments)| ==>
                  hello + FilesUpTo(cfg, position) + move.out == hello + FilesUpTo(cfg, position + 1))
            && (position == |Plan(cfg.shipments)| ==> move.out == Goodbye(s.safeToDisconnect))
  {
    hide Greeting, Plan, FilesUpTo;
    var position, hello := s.phase.position, Greeting(cfg);
    if position < |Plan(cfg.shipments)| {
      PlanIsReal(cfg, position);
      var more := SenderMoves(cfg, s).out;
      assert hello + FilesUpTo(cfg, position) + more == hello + (FilesUpTo(cfg, position) + more);
      assert FilesUpTo(cfg, position) + [] == FilesUpTo(cfg, position);
    }
  }

  lemma SenderReadsClear(cfg: Config, run: SenderRun, m: Message)
    requires SenderStory(cfg, run) && (run.sender.phase.AwaitServerInit? || run.sender.phase.AwaitServerResponse?)
    ensures SenderStory(cfg, SenderTakes(cfg, run, SenderHears(m)))
  {
    HelloShape(cfg);
    FirstIsReal(cfg.codec, IdAt(cfg, 0), OfType(PAIRED_KEY_ENCRYPTION), Some([]));
    SaidMore(run.said, SenderReads(cfg, run.sender, m).out);
    hide Greeting, Plan, Real, Accepted, SharingMessages;
    assert Real(run.said) + [] == Real(run.said);
  }

  predicate AwaitsShared(s: Sender) {
    s.phase.AwaitPeerKey? || s.phase.AwaitPeerResult? || s.phase.AwaitAcceptance?
  }

  /** No frame is complete yet, or reading fails. */
  lemma NothingComplete(cfg: Config, s: Sender, m: Message)
    requires AwaitsShared(s) && !ReadSharing(cfg.codec, false, s.buffers, m).Complete?
    ensures var move := SenderReads(cfg, s, m);
            && (forall i :: 0 <= i < |move.out| ==> IsNoise(move.out[i])) && SenderNotices(cfg, s, m) == []
            && (move.sender.phase.SenderFailed?
                || (move.sender.phase == s.phase && move.sender.safeToDisconnect == s.safeToDisconnect))
  {
    OnlyNoiseMeanwhile(cfg.codec, false, s.buffers, m);
    hide ReadSharing;
  }

  lemma SenderHearsNothing(cfg: Config, run: SenderRun, m: Message)
    requires SenderStory(cfg, run) && AwaitsShared(run.sender) && !ReadSharing(cfg.codec, false, run.sender.buffers, m).Complete?
    ensures SenderStory(cfg, SenderTakes(cfg, run, SenderHears(m)))
  {
    hide Greeting, Real, ReadSharing, SenderReads, SenderNotices, Accepted, FilesUpTo;
    HelloShape(cfg);
    NothingComplete(cfg, run.sender, m);
    SaidMore(run.said, SenderReads(cfg, run.sender, m).out);
    assert run.heard + [] == run.heard;
  }

  /** A frame is complete: the sender goes on if it is of the type awaited, and fails otherwise. */
  lemma KeysComplete(cfg: Config, s: Sender, m: Message)
    requires (s.phase.AwaitPeerKey? || s.phase.AwaitPeerResult?) && ReadSharing(cfg.codec, false, s.buffers, m).Complete?
    ensures var move, frame := SenderReads(cfg, s, m), ReadSharing(cfg.codec, false, s.buffers, m).frame;
            && SenderNotices(cfg, s, m) == [Shared(frame)] && move.sender.safeToDisconnect == s.safeToDisconnect
            && (move.sender.phase.SenderFailed? ==> move.out == [])
            && if !IsOfType(Shared(frame), if s.phase.AwaitPeerKey? then 3 else 4) then move.sender.phase.SenderFailed?
               else if s.phase.AwaitPeerKey? then
                 move.sender.phase.AwaitPeerResult? && move.out == FromSender(cfg, 1, OfType(PAIRED_KEY_RESULT))
               else
                 move.sender.phase.AwaitAcceptance? && move.out == FromSender(cfg, 2, IntroductionFrame(IntroductionOf(cfg.shipments)))
  {
    hide ReadSharing, FromSender, IntroductionOf;
  }

  lemma SenderHearsKeys(cfg: Config, run: SenderRun, m: Message)
    requires SenderStory(cfg, run) && (run.sender.phase.AwaitPeerKey? || run.sender.phase.AwaitPeerResult?)
    requires ReadSharing(cfg.codec, false, run.sender.buffers, m).Complete?
    ensures SenderStory(cfg, SenderTakes(cfg, run, SenderHears(m)))
  {
    hide Greeting, Real, SharingMessages, ReadSharing, SenderReads, SenderNotices, IntroductionOf, Accepted, FilesUpTo, IsOfType;
    FirstIsReal(cfg.codec, IdAt(cfg, 1), OfType(PAIRED_KEY_RESULT), Some([]));
    FirstIsReal(cfg.codec, IdAt(cfg, 2), IntroductionFrame(IntroductionOf(cfg.shipments)), Some([]));
    KeysComplete(cfg, run.sender, m);
    HelloShape(cfg);
    hide NoNoise;
    var heard, next, move := run.heard, SenderTakes(cfg, run, SenderHears(m)), SenderReads(cfg, run.sender, m);
    var frame := ReadSharing(cfg.codec, false, run.sender.buffers, m).frame;
    assert next == SenderRun(move.sender, heard + [Shared(frame)], run.said + move.out);
    assert next.heard[..2] == heard[..2];
    if move.sender.phase.SenderFailed? {
      assert next.said == run.said;
    } else {
      SaidMore(run.said, move.out);
    }
  }

  lemma AnswerComplete(cfg: Config, s: Sender, m: Message)
    requires s.phase.AwaitAcceptance? && ReadSharing(cfg.codec, false, s.buffers, m).Complete?
    ensures var move, frame := SenderReads(cfg, s, m), ReadSharing(cfg.codec, false, s.buffers, m).frame;
            && SenderNotices(cfg, s, m) == [Shared(frame)] && move.sender.safeToDisconnect == s.safeToDisconnect && move.out == []
            && if IsOfType(Shared(frame), 2) && frame.v1.value.connectionResponse == Some(SharingResponse(Some(1)))
               then move.sender.phase == SendingFiles(0, POLL_BUDGET) else move.sender.phase.SenderFailed?
  {
    hide ReadSharing;
  }

  lemma SenderHearsAnswer(cfg: Config, run: SenderRun, m: Message)
    requires SenderStory(cfg, run) && run.sender.phase.AwaitAcceptance?
    requires ReadSharing(cfg.codec, false, run.sender.buffers, m).Complete?
    ensures SenderStory(cfg, SenderTakes(cfg, run, SenderHears(m)))
  {
    hide Greeting, Real, ReadSharing, SenderReads, SenderNotices, IsOfType, FilesUpTo;
    NothingPlanned(cfg);
    AnswerComplete(cfg, run.sender, m);
    var heard := run.heard;
    assert heard[..2][0] == heard[0] && heard[..2][1] == heard[1];
    assert run.said + [] == run.said && Greeting(cfg) + [] == Greeting(cfg);
    var next := SenderTakes(cfg, run, SenderHears(m));
    assert next.said == run.said && next.heard == heard + [Shared(ReadSharing(cfg.codec, false, run.sender.buffers, m).frame)];
    if next.sender.phase.SenderFailed? {
      assert SenderStory(cfg, next);
    } else {
      assert Real(next.said) == Greeting(cfg) + FilesUpTo(cfg, 0);
      assert SenderStory(cfg, next);
    }
  }

  lemma NothingPlanned(cfg: Config)
    ensures FilesUpTo(cfg, 0) == []
  {
    assert Plan(cfg.shipments)[..0] == [];
  }

  lemma OnlyNoiseMeanwhile(codec: SharingCodec, receiver: bool, buffers: Buffers, m: Message)
    ensures var read := ReadSharing(codec, receiver, buffers, m);
            read.More? ==> forall i :: 0 <= i < |read.replies| ==> IsKeepAlive(read.replies[i])
  {
    hide PushChunk;
  }

  /** What is read among the files or at the close changes the phase little and is answered by acknowledgements. */
  lemma LateShape(cfg: Config, s: Sender, m: Message)
    requires SenderReady(cfg, s) && (s.phase.SendingFiles? || s.phase.AwaitClose?)
    ensures var move := SenderReads(cfg, s, m);
            && SenderNotices(cfg, s, m) == [] && move.sender.safeToDisconnect == s.safeToDisconnect
            && (move.sender.phase.SenderFailed?
                || (s.phase.AwaitClose? && move.sender.phase == Succeeded(true) && NoNoise(move.out))
                || ((forall i :: 0 <= i < |move.out| ==> IsNoise(move.out[i]))
                    && if s.phase.AwaitClose? then move.sender.phase.AwaitClose?
                       else move.sender.phase.SendingFiles? && move.sender.phase.position == s.phase.position))
  {
    hide Plan;
  }

  lemma SenderReadsLate(cfg: Config, run: SenderRun, m: Message)
    requires SenderStory(cfg, run) && SenderReady(cfg, run.sender) && (run.sender.phase.SendingFiles? || run.sender.phase.AwaitClose?)
    ensures SenderStory(cfg, SenderTakes(cfg, run, SenderHears(m)))
  {
    hide Greeting, Plan, Real, FilesUpTo, Accepted, Goodbye, SenderReads, SenderNotices, SenderReady;
    LateShape(cfg, run.sender, m);
    SaidMore(run.said, SenderReads(cfg, run.sender, m).out);
    assert run.heard + [] == run.heard;
  }

  lemma SenderStoryStep(cfg: Config, run: SenderRun, turn: SenderTurn)
    requires SenderStory(cfg, run)
    ensures SenderStory(cfg, SenderTakes(cfg, run, turn))
  {
    hide SenderStory, ReadSharing, Plan;
    if SenderMay(cfg, run.sender, turn) {
      match turn
      case SenderGoes => SenderGoesOn(cfg, run);
      case SenderHears(m) =>
        var phase := run.sender.phase;
        if phase.AwaitServerInit? || phase.AwaitServerResponse? {
          SenderReadsClear(cfg, run, m);
        } else if phase.SendingFiles? || phase.AwaitClose? {
          SenderReadsLate(cfg, run, m);
        } else if !ReadSharing(cfg.codec, false, run.sender.buffers, m).Complete? {
          SenderHearsNothing(cfg, run, m);
        } else if phase.AwaitAcceptance? {
          SenderHearsAnswer(cfg, run, m);
        } else {
          SenderHearsKeys(cfg, run, m);
        }
      case _ => SenderStops(cfg, run, turn);
    }
  }

  lemma SenderStops(cfg: Config, run: SenderRun, turn: SenderTurn)
    requires SenderStory(cfg, run) && (turn.SenderAtEnd? || turn.SenderBreaks?)
    ensures SenderStory(cfg, SenderTakes(cfg, run, turn))
  {
    HelloShape(cfg);
    hide Greeting, Plan, Real, FilesUpTo, Accepted, Goodbye;
  }

  lemma {:induction false} SenderStoryHolds(cfg: Config, run: SenderRun, turns: seq<SenderTurn>)
    requires SenderStory(cfg, run)
    ensures SenderStory(cfg, SenderAfter(cfg, run, turns))
    decreases |turns|
  {
    hide SenderStory, SenderTakes;
    if turns != [] {
      SenderStoryStep(cfg, run, turns[0]);
      SenderStoryHolds(cfg, SenderTakes(cfg, run, turns[0]), turns[1..]);
    }
  }

  /** The sender against any peer, keep-alives aside. Whatever it has said is a beginning of its greeting, unless it has
      heard everything up to a response that accepts; then the greeting is whole and followed by the files' frames in
      order, up to where it stands. When it closes it has said all of them and, if the peer's connection response told a
      version from 1 on, the request to close safely. */
  lemma WhatTheSenderSays(cfg: Config, turns: seq<SenderTurn>)
    ensures var run, hello := SenderAfter(cfg, SenderStarts(), turns), Greeting(cfg);
            var said, phase, version := Real(run.said), run.sender.phase, run.sender.safeToDisconnect;
            && (said <= hello || Accepted(run.heard, version))
            && (phase.SendingFiles? ==>
                  && Accepted(run.heard, version) && phase.position <= |Plan(cfg.shipments)|
                  && said == hello + FilesUpTo(cfg, phase.position))
            && (phase.AwaitClose? || phase == Succeeded(false) ==>
                  && Accepted(run.heard, version)
                  && said == hello + SecureAll(SentFrames(cfg.shipments)) + Goodbye(version))
            && (phase.Succeeded? ==>
                  Accepted(run.heard, version) && hello + SecureAll(SentFrames(cfg.shipments)) + Goodbye(version) <= said)
  {
    hide SenderAfter, Real, Greeting, Goodbye, Accepted, FilesUpTo, Plan, SentFrames, SenderStory, SenderStarts;
    StartsWell(cfg);
    SenderStoryHolds(cfg, SenderStarts(), turns);
    StoryMeans(cfg, SenderAfter(cfg, SenderStarts(), turns));
    WholePlan(cfg);
  }

  lemma StartsWell(cfg: Config)
    ensures SenderStory(cfg, SenderStarts())
  {
  }

  lemma StoryMeans(cfg: Config, run: SenderRun)
    requires SenderStory(cfg, run)
    ensures var hello, said, phase, version := Greeting(cfg), Real(run.said), run.sender.phase, run.sender.safeToDisconnect;
            && (said <= hello || Accepted(run.heard, version))
            && (phase.SendingFiles? ==>
                  && Accepted(run.heard, version) && phase.position <= |Plan(cfg.shipments)|
                  && said == hello + FilesUpTo(cfg, phase.position))
            && (phase.AwaitClose? || phase == Succeeded(false) ==>
                  Accepted(run.heard, version) && said == hello + FilesUpTo(cfg, |Plan(cfg.shipments)|) + Goodbye(version))
            && (phase.Succeeded? ==>
                  Accepted(run.heard, version) && hello + FilesUpTo(cfg, |Plan(cfg.shipments)|) + Goodbye(version) <= said)
  {
    hide Real, Greeting, Goodbye, Accepted, FilesUpTo, Plan, IsOfType;
    HelloShape(cfg);
  }

  lemma WholePlan(cfg: Config)
    ensures FilesUpTo(cfg, |Plan(cfg.shipments)|) == SecureAll(SentFrames(cfg.shipments))
  {
    PlanEmitsAll(cfg.shipments);
    assert Plan(cfg.shipments)[..|Plan(cfg.shipments)|] == Plan(cfg.shipments);
  }

  // ------------------------------------------------------------------
  // The receiver

  datatype ReceiverTurn =
    | ReceiverHears(m: Message)
    | ConsentTurn(keepAlive: bool, waiting: Option<Message>)
    | UserDecides
    | ReceiverCloses
    | ReceiverBreaks(error: ReceiveError)

  datatype ReceiverRun = ReceiverRun(receiver: Receiver, heard: seq<Heard>, said: seq<Message>)

  predicate ReceiverMay(r: Receiver, turn: ReceiverTurn) {
    match turn
    case ReceiverHears(_) => ReceiverReady(r)
    case ConsentTurn(_, _) => r.phase.Consent? && r.phase.polls > 0
    case UserDecides => r.phase.Consent?
    case ReceiverCloses => r.phase.AllReceived?
    case ReceiverBreaks(_) => !ReceiverEnded(r)
  }

  function ReceiverNotices(cfg: Config, r: Receiver, m: Message): seq<Heard> {
    match r.phase
    case AwaitRequest => [Clear(m)]
    case AwaitClientInit => [Clear(m)]
    case AwaitClientFinish => [Clear(m)]
    case AwaitClientResponse => [Clear(m)]
    case AwaitPairedKey => Noticed(cfg, true, r.buffers, m)
    case AwaitPairedResult => Noticed(cfg, true, r.buffers, m)
    case AwaitIntroduction => Noticed(cfg, true, r.buffers, m)
    case _ => []
  }

  function ReceiverTakes(cfg: Config, run: ReceiverRun, turn: ReceiverTurn): ReceiverRun {
    if !ReceiverMay(run.receiver, turn) then run
    else
      match turn
      case ReceiverHears(m) =>
        var move := ReceiverReads(cfg, run.receiver, m);
        ReceiverRun(move.receiver, run.heard + ReceiverNotices(cfg, run.receiver, m), run.said + move.out)
      case ConsentTurn(keepAlive, waiting) =>
        var move := ReceiverWaits(cfg, run.receiver, keepAlive, waiting);
        run.(receiver := move.receiver, said := run.said + move.out)
      case UserDecides =>
        var move := ReceiverDecides(cfg, run.receiver);
        run.(receiver := move.receiver, said := run.said + move.out)
      case ReceiverCloses =>
        var r := run.receiver;
        run.(
          receiver := r.(phase := Closed(r.phase.world), sent := r.sent + 1),
          said := run.said + [Secure(OfFrameType(DISCONNECTION))])
      case ReceiverBreaks(error) => run.(receiver := Fail(cfg, run.receiver, error).receiver)
  }

  function ReceiverAfter(cfg: Config, run: ReceiverRun, turns: seq<ReceiverTurn>): ReceiverRun
    decreases |turns|
  {
    if turns == [] then run else ReceiverAfter(cfg, ReceiverTakes(cfg, run, turns[0]), turns[1..])
  }

  function ReceiverStarts(): ReceiverRun {
    ReceiverRun(Initial().receiver, [], [])
  }

  /** What the receiver says up to the user's decision. */
  function Welcome(cfg: Config): seq<Message> {
    [ServerInit, ConnectionResponse(true, 1)]
    + FromReceiver(cfg, 3, OfType(PAIRED_KEY_ENCRYPTION)) + FromReceiver(cfg, 4, OfType(PAIRED_KEY_RESULT))
  }

  function Decision(cfg: Config): seq<Message> {
    FromReceiver(cfg, 5, ResponseFrame(if cfg.accept then 1 else 2))
  }

  /** The four messages in the clear, in their order. */
  predicate Opened(heard: seq<Heard>) {
    && |heard| >= 4 && heard[0] == Clear(ConnectionRequest) && heard[1] == Clear(ClientInit) && heard[2] == Clear(ClientFinish)
    && heard[3].Clear? && heard[3].message.ConnectionResponse?
  }

  /** And after them both paired-key frames and an introduction, this one, in which every file has a name and a size that
      is not negative, and every text such a size. */
  predicate Offers(heard: seq<Heard>, introduction: Introduction) {
    && Opened(heard) && |heard| == 7 && IsOfType(heard[4], 3) && IsOfType(heard[5], 4) && IsOfType(heard[6], 1)
    && heard[6].frame.v1.value.introduction == Some(introduction)
    && (forall i :: 0 <= i < |introduction.files| ==>
          introduction.files[i].name.Some? && introduction.files[i].size.Some? && introduction.files[i].size.value >= 0)
    && (forall i :: 0 <= i < |introduction.texts| ==> introduction.texts[i].size.Some? && introduction.texts[i].size.value >= 0)
  }

  /** The user has accepted an introduction that `prepare` accepts. */
  ghost predicate Agreed(cfg: Config, heard: seq<Heard>) {
    cfg.accept && exists introduction ::
      && Offers(heard, introduction) && |cfg.choices| == |introduction.files|
      && Prepare(introduction, cfg.root, cfg.disk, cfg.processId, cfg.choices).result.Ok?
  }

  ghost predicate ReceiverStory(cfg: Config, run: ReceiverRun) {
    var heard, said, hello := run.heard, Real(run.said), Welcome(cfg);
    match run.receiver.phase
    case AwaitRequest => heard == [] && said == []
    case AwaitClientInit => heard == [Clear(ConnectionRequest)] && said == []
    case AwaitClientFinish => heard == [Clear(ConnectionRequest), Clear(ClientInit)] && said == hello[..1]
    case AwaitClientResponse =>
      heard == [Clear(ConnectionRequest), Clear(ClientInit), Clear(ClientFinish)] && said == hello[..1]
    case AwaitPairedKey => Opened(heard) && |heard| == 4 && said == hello[..4]
    case AwaitPairedResult => Opened(heard) && |heard| == 5 && IsOfType(heard[4], 3) && said == hello
    case AwaitIntroduction => Opened(heard) && |heard| == 6 && IsOfType(heard[4], 3) && IsOfType(heard[5], 4) && said == hello
    case Consent(introduction, _) => Offers(heard, introduction) && said == hello
    case Receiving(_) => Agreed(cfg, heard) && said == hello + Decision(cfg)
    case AllReceived(_) => Agreed(cfg, heard) && said == hello + Decision(cfg)
    case Closed(_) => Agreed(cfg, heard) && said == hello + Decision(cfg) + [Secure(OfFrameType(DISCONNECTION))]
    case ReceiverFailed(_, disk) =>
      || (disk == cfg.disk && said <= hello)
      || (disk == cfg.disk && !cfg.accept && said == hello + Decision(cfg) && exists introduction :: Offers(heard, introduction))
      || (cfg.accept && said == hello && exists introduction :: Offers(heard, introduction))
      || (Agreed(cfg, heard) && said == hello + Decision(cfg))
  }

  lemma WelcomeShape(cfg: Config)
    ensures var hello := Welcome(cfg);
            && |hello| == 6 && NoNoise(hello) && NoNoise(Decision(cfg)) && |Decision(cfg)| == 2
            && hello[..1] == [ServerInit]
            && hello[..4] == hello[..1] + ([ConnectionResponse(true, 1)] + FromReceiver(cfg, 3, OfType(PAIRED_KEY_ENCRYPTION)))
            && hello == hello[..4] + FromReceiver(cfg, 4, OfType(PAIRED_KEY_RESULT))
  {
    FirstIsReal(cfg.codec, IdAt(cfg, 3), OfType(PAIRED_KEY_ENCRYPTION), None);
    FirstIsReal(cfg.codec, IdAt(cfg, 4), OfType(PAIRED_KEY_RESULT), None);
    FirstIsReal(cfg.codec, IdAt(cfg, 5), ResponseFrame(if cfg.accept then 1 else 2), None);
    hide SharingMessages;
    var a, b := FromReceiver(cfg, 3, OfType(PAIRED_KEY_ENCRYPTION)), FromReceiver(cfg, 4, OfType(PAIRED_KEY_RESULT));
    var head := [ServerInit, ConnectionResponse(true, 1)];
    assert NoNoise(head) && NoNoise(a) && NoNoise(b);
    hide IsNoise, FromReceiver;
  }

  // What one message does, phase by phase.

  lemma ClearShape(cfg: Config, r: Receiver, m: Message)
    requires r.phase.AwaitRequest? || r.phase.AwaitClientInit? || r.phase.AwaitClientFinish? || r.phase.AwaitClientResponse?
    ensures var move := ReceiverReads(cfg, r, m);
            && ReceiverNotices(cfg, r, m) == [Clear(m)]
            && if move.receiver.phase.ReceiverFailed? then move.receiver.phase.disk == cfg.disk && move.out == []
               else if r.phase.AwaitRequest? then m == ConnectionRequest && move.receiver.phase.AwaitClientInit? && move.out == []
               else if r.phase.AwaitClientInit? then m == ClientInit && move.receiver.phase.AwaitClientFinish? && move.out == [ServerInit]
               else if r.phase.AwaitClientFinish? then
                 m == ClientFinish && move.receiver.phase.AwaitClientResponse? && move.out == []
               else
                 && m.ConnectionResponse? && move.receiver.phase.AwaitPairedKey?
                 && move.out == [ConnectionResponse(true, 1)] + FromReceiver(cfg, 3, OfType(PAIRED_KEY_ENCRYPTION))
  {
    hide FromReceiver;
  }

  predicate HearsShared(r: Receiver) {
    r.phase.AwaitPairedKey? || r.phase.AwaitPairedResult? || r.phase.AwaitIntroduction?
  }

  lemma NothingCompleteYet(cfg: Config, r: Receiver, m: Message)
    requires HearsShared(r) && !ReadSharing(cfg.codec, true, r.buffers, m).Complete?
    ensures var move := ReceiverReads(cfg, r, m);
            && ReceiverNotices(cfg, r, m) == [] && (forall i :: 0 <= i < |move.out| ==> IsNoise(move.out[i]))
            && if move.receiver.phase.ReceiverFailed? then move.receiver.phase.disk == cfg.disk
               else move.receiver.phase == r.phase
  {
    OnlyNoiseMeanwhile(cfg.codec, true, r.buffers, m);
    hide ReadSharing;
  }

  lemma SharedShape(cfg: Config, r: Receiver, m: Message)
    requires HearsShared(r) && ReadSharing(cfg.codec, true, r.buffers, m).Complete?
    ensures var move, frame := ReceiverReads(cfg, r, m), ReadSharing(cfg.codec, true, r.buffers, m).frame;
            && ReceiverNotices(cfg, r, m) == [Shared(frame)]
            && if move.receiver.phase.ReceiverFailed? then move.receiver.phase.disk == cfg.disk && move.out == []
               else if r.phase.AwaitPairedKey? then
                 && IsOfType(Shared(frame), 3) && move.receiver.phase.AwaitPairedResult?
                 && move.out == FromReceiver(cfg, 4, OfType(PAIRED_KEY_RESULT))
               else if r.phase.AwaitPairedResult? then
                 IsOfType(Shared(frame), 4) && move.receiver.phase.AwaitIntroduction? && move.out == []
               else
                 && IsOfType(Shared(frame), 1) && move.receiver.phase.Consent? && move.out == []
                 && frame.v1.value.introduction == Some(move.receiver.phase.introduction) && OfferOk(move.receiver.phase.introduction)
  {
    hide ReadSharing, FromReceiver, OfferOk;
  }

  lemma ReceivingShape(cfg: Config, r: Receiver, m: Message)
    requires r.phase.Receiving?
    ensures var move := ReceiverReads(cfg, r, m);
            && ReceiverNotices(cfg, r, m) == [] && (forall i :: 0 <= i < |move.out| ==> IsNoise(move.out[i]))
            && (move.receiver.phase.ReceiverFailed? || move.receiver.phase.Receiving? || move.receiver.phase.AllReceived?)
  {
    hide Handle, Finished, CleanupParts;
  }

  lemma ReceiverHearsClear(cfg: Config, run: ReceiverRun, m: Message)
    requires ReceiverStory(cfg, run) && PlainPhase(run.receiver)
    ensures ReceiverStory(cfg, ReceiverTakes(cfg, run, ReceiverHears(m)))
  {
    hide Welcome, Real, ReceiverReads, ReceiverNotices, Offers, Agreed, Decision, FromReceiver;
    ClearShape(cfg, run.receiver, m);
    WelcomeShape(cfg);
    FirstIsReal(cfg.codec, IdAt(cfg, 3), OfType(PAIRED_KEY_ENCRYPTION), None);
    FromReceiverIs(cfg, 3, OfType(PAIRED_KEY_ENCRYPTION));
    var next, move := ReceiverTakes(cfg, run, ReceiverHears(m)), ReceiverReads(cfg, run.receiver, m);
    SaidMore(run.said, move.out);
    assert Real(run.said) + [] == Real(run.said);
    if move.receiver.phase.ReceiverFailed? {
      assert ReceiverStory(cfg, next);
    }
  }

  predicate PlainPhase(r: Receiver) {
    r.phase.AwaitRequest? || r.phase.AwaitClientInit? || r.phase.AwaitClientFinish? || r.phase.AwaitClientResponse?
  }

  lemma FromReceiverIs(cfg: Config, i: nat, frame: SharingFrame)
    ensures NoNoise(FromReceiver(cfg, i, frame))
  {
    FirstIsReal(cfg.codec, IdAt(cfg, i), frame, None);
  }

  lemma ReceiverHearsNothing(cfg: Config, run: ReceiverRun, m: Message)
    requires ReceiverStory(cfg, run) && HearsShared(run.receiver) && !ReadSharing(cfg.codec, true, run.receiver.buffers, m).Complete?
    ensures ReceiverStory(cfg, ReceiverTakes(cfg, run, ReceiverHears(m)))
  {
    hide Welcome, Real, ReceiverReads, ReceiverNotices, ReadSharing, Opened, Offers, Agreed, Decision, IsOfType;
    NothingCompleteYet(cfg, run.receiver, m);
    WelcomeShape(cfg);
    SaidMore(run.said, ReceiverReads(cfg, run.receiver, m).out);
    assert run.heard + [] == run.heard;
  }

  lemma ReceiverHearsShared(cfg: Config, run: ReceiverRun, m: Message)
    requires ReceiverStory(cfg, run) && HearsShared(run.receiver) && ReadSharing(cfg.codec, true, run.receiver.buffers, m).Complete?
    ensures ReceiverStory(cfg, ReceiverTakes(cfg, run, ReceiverHears(m)))
  {
    hide Welcome, Real, ReceiverReads, ReceiverNotices, ReadSharing, Agreed, Decision, IsOfType, FromReceiver;
    SharedShape(cfg, run.receiver, m);
    WelcomeShape(cfg);
    FromReceiverIs(cfg, 4, OfType(PAIRED_KEY_RESULT));
    var next, move := ReceiverTakes(cfg, run, ReceiverHears(m)), ReceiverReads(cfg, run.receiver, m);
    SaidMore(run.said, move.out);
    assert Real(run.said) + [] == Real(run.said);
    if move.receiver.phase.ReceiverFailed? {
      assert ReceiverStory(cfg, next);
    } else {
      assert ReceiverStory(cfg, next);
    }
  }

  lemma ReceiverHearsFile(cfg: Config, run: ReceiverRun, m: Message)
    requires ReceiverStory(cfg, run) && run.receiver.phase.Receiving?
    ensures ReceiverStory(cfg, ReceiverTakes(cfg, run, ReceiverHears(m)))
  {
    hide Welcome, Real, ReceiverReads, ReceiverNotices, Agreed, Decision;
    ReceivingShape(cfg, run.receiver, m);
    SaidMore(run.said, ReceiverReads(cfg, run.receiver, m).out);
    assert run.heard + [] == run.heard;
  }

  lemma WaitShape(cfg: Config, r: Receiver, keepAlive: bool, waiting: Option<Message>)
    requires r.phase.Consent? && r.phase.polls > 0
    ensures var move := ReceiverWaits(cfg, r, keepAlive, waiting);
            && (forall i :: 0 <= i < |move.out| ==> IsNoise(move.out[i]))
            && (move.receiver.phase.ReceiverFailed? ==> move.receiver.phase.disk == cfg.disk)
            && (!move.receiver.phase.ReceiverFailed? ==>
                  move.receiver.phase.Consent? && move.receiver.phase.introduction == r.phase.introduction)
  {
  }

  lemma ConsentTurnKeeps(cfg: Config, run: ReceiverRun, keepAlive: bool, waiting: Option<Message>)
    requires ReceiverStory(cfg, run) && run.receiver.phase.Consent? && run.receiver.phase.polls > 0
    ensures ReceiverStory(cfg, ReceiverTakes(cfg, run, ConsentTurn(keepAlive, waiting)))
  {
    hide Welcome, Real, ReceiverWaits, Agreed, Decision, Offers;
    WaitShape(cfg, run.receiver, keepAlive, waiting);
    SaidMore(run.said, ReceiverWaits(cfg, run.receiver, keepAlive, waiting).out);
  }

  lemma DecisionShape(cfg: Config, r: Receiver)
    requires r.phase.Consent?
    ensures var move, introduction := ReceiverDecides(cfg, r), r.phase.introduction;
            if !cfg.accept then
              move.receiver.phase.ReceiverFailed? && move.receiver.phase.disk == cfg.disk && move.out == Decision(cfg)
            else if |cfg.choices| == |introduction.files|
                    && Prepare(introduction, cfg.root, cfg.disk, cfg.processId, cfg.choices).result.Ok? then
              (move.receiver.phase.Receiving? || move.receiver.phase.AllReceived?) && move.out == Decision(cfg)
            else move.receiver.phase.ReceiverFailed? && move.out == []
  {
    hide Prepare, Finished, FromReceiver;
  }

  lemma UserDecidesKeeps(cfg: Config, run: ReceiverRun)
    requires ReceiverStory(cfg, run) && run.receiver.phase.Consent?
    ensures ReceiverStory(cfg, ReceiverTakes(cfg, run, UserDecides))
  {
    hide Welcome, Real, ReceiverDecides, Decision, Offers, Prepare;
    DecisionShape(cfg, run.receiver);
    WelcomeShape(cfg);
    SaidMore(run.said, ReceiverDecides(cfg, run.receiver).out);
    assert Real(run.said) + [] == Real(run.said);
    assert Offers(run.heard, run.receiver.phase.introduction);
  }

  lemma ReceiverClosesKeeps(cfg: Config, run: ReceiverRun)
    requires ReceiverStory(cfg, run) && run.receiver.phase.AllReceived?
    ensures ReceiverStory(cfg, ReceiverTakes(cfg, run, ReceiverCloses))
  {
    assert NoNoise([Secure(OfFrameType(DISCONNECTION))]);
    SaidMore(run.said, [Secure(OfFrameType(DISCONNECTION))]);
    hide Welcome, Real, Agreed, Decision;
  }

  lemma ReceiverBreaksKeeps(cfg: Config, run: ReceiverRun, error: ReceiveError)
    requires ReceiverStory(cfg, run) && !ReceiverEnded(run.receiver)
    ensures ReceiverStory(cfg, ReceiverTakes(cfg, run, ReceiverBreaks(error)))
  {
    WelcomeShape(cfg);
    hide Welcome, Real, Agreed, Decision, Offers, Opened, CleanupParts;
  }

  lemma ReceiverStoryStep(cfg: Config, run: ReceiverRun, turn: ReceiverTurn)
    requires ReceiverStory(cfg, run)
    ensures ReceiverStory(cfg, ReceiverTakes(cfg, run, turn))
  {
    hide ReceiverStory, ReadSharing, ReceiverReads, ReceiverDecides, ReceiverWaits, Fail, ReceiverNotices;
    if ReceiverMay(run.receiver, turn) {
      match turn
      case ReceiverHears(m) =>
        if PlainPhase(run.receiver) {
          ReceiverHearsClear(cfg, run, m);
        } else if run.receiver.phase.Receiving? {
          ReceiverHearsFile(cfg, run, m);
        } else if ReadSharing(cfg.codec, true, run.receiver.buffers, m).Complete? {
          ReceiverHearsShared(cfg, run, m);
        } else {
          ReceiverHearsNothing(cfg, run, m);
        }
      case ConsentTurn(keepAlive, waiting) => ConsentTurnKeeps(cfg, run, keepAlive, waiting);
      case UserDecides => UserDecidesKeeps(cfg, run);
      case ReceiverCloses => ReceiverClosesKeeps(cfg, run);
      case ReceiverBreaks(error) => ReceiverBreaksKeeps(cfg, run, error);
    }
  }

  lemma {:induction false} ReceiverStoryHolds(cfg: Config, run: ReceiverRun, turns: seq<ReceiverTurn>)
    requires ReceiverStory(cfg, run)
    ensures ReceiverStory(cfg, ReceiverAfter(cfg, run, turns))
    decreases |turns|
  {
    hide ReceiverStory, ReceiverTakes;
    if turns != [] {
      ReceiverStoryStep(cfg, run, turns[0]);
      ReceiverStoryHolds(cfg, ReceiverTakes(cfg, run, turns[0]), turns[1..]);
    }
  }

  /** The receiver against any peer. Its disk is as it was unless the user has accepted an offer, one heard after the four
      opening messages and both paired-key frames; keep-alives aside, what it has said is a beginning of its welcome
      unless there was such an offer; and when it has closed it has said its welcome, the acceptance and a Disconnection. */
  lemma WhatTheReceiverDoes(cfg: Config, turns: seq<ReceiverTurn>)
    ensures var run := ReceiverAfter(cfg, ReceiverStarts(), turns);
            var said, phase, hello := Real(run.said), run.receiver.phase, Welcome(cfg);
            var offered := exists introduction :: Offers(run.heard, introduction);
            && (DiskOf(cfg, run.receiver) == cfg.disk || (cfg.accept && offered))
            && (said <= hello || (offered && hello + Decision(cfg) <= said))
            && (phase.Consent? ==> Offers(run.heard, phase.introduction))
            && (phase.Receiving? || phase.AllReceived? || phase.Closed? ==> Agreed(cfg, run.heard))
            && (phase.Closed? ==>
                  said == hello + Decision(cfg) + [Secure(OfflineFrame(Some(OfflineV1(Some(DISCONNECTION), None, None, None))))])
  {
    hide ReceiverAfter, Real, Welcome, Decision, Offers, Agreed, ReceiverStory, ReceiverStarts;
    ReceiverStartsWell(cfg);
    ReceiverStoryHolds(cfg, ReceiverStarts(), turns);
    ReceiverStoryMeans(cfg, ReceiverAfter(cfg, ReceiverStarts(), turns));
  }

  lemma ReceiverStartsWell(cfg: Config)
    ensures ReceiverStory(cfg, ReceiverStarts())
  {
  }

  lemma AgreedMeans(cfg: Config, heard: seq<Heard>)
    requires Agreed(cfg, heard)
    ensures cfg.accept && exists introduction :: Offers(heard, introduction)
  {
  }

  lemma ReceiverStoryMeans(cfg: Config, run: ReceiverRun)
    requires ReceiverStory(cfg, run)
    ensures var said, phase, hello := Real(run.said), run.receiver.phase, Welcome(cfg);
            var offered := exists introduction :: Offers(run.heard, introduction);
            && (DiskOf(cfg, run.receiver) == cfg.disk || (cfg.accept && offered))
            && (said <= hello || (offered && hello + Decision(cfg) <= said))
            && (phase.Consent? ==> Offers(run.heard, phase.introduction))
            && (phase.Receiving? || phase.AllReceived? || phase.Closed? ==> Agreed(cfg, run.heard))
            && (phase.Closed? ==>
                  said == hello + Decision(cfg) + [Secure(OfflineFrame(Some(OfflineV1(Some(DISCONNECTION), None, None, None))))])
  {
    hide Real, Welcome, Decision, Offers, Agreed, Opened, IsOfType;
    WelcomeShape(cfg);
    if Agreed(cfg, run.heard) {
      AgreedMeans(cfg, run.heard);
    }
  }
}
