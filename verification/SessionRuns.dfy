/** Runs that do happen, and when the receiver's Disconnection is met too early. */
module SessionRuns {
  import opened WireMessages
  import opened Transfers
  import opened Sending
  import opened Session
  import opened SessionInvariant
  import opened SessionSteps
  import opened SessionTheorems

  // ------------------------------------------------------------------
  // Putting runs together

  lemma {:induction false} RunsJoin(cfg: Config, st: State, a: seq<Event>, b: seq<Event>)
    requires CanRun(cfg, st, a) && CanRun(cfg, After(cfg, st, a), b)
    ensures CanRun(cfg, st, a + b) && After(cfg, st, a + b) == After(cfg, After(cfg, st, a), b)
    decreases |a|
  {
    hide Enabled, Next;
    if a == [] {
      assert a + b == b;
    } else {
      assert (a + b)[0] == a[0] && (a + b)[1..] == a[1..] + b;
      RunsJoin(cfg, Next(cfg, st, a[0]), a[1..], b);
    }
  }

  /** `events` is a fault-free run from `st` to `end`. */
  ghost predicate Leads(cfg: Config, st: State, events: seq<Event>, end: State) {
    FaultFree(events) && CanRun(cfg, st, events) && After(cfg, st, events) == end
  }

  lemma LeadsNowhere(cfg: Config, st: State)
    ensures Leads(cfg, st, [], st)
  {
  }

  lemma LeadsOne(cfg: Config, st: State, event: Event)
    requires Enabled(cfg, st, event) && !IsFault(event)
    ensures Leads(cfg, st, [event], Next(cfg, st, event))
  {
    hide Enabled, Next;
    var next := Next(cfg, st, event);
    assert [event][0] == event && [event][1..] == [];
    assert CanRun(cfg, next, []) && After(cfg, next, []) == next;
    assert CanRun(cfg, st, [event]);
  }

  lemma LeadsOn(cfg: Config, st: State, a: seq<Event>, mid: State, b: seq<Event>, end: State)
    requires Leads(cfg, st, a, mid) && Leads(cfg, mid, b, end)
    ensures Leads(cfg, st, a + b, end)
  {
    RunsJoin(cfg, st, a, b);
    hide CanRun, After;
  }

  // ------------------------------------------------------------------
  // Runs without keep-alives

  /** A fault-free state with no keep-alive under way and both sides at work. */
  ghost predicate Calm(cfg: Config, st: State) {
    && SessionOk(cfg, st) && !st.faulty
    && NoNoise(st.toReceiver.messages) && NoNoise(st.toSender.messages)
  }

  /** Nothing but a waiting receiver starts keep-alives. */
  lemma CalmStep(cfg: Config, st: State, event: Event)
    requires Proper(cfg) && Calm(cfg, st) && Enabled(cfg, st, event) && !IsFault(event) && !event.WaitStep?
    ensures Calm(cfg, Next(cfg, st, event))
  {
    StepKeeps(cfg, st, event);
    OnlyFaultsFault(cfg, st, event);
    hide SessionOk, Proper, SenderMoves, SenderReads, ReceiverReads, ReceiverDecides, ReceiverWaits, Put, NoNoise, Fail, SenderAtEof;
    hide SenderCanMove, SenderReady, ReceiverReady, EofAtSender, EofAtReceiver, SenderMoveOk, ReceiverMoveOk, Replies;
    match event
    case SenderStep =>
      SenderMovesQuiet(cfg, st);
      NoNoisePut(st.toReceiver, SenderMoves(cfg, st.sender).out);
    case SenderReadStep =>
      SenderReadMove(cfg, st);
      NoNoiseRest(st.toSender);
      NoNoisePut(st.toReceiver, SenderReads(cfg, st.sender, st.toSender.messages[0]).out);
    case ReceiverReadStep =>
      ReceiverReadMove(cfg, st);
      NoNoiseRest(st.toReceiver);
      NoNoisePut(st.toSender, ReceiverReads(cfg, st.receiver, st.toReceiver.messages[0]).out);
    case DecideStep =>
      DecidingIsQuiet(cfg, st);
      NoNoisePut(st.toSender, ReceiverDecides(cfg, st.receiver).out);
    case CloseStep =>
      ClosingIsNumbered(cfg);
      NoNoisePut(st.toSender, [Secure(OfFrameType(DISCONNECTION))]);
    case _ =>
  }

  lemma DecidingIsQuiet(cfg: Config, st: State)
    requires Proper(cfg) && SessionOk(cfg, st) && st.receiver.phase.Consent?
    ensures NoNoise(ReceiverDecides(cfg, st.receiver).out)
  {
    hide SenderOk, QueueOk, Proper, FaultFreeOk;
    ReceiverDecidesKeep(cfg, st.receiver);
  }

  /** In a calm state a queue holds exactly the numbered messages not read. */
  lemma CalmQueue(cfg: Config, fromSender: bool, q: Queue, read: nat, sent: nat)
    requires QueueOk(cfg, fromSender, q, read, sent) && NoNoise(q.messages) && !q.lost
    ensures |q.messages| == sent - read
    ensures read < sent ==> q.messages[0] == At(cfg, fromSender, read)
  {
    hide At;
    AllReal(q.messages);
    if read < sent {
      assert q.messages[0] == At(cfg, fromSender, read + 0);
    }
  }

  lemma CalmCounts(cfg: Config, st: State)
    requires Proper(cfg) && Calm(cfg, st)
    ensures |st.toReceiver.messages| == st.sender.sent - st.receiver.read
    ensures |st.toSender.messages| == st.receiver.sent - st.sender.read
    ensures !st.toReceiver.lost && !st.toSender.lost
  {
    hide SenderOk, ReceiverOk, QueueOk, Proper, NoNoise, OnlyAcks;
    CalmQueue(cfg, true, st.toReceiver, st.receiver.read, st.sender.sent);
    CalmQueue(cfg, false, st.toSender, st.sender.read, st.receiver.sent);
  }

  // ------------------------------------------------------------------
  // To the first file

  predicate Greeting(s: Sender) {
    !SenderEnded(s) && !s.phase.SendingFiles? && !s.phase.AwaitClose?
  }

  /** What a greeting sender can become, by any event without a fault. */
  lemma GreetingMoves(cfg: Config, st: State, event: Event)
    requires Greeting(st.sender) && Enabled(cfg, st, event) && !IsFault(event)
    ensures var next := Next(cfg, st, event).sender;
            || Greeting(next) || next.phase == SendingFiles(0, POLL_BUDGET)
            || (next.phase.SenderFailed? && next.phase.cause != LateDisconnection)
  {
    hide ReadSharing, Plan, FromSender, ReceiverReads, ReceiverDecides, ReceiverWaits, Put, Fail, EofAtSender, EofAtReceiver, Replies;
  }

  /** With the user accepting and `prepare` succeeding the sender cannot fail while it has sent no more than ten
      messages, for the receiver has nothing to refuse yet. */
  lemma NoFailureYet(cfg: Config, st: State)
    requires Proper(cfg) && Calm(cfg, st) && cfg.accept && Prepares(cfg) && st.sender.sent <= 10
    ensures !ReceiverEnded(st.receiver) && !st.receiver.phase.AllReceived?
    ensures st.sender.phase.SenderFailed? ==> st.sender.phase.cause == LateDisconnection
  {
    ReadBelowSent(cfg, st);
    FilesAreSent(cfg) by { ShipmentsExist(cfg); }
    hide QueueOk, Proper, SentFiles, Plan, EmittedBefore, Deliverable, Prepares, OnTheWay, AllCommitted, Halfway, NoNoise, OnlyAcks;
  }

  lemma GreetingSent(cfg: Config, s: Sender, next: Sender)
    requires SenderOk(cfg, s) && Greeting(s) && (next.phase.SenderFailed? ==> next.sent == s.sent)
    ensures s.sent <= 10 && (next.phase.SenderFailed? ==> next.sent <= 10)
  {
    hide Plan, SentFiles, EmittedBefore;
  }

  lemma FailingSendsNothing(cfg: Config, st: State, event: Event)
    requires Enabled(cfg, st, event) && !IsFault(event)
    ensures Next(cfg, st, event).sender.phase.SenderFailed? ==> Next(cfg, st, event).sender.sent == st.sender.sent
  {
    hide ReadSharing, Plan, FromSender, ReceiverReads, ReceiverDecides, ReceiverWaits, Put, Fail, EofAtSender, EofAtReceiver, Replies;
  }

  /** The next event on the way to the first file. */
  lemma GreetingStep(cfg: Config, st: State) returns (event: Event)
    requires Proper(cfg) && Calm(cfg, st) && cfg.accept && Prepares(cfg) && Greeting(st.sender)
    ensures !IsFault(event) && Enabled(cfg, st, event) && Calm(cfg, Next(cfg, st, event))
    ensures Greeting(Next(cfg, st, event).sender) || Next(cfg, st, event).sender.phase == SendingFiles(0, POLL_BUDGET)
  {
    hide SenderOk, ReceiverOk, QueueOk, FaultFreeOk, Proper, Prepares, Enabled, Next, SenderEnded, ReceiverEnded, NoNoise, OnlyAcks;
    GreetingIsOn(st);
    event := NeverStuck(cfg, st);
    CalmStep(cfg, st, event);
    GreetingMoves(cfg, st, event);
    FailingSendsNothing(cfg, st, event);
    var next := Next(cfg, st, event);
    GreetingSent(cfg, st.sender, next.sender);
    if next.sender.phase.SenderFailed? {
      NoFailureYet(cfg, next);
    }
  }

  lemma GreetingIsOn(st: State)
    requires Greeting(st.sender)
    ensures !BothEnded(st)
  {
  }

  /** With the user accepting and `prepare` succeeding, the sender comes to its first file. */
  lemma ReachFiles(cfg: Config, st: State) returns (events: seq<Event>, end: State)
    requires Proper(cfg) && Calm(cfg, st) && cfg.accept && Prepares(cfg) && Greeting(st.sender)
    ensures Leads(cfg, st, events, end) && Calm(cfg, end) && end.sender.phase == SendingFiles(0, POLL_BUDGET)
    decreases Rank(cfg, st)
  {
    var event := GreetingStep(cfg, st);
    StepProgress(cfg, st, event);
    var next := Next(cfg, st, event);
    LeadsOne(cfg, st, event);
    hide Leads, Calm, Proper, Next, Rank, Prepares, Greeting, Enabled;
    if next.sender.phase == SendingFiles(0, POLL_BUDGET) {
      events, end := [event], next;
    } else {
      var rest;
      rest, end := ReachFiles(cfg, next);
      LeadsOn(cfg, st, [event], next, rest, end);
      events := [event] + rest;
    }
  }

  lemma AtTheFirstFile(cfg: Config, st: State)
    requires Proper(cfg) && Calm(cfg, st) && cfg.accept && Prepares(cfg) && st.sender.phase == SendingFiles(0, POLL_BUDGET)
    ensures st.receiver.phase.Receiving? && st.toSender.messages == []
  {
    NothingEmitted(cfg);
    CalmCounts(cfg, st);
    ReadBelowSent(cfg, st);
    SentTen(cfg, st.sender) by { hide *; }
    NoFailureYet(cfg, st);
    hide SenderOk, QueueOk, Proper, SentFiles, Plan, EmittedBefore, Deliverable, Prepares, OnTheWay, AllCommitted, Halfway;
    hide NoNoise, OnlyAcks, FaultFreeOk;
  }

  lemma SentTen(cfg: Config, s: Sender)
    requires SenderOk(cfg, s) && s.phase == SendingFiles(0, POLL_BUDGET)
    ensures s.sent == 10 && s.read == 8
  {
    NothingEmitted(cfg);
    hide Plan, SentFiles;
  }

  lemma InitialIsCalm(cfg: Config)
    requires Proper(cfg)
    ensures Calm(cfg, Initial()) && Greeting(Initial().sender)
  {
    InitialIsOk(cfg);
    hide SessionOk, Proper;
  }

  lemma FilesBegin(cfg: Config) returns (events: seq<Event>, end: State)
    requires Proper(cfg) && cfg.accept && Prepares(cfg)
    ensures Leads(cfg, Initial(), events, end) && Calm(cfg, end)
    ensures end.sender.phase == SendingFiles(0, POLL_BUDGET) && end.receiver.phase.Receiving? && end.toSender.messages == []
  {
    hide *;
    InitialIsCalm(cfg);
    events, end := ReachFiles(cfg, Initial());
    AtTheFirstFile(cfg, end);
  }

  // ------------------------------------------------------------------
  // The sender's files, one after the other

  lemma {:induction false} PlanLast(shipments: seq<Shipment>)
    requires shipments != []
    ensures var plan := Plan(shipments);
            |plan| >= 2 && plan[|plan| - 1].Poll? && plan[|plan| - 2].Emit?
    decreases |shipments|
  {
    var frames := FileFrames(shipments[0].file, 0, shipments[0].pieces);
    PolledLast(frames);
    if |shipments| == 1 {
      assert Plan(shipments[1..]) == [];
      assert Plan(shipments) == PolledFrames(frames);
    } else {
      PlanLast(shipments[1..]);
    }
  }

  lemma {:induction false} PolledLast(frames: seq<OfflineFrame>)
    ensures var acts := PolledFrames(frames);
            |acts| >= 1 && acts[|acts| - 1].Poll? && (frames != [] ==> |acts| >= 3 && acts[|acts| - 2].Emit?)
    decreases |frames|
  {
    if frames != [] {
      PolledLast(frames[1..]);
      if frames[1..] == [] {
        assert PolledFrames(frames[1..]) == [Poll];
      }
    }
  }

  lemma {:induction false} EmittedGrows(cfg: Config, m: nat, n: nat)
    requires m <= n <= |Plan(cfg.shipments)|
    ensures EmittedBefore(cfg, m) <= EmittedBefore(cfg, n)
    decreases n - m
  {
    hide Plan, EmittedBefore;
    if m < n {
      PlanStep(cfg, m);
      EmittedGrows(cfg, m + 1, n);
    }
  }

  /** All frames have been sent before the last poll, and not earlier. */
  lemma AllSentAtLastPoll(cfg: Config, position: nat)
    requires cfg.shipments != [] && position < |Plan(cfg.shipments)|
    ensures EmittedBefore(cfg, position) == |SentFiles(cfg)| <==> position == |Plan(cfg.shipments)| - 1
  {
    var n := |Plan(cfg.shipments)|;
    PlanLast(cfg.shipments);
    PlanEnd(cfg);
    PlanStep(cfg, n - 1);
    PlanStep(cfg, n - 2);
    hide Plan, EmittedBefore, SentFiles;
    if position <= n - 2 {
      EmittedGrows(cfg, position, n - 2);
    }
  }

  /** With nothing to read the sender goes on with its plan. */
  lemma SendUpTo(cfg: Config, st: State, goal: nat) returns (events: seq<Event>, end: State)
    requires Proper(cfg) && Calm(cfg, st) && st.receiver.phase.Receiving? && st.toSender.messages == []
    requires st.sender.phase.SendingFiles? && st.sender.phase.position <= goal <= |Plan(cfg.shipments)|
    requires st.sender.phase.budget == POLL_BUDGET
    ensures Leads(cfg, st, events, end) && Calm(cfg, end)
    ensures end.sender.phase == SendingFiles(goal, POLL_BUDGET)
    ensures end.receiver == st.receiver && end.toSender == st.toSender
    decreases goal - st.sender.phase.position
  {
    if st.sender.phase.position == goal {
      LeadsNowhere(cfg, st);
      events, end := [], st;
    } else {
      var next := OneSenderStep(cfg, st);
      var rest;
      hide *;
      rest, end := SendUpTo(cfg, next, goal);
      LeadsOn(cfg, st, [SenderStep], next, rest, end);
      events := [SenderStep] + rest;
    }
  }

  lemma OneSenderStep(cfg: Config, st: State) returns (next: State)
    requires Proper(cfg) && Calm(cfg, st) && st.receiver.phase.Receiving? && st.toSender.messages == []
    requires st.sender.phase.SendingFiles?
    ensures Leads(cfg, st, [SenderStep], next) && Calm(cfg, next)
    ensures next.receiver == st.receiver && next.toSender == st.toSender
    ensures next.sender.phase ==
            if st.sender.phase.position < |Plan(cfg.shipments)| then SendingFiles(st.sender.phase.position + 1, POLL_BUDGET)
            else AwaitClose
  {
    hide Plan, Calm, Proper, Leads;
    assert Enabled(cfg, st, SenderStep) by { CalmCounts(cfg, st); }
    LeadsOne(cfg, st, SenderStep);
    CalmStep(cfg, st, SenderStep);
    next := Next(cfg, st, SenderStep);
  }

  // ------------------------------------------------------------------
  // The receiver takes the files

  lemma OneReceiverStep(cfg: Config, st: State) returns (next: State)
    requires Proper(cfg) && Calm(cfg, st) && st.receiver.phase.Receiving? && st.toReceiver.messages != []
    ensures Leads(cfg, st, [ReceiverReadStep], next) && Calm(cfg, next)
    ensures next.sender == st.sender && next.toSender == st.toSender && next.toReceiver == Rest(st.toReceiver)
    ensures next.receiver.phase.Receiving? || next.receiver.phase.AllReceived? || next.receiver.phase.ReceiverFailed?
  {
    LeadsOne(cfg, st, ReceiverReadStep);
    CalmStep(cfg, st, ReceiverReadStep);
    next := Next(cfg, st, ReceiverReadStep);
    NothingAnswered(cfg, st.receiver, st.toReceiver.messages[0]);
    CalmCounts(cfg, st);
    hide SessionOk, Proper, Leads, ReceiverReads;
    assert st.toSender.messages + [] == st.toSender.messages;
  }

  lemma NothingAnswered(cfg: Config, r: Receiver, m: Message)
    requires r.phase.Receiving? && !IsNoise(m)
    ensures var move := ReceiverReads(cfg, r, m);
            && move.out == []
            && (move.receiver.phase.Receiving? || move.receiver.phase.AllReceived? || move.receiver.phase.ReceiverFailed?)
  {
    hide Handle, CleanupParts, Finished;
  }

  /** Where the files go is where they can go. */
  lemma ReceivedOrRefused(cfg: Config, st: State)
    requires Proper(cfg) && Calm(cfg, st) && cfg.accept
    ensures st.receiver.phase.AllReceived? ==> Deliverable(cfg)
    ensures st.receiver.phase.ReceiverFailed? ==> !Deliverable(cfg)
  {
    hide SenderOk, QueueOk, Proper, Deliverable, OnTheWay, AllCommitted, Halfway, SentFiles, NoNoise, OnlyAcks;
  }

  lemma ReceivingHasRoom(cfg: Config, r: Receiver)
    requires Proper(cfg) && ReceiverOk(cfg, r) && Prepares(cfg) && r.phase.Receiving?
    ensures r.read <= 10 + |SentFiles(cfg)| && (Deliverable(cfg) ==> r.read < 10 + |SentFiles(cfg)|)
  {
    hide Proper, Deliverable, OnTheWay, SentFiles, Prepares;
    if r.read == 10 + |SentFiles(cfg)| {
      NothingMoreComes(cfg, r.phase.world);
    }
  }

  lemma StillToRead(cfg: Config, st: State)
    requires Proper(cfg) && Calm(cfg, st) && cfg.accept && Prepares(cfg) && st.receiver.phase.Receiving?
    requires st.sender.sent >= 10 + |SentFiles(cfg)| + if Deliverable(cfg) then 0 else 1
    ensures st.toReceiver.messages != []
  {
    CalmCounts(cfg, st);
    hide SenderOk, ReceiverOk, QueueOk, Proper, Deliverable, SentFiles, NoNoise, OnlyAcks, Prepares, FaultFreeOk;
    ReceivingHasRoom(cfg, st.receiver);
  }

  /** With everything sent, the receiver reads until it has every file or has to refuse. */
  lemma ReadAllFiles(cfg: Config, st: State) returns (events: seq<Event>, end: State)
    requires Proper(cfg) && Calm(cfg, st) && cfg.accept && Prepares(cfg) && st.receiver.phase.Receiving?
    requires st.sender.sent >= 10 + |SentFiles(cfg)| + if Deliverable(cfg) then 0 else 1
    ensures Leads(cfg, st, events, end) && Calm(cfg, end)
    ensures end.sender == st.sender && end.toSender == st.toSender
    ensures if Deliverable(cfg) then end.receiver.phase.AllReceived? else end.receiver.phase.ReceiverFailed?
    decreases |st.toReceiver.messages|
  {
    StillToRead(cfg, st);
    var next := OneReceiverStep(cfg, st);
    ReceivedOrRefused(cfg, next);
    assert |next.toReceiver.messages| < |st.toReceiver.messages|;
    hide *;
    if next.receiver.phase.Receiving? {
      var rest;
      rest, end := ReadAllFiles(cfg, next);
      LeadsOn(cfg, st, [ReceiverReadStep], next, rest, end);
      events := [ReceiverReadStep] + rest;
    } else {
      events, end := [ReceiverReadStep], next;
    }
  }

  // ------------------------------------------------------------------
  // Every way of ending does happen

  /** All frames of the files have been sent at the last poll. */
  lemma SentAtLastPoll(cfg: Config, st: State)
    requires Proper(cfg) && Calm(cfg, st) && st.sender.phase.SendingFiles? && st.sender.phase.position == |Plan(cfg.shipments)| - 1
    ensures st.sender.sent == 10 + |SentFiles(cfg)| && Plan(cfg.shipments)[st.sender.phase.position].Poll?
  {
    ShipmentsExist(cfg);
    AllSentAtLastPoll(cfg, st.sender.phase.position);
    PlanLast(cfg.shipments);
    hide Plan, EmittedBefore, SentFiles, Proper, ReceiverOk, QueueOk;
  }

  lemma SentAtClose(cfg: Config, st: State)
    requires Proper(cfg) && Calm(cfg, st) && st.sender.phase.AwaitClose?
    ensures st.sender.sent == 11 + |SentFiles(cfg)|
  {
    hide Plan, SentFiles, Proper, ReceiverOk, QueueOk;
  }

  lemma ReceiverCloses(cfg: Config, st: State) returns (next: State)
    requires Proper(cfg) && Calm(cfg, st) && st.receiver.phase.AllReceived?
    ensures Leads(cfg, st, [CloseStep], next) && Calm(cfg, next)
    ensures next.sender == st.sender && next.receiver.phase.Closed? && next.toSender.messages != []
  {
    LeadsOne(cfg, st, CloseStep);
    CalmStep(cfg, st, CloseStep);
    next := Next(cfg, st, CloseStep);
    CalmCounts(cfg, st);
    hide SessionOk, Proper, Leads;
  }

  lemma PlanExists(cfg: Config)
    requires Proper(cfg)
    ensures |Plan(cfg.shipments)| >= 2
  {
    ShipmentsExist(cfg);
    PlanLast(cfg.shipments);
  }

  /** The early meeting does happen: every session whose user accepts and whose files can be delivered has a run
      without faults in which everything is committed, the receiver has closed, and the sender fails. */
  lemma LateMeetingHappens(cfg: Config) returns (events: seq<Event>)
    requires Proper(cfg) && cfg.accept && Deliverable(cfg)
    ensures FaultFree(events) && CanRun(cfg, Initial(), events)
    ensures var st := After(cfg, Initial(), events);
            && st.sender.phase == SenderFailed(LateDisconnection)
            && st.receiver.phase.Closed? && AllCommitted(cfg, st.receiver.phase.world)
  {
    assert Prepares(cfg);
    PlanExists(cfg);
    hide Proper, Deliverable, Plan, Calm, AllCommitted, CanRun, After, Prepares, Next, Enabled;
    var e1, st1 := FilesBegin(cfg);
    var e2, st2 := SendUpTo(cfg, st1, |Plan(cfg.shipments)| - 1);
    SentAtLastPoll(cfg, st2);
    var e3, st3 := ReadAllFiles(cfg, st2);
    var st4 := ReceiverCloses(cfg, st3);
    var st5 := MeetsTheClose(cfg, st4);
    LeadsOn(cfg, st3, [CloseStep], st4, [SenderReadStep], st5);
    LeadsOn(cfg, st2, e3, st3, [CloseStep] + [SenderReadStep], st5);
    LeadsOn(cfg, st1, e2, st2, e3 + ([CloseStep] + [SenderReadStep]), st5);
    events := e1 + (e2 + (e3 + ([CloseStep] + [SenderReadStep])));
    LeadsOn(cfg, Initial(), e1, st1, e2 + (e3 + ([CloseStep] + [SenderReadStep])), st5);
    CommitConfirmation(cfg, events);
  }

  lemma ClosedCounts(cfg: Config, st: State)
    requires Proper(cfg) && SessionOk(cfg, st) && st.receiver.phase.Closed?
    requires st.sender.phase.SendingFiles? || st.sender.phase.AwaitClose?
    ensures st.sender.read == 8 && st.receiver.sent == 9
  {
    hide Proper, QueueOk, AllCommitted, Plan, SentFiles, EmittedBefore;
  }

  /** The sender meets the Disconnection of a receiver that has closed: in a poll it fails, and in the closing loop
      it has its confirmation. */
  lemma MeetsTheClose(cfg: Config, st: State) returns (next: State)
    requires Proper(cfg) && Calm(cfg, st) && st.receiver.phase.Closed? && SenderReady(cfg, st.sender)
    requires st.sender.phase.SendingFiles? || st.sender.phase.AwaitClose?
    ensures Leads(cfg, st, [SenderReadStep], next)
    ensures next.sender.phase == if st.sender.phase.SendingFiles? then SenderFailed(LateDisconnection) else Succeeded(true)
  {
    ClosedCounts(cfg, st);
    CalmQueue(cfg, false, st.toSender, st.sender.read, st.receiver.sent);
    SenderReadsClose(cfg, st.sender);
    LeadsOne(cfg, st, SenderReadStep);
    next := Next(cfg, st, SenderReadStep);
    hide Leads, SessionOk, Proper, SenderReads, SenderReady, At, Put;
  }

  /** Everything has been sent and the sender waits for the end. */
  lemma ToTheClose(cfg: Config) returns (events: seq<Event>, end: State)
    requires Proper(cfg) && cfg.accept && Prepares(cfg)
    ensures Leads(cfg, Initial(), events, end) && Calm(cfg, end) && end.sender.phase.AwaitClose?
    ensures end.toSender.messages == []
    ensures if Deliverable(cfg) then end.receiver.phase.AllReceived? else end.receiver.phase.ReceiverFailed?
  {
    hide *;
    var e1, st1 := FilesBegin(cfg);
    var e2, st2 := SendUpTo(cfg, st1, |Plan(cfg.shipments)|);
    var st3 := OneSenderStep(cfg, st2);
    SentAtClose(cfg, st3);
    var e4;
    e4, end := ReadAllFiles(cfg, st3);
    LeadsOn(cfg, st2, [SenderStep], st3, e4, end);
    LeadsOn(cfg, st1, e2, st2, [SenderStep] + e4, end);
    events := e1 + (e2 + ([SenderStep] + e4));
    LeadsOn(cfg, Initial(), e1, st1, e2 + ([SenderStep] + e4), end);
  }

  /** A refusal can look like success: every session whose user accepts, whose `prepare` succeeds and whose files
      cannot be delivered has a run without faults in which the sender succeeds although the receiver has
      refused the files. */
  lemma RefusalLooksLikeSuccess(cfg: Config) returns (events: seq<Event>)
    requires Proper(cfg) && cfg.accept && Prepares(cfg) && !Deliverable(cfg)
    ensures FaultFree(events) && CanRun(cfg, Initial(), events)
    ensures var st := After(cfg, Initial(), events);
            st.sender.phase == Succeeded(false) && Refused(cfg, st.receiver)
  {
    hide Proper, Deliverable, Prepares, Calm, CanRun, After, Refused;
    var e1, st1 := ToTheClose(cfg);
    LeadsOne(cfg, st1, SenderEof);
    var st2 := Next(cfg, st1, SenderEof);
    events := e1 + [SenderEof];
    LeadsOn(cfg, Initial(), e1, st1, [SenderEof], st2);
    UnconfirmedMeansRefused(cfg, events);
  }

  /** Unconfirmed success proves nothing: every session whose user accepts and whose `prepare` succeeds has a run, with
      one lost connection, in which the sender succeeds while the receiver has not read a single frame of the files. */
  lemma SuccessWhileReceiving(cfg: Config) returns (events: seq<Event>)
    requires Proper(cfg) && cfg.accept && Prepares(cfg)
    ensures CanRun(cfg, Initial(), events)
    ensures var st := After(cfg, Initial(), events);
            st.sender.phase == Succeeded(false) && st.receiver.phase.Receiving? && st.receiver.read == 10
  {
    hide *;
    var e1, st1 := FilesBegin(cfg);
    NothingOfTheFilesRead(cfg, st1);
    var e2, st2 := SendUpTo(cfg, st1, |Plan(cfg.shipments)|);
    var st3 := OneSenderStep(cfg, st2);
    var cut := [CutToSender(0), SenderEof];
    UnconfirmedSuccessProvesNothing(cfg, st3);
    LeadsOn(cfg, st1, e2, st2, [SenderStep], st3);
    LeadsOn(cfg, Initial(), e1, st1, e2 + [SenderStep], st3);
    LeadsIsRun(cfg, Initial(), e1 + (e2 + [SenderStep]), st3);
    events := e1 + (e2 + [SenderStep]) + cut;
    RunsJoin(cfg, Initial(), e1 + (e2 + [SenderStep]), cut);
  }

  lemma LeadsIsRun(cfg: Config, st: State, events: seq<Event>, end: State)
    requires Leads(cfg, st, events, end)
    ensures CanRun(cfg, st, events) && After(cfg, st, events) == end
  {
  }

  lemma NothingOfTheFilesRead(cfg: Config, st: State)
    requires Proper(cfg) && Calm(cfg, st) && st.sender.phase == SendingFiles(0, POLL_BUDGET) && st.receiver.phase.Receiving?
    ensures st.receiver.read == 10
  {
    ReadBelowSent(cfg, st);
    SentTen(cfg, st.sender) by { SenderIsOk(cfg, st); }
    hide QueueOk, Proper, SenderOk, OnTheWay, Finished, SentFiles;
  }

  /** And confirmed success happens whenever the files can be delivered. */
  lemma ConfirmationHappens(cfg: Config) returns (events: seq<Event>)
    requires Proper(cfg) && cfg.accept && Deliverable(cfg)
    ensures FaultFree(events) && CanRun(cfg, Initial(), events)
    ensures After(cfg, Initial(), events).sender.phase == Succeeded(true)
  {
    assert Prepares(cfg);
    hide Proper, Deliverable, Prepares, Calm, CanRun, After, Next, Enabled;
    var e1, st1 := ToTheClose(cfg);
    var st2 := ReceiverCloses(cfg, st1);
    var st3 := MeetsTheClose(cfg, st2);
    LeadsOn(cfg, st1, [CloseStep], st2, [SenderReadStep], st3);
    events := e1 + ([CloseStep] + [SenderReadStep]);
    LeadsOn(cfg, Initial(), e1, st1, [CloseStep] + [SenderReadStep], st3);
  }

  // ------------------------------------------------------------------
  // When the meeting is too early

  /** Keep-alives that stand before the first other message. */
  function NoiseBefore(messages: seq<Message>): nat {
    if messages == [] || !IsNoise(messages[0]) then 0 else 1 + NoiseBefore(messages[1..])
  }

  lemma EndedStays(cfg: Config, st: State, event: Event)
    requires Enabled(cfg, st, event) && !IsFault(event)
    ensures SenderEnded(st.sender) ==> Next(cfg, st, event).sender == st.sender
    ensures ReceiverEnded(st.receiver) ==> event in {SenderStep, SenderReadStep, SenderEof} && Next(cfg, st, event).receiver == st.receiver
  {
    hide Plan, SenderMoves, SenderReads, ReceiverReads, ReceiverDecides, ReceiverWaits, EofAtSender, EofAtReceiver, Put;
  }

  /** The sender has left its last poll, or never fails late for another reason. */
  predicate PastThePolls(cfg: Config, s: Sender) {
    || (s.phase.SendingFiles? && s.phase.position >= |Plan(cfg.shipments)|)
    || s.phase.AwaitClose? || s.phase.Succeeded?
    || (s.phase.SenderFailed? && s.phase.cause != LateDisconnection)
  }

  lemma PastStays(cfg: Config, st: State, event: Event)
    requires Enabled(cfg, st, event) && PastThePolls(cfg, st.sender)
    ensures PastThePolls(cfg, Next(cfg, st, event).sender)
  {
    hide Plan, ReceiverReads, ReceiverDecides, ReceiverWaits, EofAtSender, EofAtReceiver, Put, Replies;
  }

  lemma {:induction false} NeverLateAfter(cfg: Config, st: State, events: seq<Event>)
    requires CanRun(cfg, st, events) && PastThePolls(cfg, st.sender)
    ensures After(cfg, st, events).sender.phase != SenderFailed(LateDisconnection)
    decreases |events|
  {
    if events == [] {
      hide Plan;
    } else {
      PastStays(cfg, st, events[0]);
      hide Enabled, Next, PastThePolls;
      NeverLateAfter(cfg, Next(cfg, st, events[0]), events[1..]);
    }
  }

  lemma {:induction false} LateStays(cfg: Config, st: State, events: seq<Event>)
    requires CanRun(cfg, st, events) && FaultFree(events) && st.sender.phase == SenderFailed(LateDisconnection)
    ensures After(cfg, st, events).sender.phase == SenderFailed(LateDisconnection)
    decreases |events|
  {
    hide Enabled, Next;
    if events != [] {
      EndedStays(cfg, st, events[0]);
      LateStays(cfg, Next(cfg, st, events[0]), events[1..]);
    }
  }

  /** The Disconnection is in the queue, after some keep-alives, and the sender is at its last poll or past it. */
  lemma ClosedQueue(cfg: Config, st: State)
    requires Proper(cfg) && SessionOk(cfg, st) && !st.faulty && st.receiver.phase.Closed? && st.sender.phase.SendingFiles?
    ensures st.toSender.messages != []
    ensures !IsNoise(st.toSender.messages[0]) ==> st.toSender.messages[0] == At(cfg, false, st.sender.read)
    ensures st.sender.phase.position < |Plan(cfg.shipments)| ==>
              st.sender.phase.position == |Plan(cfg.shipments)| - 1 && Plan(cfg.shipments)[st.sender.phase.position].Poll?
  {
    ClosedCounts(cfg, st);
    if st.sender.phase.position < |Plan(cfg.shipments)| {
      AtLastPoll(cfg, st);
    }
    hide Plan, SenderOk, ReceiverOk, At, Proper, SentFiles;
    if st.toSender.messages == [] {
      EmptyQueueIsEven(cfg, false, st.toSender, st.sender.read, st.receiver.sent);
    } else {
      RestOk(cfg, false, st.toSender, st.sender.read, st.receiver.sent);
    }
  }

  lemma AtLastPoll(cfg: Config, st: State)
    requires Proper(cfg) && SessionOk(cfg, st) && st.receiver.phase.Closed? && st.sender.phase.SendingFiles?
    requires st.sender.phase.position < |Plan(cfg.shipments)|
    ensures st.sender.phase.position == |Plan(cfg.shipments)| - 1 && Plan(cfg.shipments)[st.sender.phase.position].Poll?
  {
    ShipmentsExist(cfg);
    AllSentAtLastPoll(cfg, st.sender.phase.position);
    EmittedBound(cfg, st.sender.phase.position);
    PlanLast(cfg.shipments);
    ReadBelowSent(cfg, st);
    hide Plan, EmittedBefore, SentFiles, Proper, QueueOk, AllCommitted;
  }

  /** When the meeting is too early. The receiver has closed while the sender is still at its files: however a
      run without faults goes on from here, once the sender has ended it has failed exactly when it is still in
      its last poll and fewer keep-alives stand before the Disconnection than the poll has turns left. */
  lemma {:induction false} LateIff(cfg: Config, st: State, events: seq<Event>)
    requires Proper(cfg) && SessionOk(cfg, st) && !st.faulty && st.receiver.phase.Closed? && st.sender.phase.SendingFiles?
    requires CanRun(cfg, st, events) && FaultFree(events) && SenderEnded(After(cfg, st, events).sender)
    ensures After(cfg, st, events).sender.phase == SenderFailed(LateDisconnection) <==>
            st.sender.phase.position < |Plan(cfg.shipments)| && NoiseBefore(st.toSender.messages) < st.sender.phase.budget
    decreases |events|
  {
    if st.sender.phase.position >= |Plan(cfg.shipments)| {
      hide Plan;
      NeverLateAfter(cfg, st, events);
    } else {
      ClosedQueue(cfg, st);
      var next := Next(cfg, st, events[0]);
      LatePollStep(cfg, st, events[0]);
      StepKeeps(cfg, st, events[0]);
      hide Enabled, Next, SessionOk, Proper, Plan, PastThePolls;
      if next.sender.phase == SenderFailed(LateDisconnection) {
        LateStays(cfg, next, events[1..]);
      } else if PastThePolls(cfg, next.sender) {
        NeverLateAfter(cfg, next, events[1..]);
      } else {
        LateIff(cfg, next, events[1..]);
      }
    }
  }

  /** One step at the last poll: a keep-alive is answered, the Disconnection fails the sender, or the budget is
      used up. */
  lemma LatePollStep(cfg: Config, st: State, event: Event)
    requires Proper(cfg) && SessionOk(cfg, st) && !st.faulty && st.receiver.phase.Closed? && st.sender.phase.SendingFiles?
    requires st.sender.phase.position < |Plan(cfg.shipments)| && Enabled(cfg, st, event) && !IsFault(event)
    ensures var next, before, budget := Next(cfg, st, event), NoiseBefore(st.toSender.messages), st.sender.phase.budget;
            && next.receiver == st.receiver && next.faulty == st.faulty
            && if before == 0 && budget > 0 then next.sender.phase == SenderFailed(LateDisconnection)
               else if budget == 0 then PastThePolls(cfg, next.sender)
               else
                 && next.sender.phase == st.sender.phase.(budget := budget - 1)
                 && NoiseBefore(next.toSender.messages) == before - 1
  {
    ClosedQueue(cfg, st);
    ClosedEvents(cfg, st, event);
    OnlyFaultsFault(cfg, st, event);
    hide *;
    if event == SenderReadStep {
      LatePollReads(cfg, st);
    } else {
      LatePollEnds(cfg, st);
    }
  }

  lemma ClosedEvents(cfg: Config, st: State, event: Event)
    requires st.receiver.phase.Closed? && st.sender.phase.SendingFiles? && st.toSender.messages != []
    requires Enabled(cfg, st, event) && !IsFault(event)
    ensures event == SenderStep || event == SenderReadStep
    ensures Next(cfg, st, event).receiver == st.receiver
  {
    hide Plan, Put, SenderMoves, SenderReads;
  }

  lemma LatePollEnds(cfg: Config, st: State)
    requires st.sender.phase.SendingFiles? && st.sender.phase.position == |Plan(cfg.shipments)| - 1
    requires Plan(cfg.shipments)[st.sender.phase.position].Poll? && st.toSender.messages != [] && Enabled(cfg, st, SenderStep)
    ensures st.sender.phase.budget == 0 && PastThePolls(cfg, Next(cfg, st, SenderStep).sender)
  {
    hide Plan, Put;
  }

  lemma LatePollReads(cfg: Config, st: State)
    requires Proper(cfg) && SessionOk(cfg, st) && st.receiver.phase.Closed? && st.sender.phase.SendingFiles?
    requires Enabled(cfg, st, SenderReadStep)
    requires !IsNoise(st.toSender.messages[0]) ==> st.toSender.messages[0] == At(cfg, false, st.sender.read)
    ensures var next, before, budget := Next(cfg, st, SenderReadStep), NoiseBefore(st.toSender.messages), st.sender.phase.budget;
            && budget > 0
            && if before == 0 then next.sender.phase == SenderFailed(LateDisconnection)
               else next.sender.phase == st.sender.phase.(budget := budget - 1) && NoiseBefore(next.toSender.messages) == before - 1
  {
    hide SessionOk, SenderOk, SenderReads, SenderReady, Proper, At, Put, IsNoise, SenderMoves, SenderMoveOk, EofAtSender, SenderAtEof;
    hide ReceiverReads, ReceiverDecides, ReceiverWaits, Fail, EofAtReceiver, SenderCanMove;
    PollHasTurns(cfg, st.sender);
    SenderIsOk(cfg, st);
    if IsNoise(st.toSender.messages[0]) {
      PollOfNoise(cfg, st.sender, st.toSender.messages[0]);
    } else {
      SenderReadsClose(cfg, st.sender);
    }
  }

  lemma PollHasTurns(cfg: Config, s: Sender)
    requires SenderReady(cfg, s) && s.phase.SendingFiles?
    ensures s.phase.budget > 0
  {
    hide Plan;
  }

  lemma SenderIsOk(cfg: Config, st: State)
    requires Proper(cfg) && SessionOk(cfg, st)
    ensures SenderOk(cfg, st.sender)
  {
  }

  lemma PollOfNoise(cfg: Config, s: Sender, m: Message)
    requires SenderReady(cfg, s) && s.phase.SendingFiles? && IsNoise(m)
    ensures SenderReads(cfg, s, m).sender.phase == s.phase.(budget := s.phase.budget - 1)
  {
    hide Plan;
  }
}
