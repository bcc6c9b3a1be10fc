/** What a session can do it can also do over the network of `NetworkSession`, as long as the counters last. */
module NetworkRuns {
  import opened Prelude
  import opened WireMessages
  import opened Assembler
  import opened Transfers
  import opened SecureChannels
  import opened Session
  import opened SessionInvariant
  import opened SessionTheorems
  import opened SessionRuns
  import opened NetworkSession

  ghost predicate SealedIn(wire: set<Packet>, keys: SessionKeys, sent: seq<OfflineFrame>, i: nat) {
    exists p :: p in wire && SealOf(p, keys, sent, i)
  }

  ghost predicate AllSealedIn(wire: set<Packet>, keys: SessionKeys, sent: seq<OfflineFrame>) {
    forall i: nat :: i < |sent| ==> SealedIn(wire, keys, sent, i)
  }

  /** Every frame sent can still be delivered. */
  ghost predicate OnTheWire(net: Network) {
    AllSealedIn(net.wire, net.a.keys, net.sentA) && AllSealedIn(net.wire, net.b.keys, net.sentB)
  }

  /** Nothing is left to write. */
  ghost predicate Idle(cfg: Config, h: Wired) {
    && WiredOk(cfg, h) && OnTheWire(h.net) && h.toReceiver.out == [] && h.toSender.out == []
    && !h.toReceiver.cut && !h.toSender.cut
  }

  /** The system has written everything and looks like the session. */
  ghost predicate Follows(cfg: Config, h: Wired, st: State) {
    Idle(cfg, h) && Seen(h) == st.(faulty := true)
  }

  // ------------------------------------------------------------------
  // Putting moves together

  /** `moves` lead from `h` to `end`. */
  ghost predicate Goes(cfg: Config, h: Wired, moves: seq<Move>, end: Wired) {
    CanGo(cfg, h, moves) && End(cfg, h, moves) == end
  }

  lemma {:induction false} GoesOn(cfg: Config, h: Wired, a: seq<Move>, mid: Wired, b: seq<Move>, end: Wired)
    requires Goes(cfg, h, a, mid) && Goes(cfg, mid, b, end)
    ensures Goes(cfg, h, a + b, end)
    decreases |a|
  {
    hide CanMove, Step;
    if a == [] {
      assert a + b == b;
    } else {
      assert (a + b)[0] == a[0] && (a + b)[1..] == a[1..] + b;
      GoesOn(cfg, Step(cfg, h, a[0]), a[1..], mid, b, end);
    }
  }

  lemma GoesOne(cfg: Config, h: Wired, move: Move)
    requires CanMove(cfg, h, move)
    ensures Goes(cfg, h, [move], Step(cfg, h, move))
  {
    hide CanMove, Step;
    var next := Step(cfg, h, move);
    assert [move][0] == move && [move][1..] == [];
    assert CanGo(cfg, next, []) && End(cfg, next, []) == next;
  }

  // ------------------------------------------------------------------
  // Writing everything

  const IV: bytes := seq(16, _ => 0)

  lemma MoreOnTheWire(wire: set<Packet>, more: set<Packet>, keys: SessionKeys, sent: seq<OfflineFrame>)
    requires AllSealedIn(wire, keys, sent) && wire <= more
    ensures AllSealedIn(more, keys, sent)
  {
    forall i: nat | i < |sent|
      ensures SealedIn(more, keys, sent, i)
    {
      assert SealedIn(wire, keys, sent, i);
    }
  }

  lemma OneMoreSealed(wire: set<Packet>, keys: SessionKeys, sent: seq<OfflineFrame>, frame: OfflineFrame, p: Packet)
    requires AllSealedIn(wire, keys, sent) && p == Seal(keys, frame, |sent| + 1, IV)
    ensures AllSealedIn(wire + {p}, keys, sent + [frame])
  {
    var more := sent + [frame];
    forall i: nat | i < |more|
      ensures SealedIn(wire + {p}, keys, more, i)
    {
      if i < |sent| {
        assert SealedIn(wire, keys, sent, i);
        var q :| q in wire && SealOf(q, keys, sent, i);
        assert q in wire + {p} && SealOf(q, keys, more, i);
      } else {
        assert p in wire + {p} && SealOf(p, keys, more, i);
      }
    }
  }

  lemma OneMoreOfA(net: Network, frame: OfflineFrame)
    requires ChannelInvariant(net) && OnTheWire(net) && net.a.sendSequence < MAX_I32
    ensures var next := Apply(net, SendA(frame, IV));
            && Encrypt(net.a, frame, IV).1.Ok? && OnTheWire(next)
            && next.sentA == net.sentA + [frame] && next.sentB == net.sentB
            && next.acceptedA == net.acceptedA && next.acceptedB == net.acceptedB
            && next.a.sendSequence == net.a.sendSequence + 1 && next.b == net.b
  {
    var p := Seal(net.a.keys, frame, |net.sentA| + 1, IV);
    assert net.a.sendSequence == |net.sentA|;
    OneMoreSealed(net.wire, net.a.keys, net.sentA, frame, p);
    MoreOnTheWire(net.wire, net.wire + {p}, net.b.keys, net.sentB);
    hide ChannelInvariant, AllSealedIn, Seal;
  }

  lemma OneMoreOfB(net: Network, frame: OfflineFrame)
    requires ChannelInvariant(net) && OnTheWire(net) && net.b.sendSequence < MAX_I32
    ensures var next := Apply(net, SendB(frame, IV));
            && Encrypt(net.b, frame, IV).1.Ok? && OnTheWire(next)
            && next.sentB == net.sentB + [frame] && next.sentA == net.sentA
            && next.acceptedA == net.acceptedA && next.acceptedB == net.acceptedB
            && next.b.sendSequence == net.b.sendSequence + 1 && next.a == net.a
  {
    SwapIsOk(net);
    OneMoreOfA(Swap(net), frame);
    hide ChannelInvariant, AllSealedIn;
    assert Apply(net, SendB(frame, IV)) == Swap(Apply(Swap(net), SendA(frame, IV)));
  }

  lemma SwapIsOk(net: Network)
    requires ChannelInvariant(net) && OnTheWire(net)
    ensures ChannelInvariant(Swap(net)) && OnTheWire(Swap(net))
  {
    hide AllSealedIn;
  }

  /** The sender writes its next message. */
  lemma SenderWritesNext(cfg: Config, h: Wired)
    requires Proper(cfg) && WiredOk(cfg, h) && OnTheWire(h.net) && h.toReceiver.out != [] && h.net.a.sendSequence < MAX_I32
    ensures CanMove(cfg, h, SenderWrites(IV))
    ensures var next := Step(cfg, h, SenderWrites(IV));
            && WiredOk(cfg, next) && OnTheWire(next.net) && Seen(next) == Seen(h)
            && next.toReceiver.out == h.toReceiver.out[1..] && next.toSender == h.toSender
            && next.net.a.sendSequence <= h.net.a.sendSequence + 1 && next.net.b == h.net.b
  {
    hide ChannelInvariant, SessionOk, Encrypt, QueueOf, OnTheWire, LineOk, Apply, ReceiverLineOk, Proper;
    var line := h.toReceiver;
    assert Step(cfg, h, SenderWrites(IV)) == SenderWritesOne(h, IV);
    SenderWritesKeeps(cfg, h, IV);
    if !line.out[0].Secure? {
      WritesPlain(line, h.net.sentA, h.net.acceptedB);
    } else {
      OneMoreOfA(h.net, line.out[0].frame);
      PrefixOfSent(h.net);
      WritesSecure(line, h.net.sentA, h.net.acceptedB);
    }
  }

  lemma ReceiverWritesNext(cfg: Config, h: Wired)
    requires Proper(cfg) && WiredOk(cfg, h) && OnTheWire(h.net) && h.toSender.out != [] && h.net.b.sendSequence < MAX_I32
    ensures CanMove(cfg, h, ReceiverWrites(IV))
    ensures var next := Step(cfg, h, ReceiverWrites(IV));
            && WiredOk(cfg, next) && OnTheWire(next.net) && Seen(next) == Seen(h)
            && next.toSender.out == h.toSender.out[1..] && next.toReceiver == h.toReceiver
            && next.net.b.sendSequence <= h.net.b.sendSequence + 1 && next.net.a == h.net.a
  {
    hide ChannelInvariant, SessionOk, Encrypt, QueueOf, OnTheWire, LineOk, Apply, SenderLineOk, Proper;
    var line := h.toSender;
    assert Step(cfg, h, ReceiverWrites(IV)) == ReceiverWritesOne(cfg, h, IV);
    ReceiverWritesKeeps(cfg, h, IV);
    if !line.out[0].Secure? {
      WritesPlain(line, h.net.sentB, h.net.acceptedA);
    } else {
      OneMoreOfB(h.net, line.out[0].frame);
      PrefixOfSent(h.net);
      WritesSecure(line, h.net.sentB, h.net.acceptedA);
    }
  }

  /** Both outboxes are written, the one that is not empty message by message. */
  lemma {:induction false} WriteAll(cfg: Config, h: Wired) returns (moves: seq<Move>, end: Wired)
    requires Proper(cfg) && WiredOk(cfg, h) && OnTheWire(h.net)
    requires h.net.a.sendSequence + |h.toReceiver.out| <= MAX_I32 && h.net.b.sendSequence + |h.toSender.out| <= MAX_I32
    ensures Goes(cfg, h, moves, end) && WiredOk(cfg, end) && OnTheWire(end.net) && Seen(end) == Seen(h)
    ensures end.toReceiver.out == [] && end.toSender.out == []
    ensures end.net.a.sendSequence <= h.net.a.sendSequence + |h.toReceiver.out|
    ensures end.net.b.sendSequence <= h.net.b.sendSequence + |h.toSender.out|
    decreases |h.toReceiver.out| + |h.toSender.out|
  {
    hide WiredOk, OnTheWire, Seen, Step, CanMove, Proper;
    if h.toReceiver.out == [] && h.toSender.out == [] {
      moves, end := [], h;
    } else {
      var move := if h.toReceiver.out != [] then SenderWrites(IV) else ReceiverWrites(IV);
      if h.toReceiver.out != [] {
        SenderWritesNext(cfg, h);
      } else {
        ReceiverWritesNext(cfg, h);
      }
      GoesOne(cfg, h, move);
      var next := Step(cfg, h, move);
      var rest;
      rest, end := WriteAll(cfg, next);
      GoesOn(cfg, h, [move], next, rest, end);
      moves := [move] + rest;
    }
  }

  // ------------------------------------------------------------------
  // One event of a session

  lemma FaultyOnlyCounts(cfg: Config, st: State, event: Event)
    requires !IsFault(event)
    ensures Enabled(cfg, st.(faulty := true), event) == Enabled(cfg, st, event)
    ensures Next(cfg, st.(faulty := true), event) == Next(cfg, st, event).(faulty := true)
  {
    hide SenderMoves, SenderReads, ReceiverReads, ReceiverDecides, ReceiverWaits, Put, SenderCanMove, SenderReady, Fail, SenderAtEof;
  }

  /** At most three messages are written at a time. */
  lemma SenderFew(cfg: Config, s: Sender, m: Message)
    ensures |SenderMoves(cfg, s).out| <= 3 && |SenderReads(cfg, s, m).out| <= 3
  {
    hide Plan, ReadSharing, SharingMessages;
    FewReplies(m);
    ReadsReply(cfg.codec, false, s.buffers, m);
    hide Replies;
  }

  lemma FewReplies(m: Message)
    ensures m.Secure? ==> |Replies(m.frame)| <= 1
  {
  }

  lemma ReadsReply(codec: SharingCodec, receiver: bool, buffers: Buffers, m: Message)
    ensures var read := ReadSharing(codec, receiver, buffers, m);
            read.More? ==> |read.replies| <= 1
  {
    hide PushChunk;
  }

  lemma ReceiverFew(cfg: Config, r: Receiver, m: Message, keepAlive: bool)
    ensures |ReceiverReads(cfg, r, m).out| <= 3 && |ReceiverDecides(cfg, r).out| <= 3
    ensures r.phase.Consent? && r.phase.polls > 0 ==>
              |ReceiverWaits(cfg, r, keepAlive, Some(m)).out| <= 3 && |ReceiverWaits(cfg, r, keepAlive, None).out| <= 3
  {
    hide ReadSharing, SharingMessages, Handle, Prepare, Finished, OfferOk;
    FewReplies(m);
    ReadsReply(cfg.codec, true, r.buffers, m);
    hide Replies;
  }

  /** The next packet can be delivered to the receiver. */
  lemma PacketForReceiver(cfg: Config, h: Wired) returns (p: Packet)
    requires WiredOk(cfg, h) && OnTheWire(h.net) && h.toReceiver.out == [] && Seen(h).toReceiver.messages != []
    requires h.receiver.read >= 4
    ensures Possible(h.net, DeliverB(p)) && Decrypt(h.net.b, p).1.Ok?
  {
    hide SessionOk, Decrypt, SealOf, Mirrored;
    SeenQueues(cfg, h);
    NoPlainLeft(cfg, true, h.toReceiver, h.net.sentA, h.net.acceptedB, h.receiver.read, h.sender.sent);
    assert SealedIn(h.net.wire, h.net.a.keys, h.net.sentA, |h.net.acceptedB|);
    p :| p in h.net.wire && SealOf(p, h.net.a.keys, h.net.sentA, |h.net.acceptedB|);
    AcceptedIsNextSent(h.net, p);
  }

  lemma PacketForSender(cfg: Config, h: Wired) returns (p: Packet)
    requires WiredOk(cfg, h) && OnTheWire(h.net) && h.toSender.out == [] && Seen(h).toSender.messages != []
    requires h.sender.read >= 2
    ensures Possible(h.net, DeliverA(p)) && Decrypt(h.net.a, p).1.Ok?
  {
    hide SessionOk, Decrypt, SealOf;
    SeenQueues(cfg, h);
    NoPlainLeft(cfg, false, h.toSender, h.net.sentB, h.net.acceptedA, h.sender.read, h.receiver.sent);
    assert SealedIn(h.net.wire, h.net.b.keys, h.net.sentB, |h.net.acceptedA|);
    p :| p in h.net.wire && SealOf(p, h.net.b.keys, h.net.sentB, |h.net.acceptedA|);
    SwapKeeps(h.net, p);
    AcceptedIsNextSent(Swap(h.net), p);
  }

  lemma PlainCounts(cfg: Config, s: Sender, r: Receiver)
    requires SenderOk(cfg, s) && ReceiverOk(cfg, r)
    ensures PlainAtReceiver(r) ==> r.read < 4
    ensures PlainAtSender(s) ==> s.read < 2 && s.sent <= 4
  {
    hide Plan, SentFiles, OnTheWay, AllCommitted, Deliverable;
  }

  lemma PlainAt(cfg: Config, i: nat)
    ensures i < 4 ==> !At(cfg, true, i).Secure?
    ensures i < 2 ==> !At(cfg, false, i).Secure?
  {
    hide FromSender, FromReceiver, SentFiles;
  }

  /** What a side that waits for messages in the clear finds is in the clear. */
  lemma PlainAwaitsReceiver(cfg: Config, h: Wired)
    requires Proper(cfg) && WiredOk(cfg, h) && PlainAtReceiver(h.receiver)
    requires h.toReceiver.out == [] && Seen(h).toReceiver.messages != []
    ensures h.toReceiver.plain != []
  {
    SeenQueues(cfg, h);
    PlainCounts(cfg, h.sender, h.receiver);
    PlainAt(cfg, h.receiver.read);
    hide Proper, SenderOk, ReceiverOk, QueueOk, At, OnlyAcks, ChannelInvariant, LineOk;
    RestOk(cfg, true, Seen(h).toReceiver, h.receiver.read, h.sender.sent);
    assert !Seen(h).toReceiver.messages[0].Secure?;
  }

  lemma PlainAwaitsSender(cfg: Config, h: Wired)
    requires Proper(cfg) && WiredOk(cfg, h) && PlainAtSender(h.sender)
    requires h.toSender.out == [] && Seen(h).toSender.messages != []
    ensures h.toSender.plain != []
  {
    SeenQueues(cfg, h);
    PlainCounts(cfg, h.sender, h.receiver);
    PlainAt(cfg, h.sender.read);
    hide Proper, SenderOk, ReceiverOk, QueueOk, At, OnlyAcks, ChannelInvariant, LineOk;
    ReadBelowSent(cfg, Seen(h));
    RestOk(cfg, false, Seen(h).toSender, h.sender.read, h.receiver.sent);
    assert !Seen(h).toSender.messages[0].Secure?;
  }

  /** The move that makes the event, its messages still to be written. */
  ghost predicate Matches(cfg: Config, h: Wired, move: Move, event: Event) {
    && CanMove(cfg, h, move) && WiredOk(cfg, Step(cfg, h, move)) && Seen(Step(cfg, h, move)) == Next(cfg, Seen(h), event)
    && OnTheWire(Step(cfg, h, move).net)
    && Step(cfg, h, move).net.a.sendSequence == h.net.a.sendSequence
    && Step(cfg, h, move).net.b.sendSequence == h.net.b.sendSequence
    && |Step(cfg, h, move).toReceiver.out| <= 3 && |Step(cfg, h, move).toSender.out| <= 3
  }

  lemma SenderStepMatches(cfg: Config, h: Wired)
    requires Proper(cfg) && Idle(cfg, h) && Enabled(cfg, Seen(h), SenderStep)
    ensures Matches(cfg, h, SenderGoesOn, SenderStep)
  {
    hide SessionOk, ChannelInvariant, Proper, SenderMoves, QueueOf, LineOk, OnTheWire, WiredOk, SenderReads, ReceiverReads;
    assert CanMove(cfg, h, SenderGoesOn) by { hide Plan; }
    SenderGoesOnKeeps(cfg, h);
    SenderFew(cfg, h.sender, ClientInit);
    hide SenderCanMove, ReceiverDecides, ReceiverWaits;
  }

  lemma DecideMatches(cfg: Config, h: Wired)
    requires Proper(cfg) && Idle(cfg, h) && Enabled(cfg, Seen(h), DecideStep)
    ensures Matches(cfg, h, UserDecides, DecideStep)
  {
    hide SessionOk, ChannelInvariant, Proper, ReceiverDecides, QueueOf, LineOk, OnTheWire, WiredOk, Next;
    UserDecidesKeeps(cfg, h);
    ReceiverFew(cfg, h.receiver, ClientInit, false);
  }

  lemma CloseMatches(cfg: Config, h: Wired)
    requires Proper(cfg) && Idle(cfg, h) && Enabled(cfg, Seen(h), CloseStep)
    ensures Matches(cfg, h, ReceiverSaysGoodbye, CloseStep)
  {
    hide SessionOk, ChannelInvariant, Proper, QueueOf, LineOk, OnTheWire, WiredOk, Next;
    GoodbyeKeeps(cfg, h);
  }

  lemma SenderEofMatches(cfg: Config, h: Wired)
    requires Proper(cfg) && Idle(cfg, h) && Enabled(cfg, Seen(h), SenderEof)
    ensures Matches(cfg, h, SenderSeesTheEnd, SenderEof)
  {
    hide SessionOk, ChannelInvariant, Proper, QueueOf, LineOk, OnTheWire, WiredOk, SenderAtEof, SenderReady;
    SenderSeesTheEndKeeps(cfg, h);
  }

  lemma SenderReadMatches(cfg: Config, h: Wired) returns (move: Move)
    requires Proper(cfg) && Idle(cfg, h) && Enabled(cfg, Seen(h), SenderReadStep)
    ensures Matches(cfg, h, move, SenderReadStep)
  {
    hide SessionOk, ChannelInvariant, Proper, QueueOf, LineOk, OnTheWire, WiredOk, Next, SenderReads, SenderReady, Decrypt;
    if PlainAtSender(h.sender) {
      PlainAwaitsSender(cfg, h);
      SenderFew(cfg, h.sender, h.toSender.plain[0]);
      move := SenderTakesPlain;
      SenderTakesPlainKeeps(cfg, h);
    } else {
      SenderHasReadTwo(cfg, h);
      var p := PacketForSender(cfg, h);
      SenderFew(cfg, h.sender, Secure(Decrypt(h.net.a, p).1.value));
      move := SenderTakes(p);
      SenderTakesKeeps(cfg, h, p);
      DeliveringA(h.net, p);
    }
  }

  lemma SenderHasReadTwo(cfg: Config, h: Wired)
    requires WiredOk(cfg, h) && SenderReady(cfg, h.sender) && !PlainAtSender(h.sender)
    ensures h.sender.read >= 2
  {
    SeenQueues(cfg, h);
    SecurePhaseOfSender(cfg, h.sender);
  }

  lemma ReceiverHasReadFour(cfg: Config, h: Wired)
    requires WiredOk(cfg, h) && !ReceiverEnded(h.receiver) && !PlainAtReceiver(h.receiver)
    ensures h.receiver.read >= 4
  {
    SeenQueues(cfg, h);
    SecurePhaseOfReceiver(cfg, h.receiver);
  }

  lemma DeliveringA(net: Network, p: Packet)
    requires OnTheWire(net)
    ensures var next := Apply(net, DeliverA(p));
            OnTheWire(next) && next.a.sendSequence == net.a.sendSequence && next.b == net.b
  {
    hide AllSealedIn;
  }

  lemma DeliveringB(net: Network, p: Packet)
    requires OnTheWire(net)
    ensures var next := Apply(net, DeliverB(p));
            OnTheWire(next) && next.b.sendSequence == net.b.sendSequence && next.a == net.a
  {
    hide AllSealedIn;
  }

  lemma ReceiverReadMatches(cfg: Config, h: Wired) returns (move: Move)
    requires Proper(cfg) && Idle(cfg, h) && Enabled(cfg, Seen(h), ReceiverReadStep)
    ensures Matches(cfg, h, move, ReceiverReadStep)
  {
    hide SessionOk, ChannelInvariant, Proper, QueueOf, LineOk, OnTheWire, WiredOk, Next, ReceiverReads, Decrypt;
    if PlainAtReceiver(h.receiver) {
      PlainAwaitsReceiver(cfg, h);
      ReceiverFew(cfg, h.receiver, h.toReceiver.plain[0], false);
      move := ReceiverTakesPlain;
      ReceiverTakesPlainKeeps(cfg, h);
    } else {
      ReceiverHasReadFour(cfg, h);
      var p := PacketForReceiver(cfg, h);
      ReceiverFew(cfg, h.receiver, Secure(Decrypt(h.net.b, p).1.value), false);
      move := ReceiverTakes(p);
      ReceiverTakesKeeps(cfg, h, p);
      DeliveringB(h.net, p);
    }
  }

  lemma WaitMatches(cfg: Config, h: Wired, keepAlive: bool) returns (move: Move)
    requires Proper(cfg) && Idle(cfg, h) && Enabled(cfg, Seen(h), WaitStep(keepAlive))
    ensures Matches(cfg, h, move, WaitStep(keepAlive))
  {
    hide SessionOk, ChannelInvariant, Proper, QueueOf, LineOk, OnTheWire, WiredOk, ReceiverWaits, Decrypt;
    if Seen(h).toReceiver.messages == [] {
      move := ReceiverTurns(keepAlive, None);
      ReceiverFew(cfg, h.receiver, ClientInit, keepAlive);
      TurnKeeps(cfg, h, keepAlive);
    } else {
      ReceiverHasReadFour(cfg, h);
      var p := PacketForReceiver(cfg, h);
      ReceiverFew(cfg, h.receiver, Secure(Decrypt(h.net.b, p).1.value), keepAlive);
      move := ReceiverTurns(keepAlive, Some(p));
      TurnOnPacketKeeps(cfg, h, keepAlive, p);
      DeliveringB(h.net, p);
      hide Next;
    }
  }

  lemma EventMatches(cfg: Config, h: Wired, event: Event) returns (move: Move)
    requires Proper(cfg) && Idle(cfg, h) && Enabled(cfg, Seen(h), event) && !IsFault(event) && !event.ReceiverEof?
    ensures Matches(cfg, h, move, event)
  {
    hide Matches, Idle, Proper, Enabled;
    match event
    case SenderStep =>
      SenderStepMatches(cfg, h);
      move := SenderGoesOn;
    case SenderReadStep => move := SenderReadMatches(cfg, h);
    case SenderEof =>
      SenderEofMatches(cfg, h);
      move := SenderSeesTheEnd;
    case ReceiverReadStep => move := ReceiverReadMatches(cfg, h);
    case WaitStep(keepAlive) => move := WaitMatches(cfg, h, keepAlive);
    case DecideStep =>
      DecideMatches(cfg, h);
      move := UserDecides;
    case CloseStep =>
      CloseMatches(cfg, h);
      move := ReceiverSaysGoodbye;
  }

  // ------------------------------------------------------------------
  // Whole runs

  lemma FollowsEvent(cfg: Config, h: Wired, st: State, event: Event) returns (moves: seq<Move>, end: Wired)
    requires Proper(cfg) && Follows(cfg, h, st) && SessionOk(cfg, st) && !st.faulty && Enabled(cfg, st, event) && !IsFault(event)
    requires h.net.a.sendSequence + 3 <= MAX_I32 && h.net.b.sendSequence + 3 <= MAX_I32
    ensures Goes(cfg, h, moves, end) && Follows(cfg, end, Next(cfg, st, event))
    ensures end.net.a.sendSequence <= h.net.a.sendSequence + 3 && end.net.b.sendSequence <= h.net.b.sendSequence + 3
  {
    NoEarlyEnd(cfg, st, event);
    FaultyOnlyCounts(cfg, st, event);
    StaysUncut(cfg, st, event);
    hide Proper, SessionOk, Enabled, Next, WiredOk, OnTheWire, Step, CanMove, QueueOf;
    var move := EventMatches(cfg, h, event);
    GoesOne(cfg, h, move);
    var mid := Step(cfg, h, move);
    var rest;
    rest, end := WriteAll(cfg, mid);
    GoesOn(cfg, h, [move], mid, rest, end);
    moves := [move] + rest;
    CutIsSeen(end);
  }

  /** Without a fault the receiver does not see the end. */
  lemma NoEarlyEnd(cfg: Config, st: State, event: Event)
    requires Proper(cfg) && SessionOk(cfg, st) && !st.faulty && Enabled(cfg, st, event)
    ensures !event.ReceiverEof?
  {
    if event.ReceiverEof? {
      ReceiverEofKeeps(cfg, st);
    }
  }

  lemma StaysUncut(cfg: Config, st: State, event: Event)
    requires Proper(cfg) && SessionOk(cfg, st) && !st.faulty && Enabled(cfg, st, event) && !IsFault(event)
    ensures SessionOk(cfg, Next(cfg, st, event)) && !Next(cfg, st, event).faulty
    ensures !Next(cfg, st, event).toReceiver.lost && !Next(cfg, st, event).toSender.lost
  {
    StepKeeps(cfg, st, event);
    OnlyFaultsFault(cfg, st, event);
    hide Proper, Next, Enabled, SenderOk, ReceiverOk, QueueOk, OnlyAcks, NoNoise, Refused;
  }

  lemma CutIsSeen(h: Wired)
    ensures Seen(h).toReceiver.lost == h.toReceiver.cut && Seen(h).toSender.lost == h.toSender.cut
  {
  }

  lemma {:induction false} RunIsFollowed(cfg: Config, h: Wired, st: State, events: seq<Event>) returns (moves: seq<Move>, end: Wired)
    requires Proper(cfg) && Follows(cfg, h, st) && SessionOk(cfg, st) && !st.faulty && CanRun(cfg, st, events) && FaultFree(events)
    requires h.net.a.sendSequence + 3 * |events| <= MAX_I32 && h.net.b.sendSequence + 3 * |events| <= MAX_I32
    ensures Goes(cfg, h, moves, end) && Follows(cfg, end, After(cfg, st, events))
    decreases |events|
  {
    hide Proper, SessionOk, Enabled, Next, Follows, CanMove, Step;
    if events == [] {
      moves, end := [], h;
    } else {
      var first, mid := FollowsEvent(cfg, h, st, events[0]);
      StaysUncut(cfg, st, events[0]);
      var rest;
      rest, end := RunIsFollowed(cfg, mid, Next(cfg, st, events[0]), events[1..]);
      GoesOn(cfg, h, first, mid, rest, end);
      moves := first + rest;
    }
  }

  /** Every run of a session without faults is also one over the network, between the same sides, if the counters last:
      it ends with both sides where the session ends them. */
  lemma SessionsRunOverTheNetwork(cfg: Config, keysA: SessionKeys, keysB: SessionKeys, events: seq<Event>)
    returns (moves: seq<Move>)
    requires Proper(cfg) && Mirrored(keysA, keysB) && CanRun(cfg, Initial(), events) && FaultFree(events)
    requires 3 * |events| <= MAX_I32
    ensures CanGo(cfg, Start(keysA, keysB), moves)
    ensures var h, st := End(cfg, Start(keysA, keysB), moves), After(cfg, Initial(), events);
            h.sender == st.sender && h.receiver == st.receiver
  {
    StartIsOk(cfg, keysA, keysB);
    InitialIsOk(cfg);
    assert Seen(Start(keysA, keysB)) == Initial().(faulty := true);
    hide Proper, SessionOk, CanRun, After, CanGo, End, WiredOk;
    var end;
    moves, end := RunIsFollowed(cfg, Start(keysA, keysB), Initial(), events);
  }

  lemma {:induction false} AllCount(events: seq<Event>)
    requires FaultFree(events)
    ensures NotFaults(events) == |events|
    decreases |events|
  {
    if events != [] {
      AllCount(events[1..]);
    }
  }

  /** So the network does confirm: with the user accepting and the files deliverable there is a run over it in which the
      sender has its confirmation. */
  lemma NetworkConfirms(cfg: Config, keysA: SessionKeys, keysB: SessionKeys) returns (moves: seq<Move>)
    requires Proper(cfg) && Mirrored(keysA, keysB) && cfg.accept && Deliverable(cfg)
    requires 3 * Rank(cfg, Initial()) <= MAX_I32
    ensures CanGo(cfg, Start(keysA, keysB), moves)
    ensures End(cfg, Start(keysA, keysB), moves).sender.phase == Succeeded(true)
  {
    var events := ConfirmationHappens(cfg);
    InitialIsOk(cfg);
    hide Proper, SessionOk, CanRun, After, CanGo, End, Deliverable, Rank;
    RunsAreBounded(cfg, Initial(), events);
    AllCount(events);
    moves := SessionsRunOverTheNetwork(cfg, keysA, keysB, events);
  }
}
