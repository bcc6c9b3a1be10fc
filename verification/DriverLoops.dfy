/** The reading loops of the two drivers as they are written: `read_next_sharing_frame`
    (src/quick_share_receiver.rs:615-661, src/quick_share_sender.rs:816-857), the closing loop of
    `finalize_transfer` (src/quick_share_sender.rs:551-619) and `acknowledge_pending_peer_frames`
    (src/quick_share_sender.rs:655-713). Each is proved to be the repetition of the one-message step that the
    machines of `Session` take. */
module DriverLoops {
  import opened Prelude
  import opened WireMessages
  import opened Assembler
  import opened Transfers
  import opened Session

  /** A decrypted connection: the messages that will arrive before it ends, and those sent. */
  class Line {
    var inbound: seq<Message>
    var outbound: seq<Message>

    constructor (inbound: seq<Message>)
      ensures this.inbound == inbound && outbound == []
    {
      this.inbound, outbound := inbound, [];
    }

    method Send(messages: seq<Message>)
      modifies this`outbound
      ensures outbound == old(outbound) + messages
    {
      outbound := outbound + messages;
    }
  }

  // ------------------------------------------------------------------
  // Sharing frames

  datatype SharingOutcome = SharingOutcome(result: Result<SharingFrame, ReceiveError>, rest: seq<Message>, replies: seq<Message>)

  function ReadUntil(codec: SharingCodec, receiver: bool, buffers: Buffers, messages: seq<Message>): SharingOutcome
    decreases |messages|
  {
    if messages == [] then SharingOutcome(Err(WireFraming), [], [])
    else
      match ReadSharing(codec, receiver, buffers, messages[0])
      case Failed(e) => SharingOutcome(Err(e), messages[1..], [])
      case Complete(_, frame) => SharingOutcome(Ok(frame), messages[1..], [])
      case More(next, replies) =>
        var later := ReadUntil(codec, receiver, next, messages[1..]);
        later.(replies := SecureAll(replies) + later.replies)
  }

  lemma MoreStep(codec: SharingCodec, receiver: bool, buffers: Buffers, messages: seq<Message>, sent: seq<Message>)
    requires messages != [] && ReadSharing(codec, receiver, buffers, messages[0]).More?
    ensures var step := ReadSharing(codec, receiver, buffers, messages[0]);
            var now, later := ReadUntil(codec, receiver, buffers, messages), ReadUntil(codec, receiver, step.buffers, messages[1..]);
            && now.result == later.result && now.rest == later.rest
            && sent + now.replies == sent + SecureAll(step.replies) + later.replies
  {
    hide ReadSharing, SecureAll;
    var step := ReadSharing(codec, receiver, buffers, messages[0]);
    var later := ReadUntil(codec, receiver, step.buffers, messages[1..]);
    assert ReadUntil(codec, receiver, buffers, messages) == later.(replies := SecureAll(step.replies) + later.replies);
    hide ReadUntil;
  }

  /** The receiver's loop, with its stricter assembler. */
  method ReceiverReadsSharing(codec: SharingCodec, line: Line, assembler: ReceiverAssembler) returns (r: Result<SharingFrame, ReceiveError>)
    modifies line, assembler
    ensures var out := ReadUntil(codec, true, old(assembler.buffers), old(line.inbound));
            r == out.result && line.inbound == out.rest && line.outbound == old(line.outbound) + out.replies
  {
    hide PushChunk, SecureAll;
    ghost var out := ReadUntil(codec, true, assembler.buffers, line.inbound);
    while line.inbound != []
      invariant var later := ReadUntil(codec, true, assembler.buffers, line.inbound);
                && out.result == later.result && out.rest == later.rest
                && old(line.outbound) + out.replies == line.outbound + later.replies
      decreases |line.inbound|
    {
      var m := line.inbound[0];
      ghost var before, buffers, sent := line.inbound, assembler.buffers, line.outbound;
      line.inbound := line.inbound[1..];
      if !m.Secure? {
        return Err(Crypto);
      }
      if m.frame.v1.None? {
        return Err(Protocol);
      }
      if IsKeepAlive(m.frame) {
        line.Send(SecureAll(Replies(m.frame)));
      } else if IsPayload(m.frame) {
        if m.frame.v1.value.payloadTransfer.None? {
          return Err(Protocol);
        }
        var t := m.frame.v1.value.payloadTransfer.value;
        if t.header.Some? && t.header.value.payloadType == Some(PAYLOAD_BYTES) {
          var pushed := assembler.Push(t);
          if pushed.Err? {
            return Err(Assembly(pushed.error));
          }
          if pushed.value.Some? {
            var frame := codec.decode(pushed.value.value.1);
            return if frame.None? then Err(Protobuf) else Ok(frame.value);
          }
        }
      } else if IsDisconnection(m.frame) {
        return Err(Disconnected);
      }
      assert ReadSharing(codec, true, buffers, m) == More(assembler.buffers, Replies(m.frame));
      MoreStep(codec, true, buffers, before, sent);
      assert line.outbound == sent + SecureAll(Replies(m.frame)) by { NoReplyNoMessage(sent, m.frame); }
    }
    r := Err(WireFraming);
  }

  /** The sender's loop, with its own assembler; a payload is pushed whatever its type. */
  method SenderReadsSharing(codec: SharingCodec, line: Line, assembler: SenderAssembler) returns (r: Result<SharingFrame, ReceiveError>)
    modifies line, assembler
    ensures var out := ReadUntil(codec, false, old(assembler.buffers), old(line.inbound));
            r == out.result && line.inbound == out.rest && line.outbound == old(line.outbound) + out.replies
  {
    hide PushChunk, SecureAll;
    ghost var out := ReadUntil(codec, false, assembler.buffers, line.inbound);
    while line.inbound != []
      invariant var later := ReadUntil(codec, false, assembler.buffers, line.inbound);
                && out.result == later.result && out.rest == later.rest
                && old(line.outbound) + out.replies == line.outbound + later.replies
      decreases |line.inbound|
    {
      var m := line.inbound[0];
      ghost var before, buffers, sent := line.inbound, assembler.buffers, line.outbound;
      line.inbound := line.inbound[1..];
      if !m.Secure? {
        return Err(Crypto);
      }
      if m.frame.v1.None? {
        return Err(Protocol);
      }
      if IsKeepAlive(m.frame) {
        line.Send(SecureAll(Replies(m.frame)));
      } else if IsPayload(m.frame) {
        if m.frame.v1.value.payloadTransfer.None? {
          return Err(Protocol);
        }
        var pushed := assembler.Push(m.frame.v1.value.payloadTransfer.value);
        if pushed.Err? {
          return Err(Assembly(pushed.error));
        }
        if pushed.value.Some? {
          var frame := codec.decode(pushed.value.value);
          return if frame.None? then Err(Protobuf) else Ok(frame.value);
        }
      } else if IsDisconnection(m.frame) {
        return Err(Disconnected);
      }
      assert ReadSharing(codec, false, buffers, m) == More(assembler.buffers, Replies(m.frame));
      MoreStep(codec, false, buffers, before, sent);
      assert line.outbound == sent + SecureAll(Replies(m.frame)) by { NoReplyNoMessage(sent, m.frame); }
    }
    r := Err(WireFraming);
  }

  lemma NoReplyNoMessage(sent: seq<Message>, frame: OfflineFrame)
    ensures !IsKeepAlive(frame) ==> sent + SecureAll(Replies(frame)) == sent
  {
  }

  // ------------------------------------------------------------------

  /** A message that a reading loop passes over: no disconnection, and no payload either, but for the receiver a payload
      that is not of type BYTES. */
  predicate QuietMessage(receiver: bool, m: Message) {
    && m.Secure? && m.frame.v1.Some? && !IsDisconnection(m.frame)
    && (IsPayload(m.frame) ==>
          && receiver && m.frame.v1.value.payloadTransfer.Some?
          && var header := m.frame.v1.value.payloadTransfer.value.header;
             header.None? || header.value.payloadType != Some(PAYLOAD_BYTES))
  }

  predicate Quiet(receiver: bool, messages: seq<Message>) {
    forall i :: 0 <= i < |messages| ==> QuietMessage(receiver, messages[i])
  }

  function AllReplies(messages: seq<Message>): seq<Message> {
    if messages == [] then []
    else (if messages[0].Secure? then SecureAll(Replies(messages[0].frame)) else []) + AllReplies(messages[1..])
  }

  lemma QuietOne(codec: SharingCodec, receiver: bool, buffers: Buffers, m: Message)
    requires QuietMessage(receiver, m)
    ensures m.Secure? && ReadSharing(codec, receiver, buffers, m) == More(buffers, Replies(m.frame))
  {
  }

  lemma {:induction false} QuietIsSkipped(codec: SharingCodec, receiver: bool, buffers: Buffers, quiet: seq<Message>, tail: seq<Message>)
    requires Quiet(receiver, quiet)
    ensures var now, later := ReadUntil(codec, receiver, buffers, quiet + tail), ReadUntil(codec, receiver, buffers, tail);
            now == later.(replies := AllReplies(quiet) + later.replies)
    decreases |quiet|
  {
    hide ReadSharing, QuietMessage, SecureAll, Replies;
    var all := quiet + tail;
    if quiet == [] {
      assert all == tail;
    } else {
      assert all[0] == quiet[0] && all[1..] == quiet[1..] + tail;
      var m := quiet[0];
      QuietOne(codec, receiver, buffers, m);
      QuietIsSkipped(codec, receiver, buffers, quiet[1..], tail);
      QuietAnswered(receiver, quiet);
      var later := ReadUntil(codec, receiver, buffers, tail);
      assert SecureAll(Replies(m.frame)) + (AllReplies(quiet[1..]) + later.replies) == AllReplies(quiet) + later.replies;
    }
  }

  lemma QuietAnswered(receiver: bool, quiet: seq<Message>)
    requires quiet != [] && Quiet(receiver, quiet)
    ensures AllReplies(quiet) == SecureAll(Replies(quiet[0].frame)) + AllReplies(quiet[1..])
  {
    assert QuietMessage(receiver, quiet[0]);
    hide SecureAll, Replies;
  }

  lemma FrameGoesOn(codec: SharingCodec, receiver: bool, buffers: Buffers, next: Buffers, messages: seq<Message>)
    requires messages != [] && ReadSharing(codec, receiver, buffers, messages[0]) == More(next, [])
    ensures ReadUntil(codec, receiver, buffers, messages) == ReadUntil(codec, receiver, next, messages[1..])
  {
    hide ReadSharing;
    assert SecureAll([]) == [];
    var later := ReadUntil(codec, receiver, next, messages[1..]);
    assert [] + later.replies == later.replies;
  }

  lemma FrameEnds(codec: SharingCodec, receiver: bool, buffers: Buffers, messages: seq<Message>)
    requires messages != [] && !ReadSharing(codec, receiver, buffers, messages[0]).More?
    ensures ReadUntil(codec, receiver, buffers, messages) ==
            match ReadSharing(codec, receiver, buffers, messages[0])
            case Failed(e) => SharingOutcome(Err(e), messages[1..], [])
            case Complete(_, frame) => SharingOutcome(Ok(frame), messages[1..], [])
  {
    hide ReadSharing;
  }

  /** What ends either loop with an error, after whatever it passes over: a message that does not decrypt, one without
      contents, a Disconnection. The keep-alives before it are answered, and nothing after it is read. */
  lemma ReadingEnds(codec: SharingCodec, receiver: bool, buffers: Buffers, before: seq<Message>, m: Message, tail: seq<Message>)
    requires Quiet(receiver, before)
    ensures var read := ReadUntil(codec, receiver, buffers, before + ([m] + tail));
            && (!m.Secure? ==> read == SharingOutcome(Err(Crypto), tail, AllReplies(before)))
            && (m.Secure? && m.frame.v1.None? ==> read == SharingOutcome(Err(Protocol), tail, AllReplies(before)))
            && (m.Secure? && IsDisconnection(m.frame) ==> read == SharingOutcome(Err(Disconnected), tail, AllReplies(before)))
  {
    var last := [m] + tail;
    QuietIsSkipped(codec, receiver, buffers, before, last);
    assert last[0] == m && last[1..] == tail && AllReplies(before) + [] == AllReplies(before);
    hide ReadUntil, Quiet, AllReplies, PushChunk;
    if !ReadSharing(codec, receiver, buffers, m).More? {
      FrameEnds(codec, receiver, buffers, last);
    }
  }

  lemma Regroup<T>(a: seq<T>, b: seq<T>, c: seq<T>, d: seq<T>, e: seq<T>)
    ensures a + b + c + d + e == a + (b + (c + (d + e)))
  {
  }

  /** A sharing frame sent by either side is read back whole by either loop, whatever messages it passes over
      stand before and between its two messages; nothing after it is read, and every keep-alive that asks
      is answered. */
  lemma SharingFrameArrives(
    codec: SharingCodec, receiver: bool, id: int, frame: SharingFrame, terminator: Option<bytes>,
    before: seq<Message>, between: seq<Message>, tail: seq<Message>)
    requires Carried(codec, frame) && (terminator == None || terminator == Some([]))
    requires Quiet(receiver, before) && Quiet(receiver, between)
    ensures var ms := SharingMessages(codec, id, frame, terminator);
            ReadUntil(codec, receiver, map[], before + [ms[0]] + between + [ms[1]] + tail)
            == SharingOutcome(Ok(frame), tail, AllReplies(before) + AllReplies(between))
  {
    hide SharingMessages, ReadSharing, ReadUntil, Quiet, AllReplies, Carried;
    var ms := SharingMessages(codec, id, frame, terminator);
    var body := codec.encode(frame);
    SharingFrameRead(codec, receiver, id, frame, terminator);
    var last := [ms[1]] + tail;
    var rest := between + last;
    var middle := [ms[0]] + rest;
    Regroup(before, [ms[0]], between, [ms[1]], tail);
    QuietIsSkipped(codec, receiver, map[], before, middle);
    assert middle[0] == ms[0] && middle[1..] == rest;
    FrameGoesOn(codec, receiver, map[], map[id := body], middle);
    QuietIsSkipped(codec, receiver, map[id := body], between, last);
    assert last[0] == ms[1] && last[1..] == tail;
    FrameEnds(codec, receiver, map[id := body], last);
    assert AllReplies(between) + [] == AllReplies(between);
  }

  predicate IsSharingChunk(m: Message, id: int, total: int, chunk: PayloadChunk) {
    && m.Secure? && m.frame.v1.Some? && m.frame.v1.value.frameType == Some(PAYLOAD_TRANSFER)
    && m.frame.v1.value.payloadTransfer ==
       Some(PayloadTransfer(Some(PayloadHeader(Some(id), Some(PAYLOAD_BYTES), Some(total))), Some(chunk)))
    && m.frame.v1.value.keepAlive.None? && m.frame.v1.value.disconnection.None?
  }

  /** A sharing frame goes out as two chunks of one BYTES payload: the whole of it, and a terminator marked as the last,
      whose body is empty when the sender writes it and missing when the receiver does. */
  lemma SharingOnTheWire(cfg: Config, i: nat, frame: SharingFrame)
    requires i < |cfg.sharingIds|
    ensures var id, body := cfg.sharingIds[i], cfg.codec.encode(frame);
            var theirs, ours := FromSender(cfg, i, frame), FromReceiver(cfg, i, frame);
            && IsSharingChunk(theirs[0], id, |body|, PayloadChunk(Some(0), Some(0), Some(body))) && ours[0] == theirs[0]
            && IsSharingChunk(theirs[1], id, |body|, PayloadChunk(Some(1), Some(|body|), Some([])))
            && IsSharingChunk(ours[1], id, |body|, PayloadChunk(Some(1), Some(|body|), None))
  {
  }

  // ------------------------------------------------------------------
  // Waiting for the user

  /** A keep-alive that is no acknowledgement itself. */
  predicate Asks(m: Message) {
    && m.Secure? && m.frame.v1.Some? && m.frame.v1.value.frameType == Some(KEEP_ALIVE)
    && (m.frame.v1.value.keepAlive.Some? ==> m.frame.v1.value.keepAlive.value.ack != Some(true))
  }

  function KeepAliveOf(ack: bool, seqNum: Option<int>): Message {
    Secure(OfflineFrame(Some(OfflineV1(Some(KEEP_ALIVE), None, Some(KeepAlive(Some(ack), seqNum)), None))))
  }

  /** A turn of the consent loop sends its own keep-alive, without a number, when it is time to, and then the answer to
      the message that waits, if that is a keep-alive that asks. Any other message is dropped; one that does not decrypt
      ends the session, with the disk as it was. */
  lemma WaitingTurn(cfg: Config, r: Receiver, keepAlive: bool, waiting: Option<Message>)
    requires r.phase.Consent? && r.phase.polls > 0
    ensures var move := ReceiverWaits(cfg, r, keepAlive, waiting);
            var own := if keepAlive then [KeepAliveOf(false, None)] else [];
            if waiting.Some? && !waiting.value.Secure? then
              move.receiver.phase == ReceiverFailed(Crypto, cfg.disk) && move.out == own
            else
              && move.receiver.phase == r.phase.(polls := r.phase.polls - 1) && move.receiver.buffers == r.buffers
              && move.out ==
                 own + if waiting.Some? && Asks(waiting.value) then [KeepAliveOf(true, NumberOf(waiting.value))] else []
  {
    if waiting.Some? && waiting.value.Secure? {
      RepliesIff(waiting.value.frame);
      hide Replies;
      var answers := SecureAll(Replies(waiting.value.frame));
      assert answers == if Asks(waiting.value) then [KeepAliveOf(true, NumberOf(waiting.value))] else [];
    }
  }

  function NumberOf(m: Message): Option<int> {
    if m.Secure? && m.frame.v1.Some? && m.frame.v1.value.keepAlive.Some? then m.frame.v1.value.keepAlive.value.seqNum else None
  }

  // ------------------------------------------------------------------
  // Closing

  /** The closing loop as the repetition of `CloseReads`, ended by the end of the stream. */
  function CloseLoop(s: Sender, messages: seq<Message>): (Sender, seq<Message>, seq<Message>)
    requires s.phase.AwaitClose?
    decreases |messages|
  {
    if messages == [] then (SenderAtEof(s), [], [])
    else
      var move := CloseReads(s, messages[0]);
      if SenderEnded(move.sender) then (move.sender, messages[1..], move.out)
      else
        var (last, rest, out) := CloseLoop(move.sender, messages[1..]);
        (last, rest, move.out + out)
  }

  lemma CloseStep(s: Sender, messages: seq<Message>, sent: seq<Message>)
    requires s.phase.AwaitClose? && messages != [] && messages[0].Secure? && !IsDisconnection(messages[0].frame)
    ensures var now, later := CloseLoop(s, messages), CloseLoop(s, messages[1..]);
            && now.0 == later.0 && now.1 == later.1
            && sent + now.2 == sent + SecureAll(Replies(messages[0].frame)) + later.2
  {
    hide SecureAll, Replies;
    assert CloseReads(s, messages[0]) == SenderMove(s, SecureAll(Replies(messages[0].frame)));
  }

  method Finalize(line: Line, s: Sender) returns (last: Sender)
    requires s.phase.AwaitClose?
    modifies line
    ensures var (end, rest, out) := CloseLoop(s, old(line.inbound));
            last == end && line.inbound == rest && line.outbound == old(line.outbound) + out
  {
    ghost var whole := CloseLoop(s, line.inbound);
    while line.inbound != []
      invariant var later := CloseLoop(s, line.inbound);
                whole.0 == later.0 && whole.1 == later.1 && old(line.outbound) + whole.2 == line.outbound + later.2
      decreases |line.inbound|
    {
      var m := line.inbound[0];
      ghost var before, sent := line.inbound, line.outbound;
      line.inbound := line.inbound[1..];
      if !m.Secure? {
        assert sent + [] == sent;
        return s.(phase := SenderFailed(SendCrypto));
      }
      if IsDisconnection(m.frame) {
        var d := m.frame.v1.value.disconnection;
        var request := d.Some? && GetOr(d.value.requestSafe, false);
        var ack := d.Some? && GetOr(d.value.ackSafe, false);
        if request && !ack {
          line.Send([SafeDisconnectAck()]);
          return s.(phase := Succeeded(true), sent := s.sent + 1);
        }
        assert sent + [] == sent;
        return s.(phase := Succeeded(true));
      }
      line.Send(SecureAll(Replies(m.frame)));
      CloseStep(s, before, sent);
    }
    last := SenderAtEof(s);
  }

  /** The first message that ends the loop: a Disconnection, or one that does not decrypt. */
  predicate EndsLoop(m: Message) {
    !m.Secure? || IsDisconnection(m.frame)
  }

  /** Message `k` is the first to end the loop. */
  predicate FirstEnd(messages: seq<Message>, k: int) {
    0 <= k < |messages| && EndsLoop(messages[k]) && forall i :: 0 <= i < k ==> !EndsLoop(messages[i])
  }

  lemma FirstEndStep(messages: seq<Message>, k: int)
    requires messages != []
    ensures EndsLoop(messages[0]) ==> (FirstEnd(messages, k) <==> k == 0)
    ensures !EndsLoop(messages[0]) ==> (FirstEnd(messages, k) <==> FirstEnd(messages[1..], k - 1))
  {
    var tail := messages[1..];
    if FirstEnd(messages, k) && k > 0 {
      assert tail[k - 1] == messages[k];
      assert forall i :: 0 <= i < k - 1 ==> tail[i] == messages[i + 1];
    }
    if FirstEnd(tail, k - 1) && !EndsLoop(messages[0]) {
      forall i | 0 <= i < k
        ensures !EndsLoop(messages[i])
      {
        if i > 0 {
          assert messages[i] == tail[i - 1];
        }
      }
    }
  }

  /** Closing is confirmed exactly when the first message that ends the loop is a Disconnection; it fails when
      that message does not decrypt, and succeeds unconfirmed when there is none and the stream just ends. */
  lemma {:induction false} ClosingIff(s: Sender, messages: seq<Message>)
    requires s.phase.AwaitClose?
    ensures var phase := CloseLoop(s, messages).0.phase;
            && (phase == Succeeded(true) <==> exists k :: FirstEnd(messages, k) && messages[k].Secure?)
            && (phase == SenderFailed(SendCrypto) <==> exists k :: FirstEnd(messages, k) && !messages[k].Secure?)
            && (phase == Succeeded(false) <==> forall k :: !FirstEnd(messages, k))
            && (phase.Succeeded? || phase == SenderFailed(SendCrypto))
    decreases |messages|
  {
    if messages != [] {
      forall k
        ensures EndsLoop(messages[0]) ==> (FirstEnd(messages, k) <==> k == 0)
        ensures !EndsLoop(messages[0]) ==> (FirstEnd(messages, k) <==> FirstEnd(messages[1..], k - 1))
      {
        FirstEndStep(messages, k);
      }
      hide FirstEnd;
      if EndsLoop(messages[0]) {
        assert FirstEnd(messages, 0);
      } else {
        ClosingIff(s, messages[1..]);
        CloseStep(s, messages, []);
        if k :| FirstEnd(messages[1..], k) {
          assert FirstEnd(messages[1..], (k + 1) - 1) ==> FirstEnd(messages, k + 1);
          OnlyOneFirst(messages[1..], k);
          OnlyOneFirst(messages, k + 1);
        }
      }
    } else {
      assert forall k :: !FirstEnd(messages, k);
    }
  }

  lemma OnlyOneFirst(messages: seq<Message>, k: int)
    requires FirstEnd(messages, k)
    ensures forall j :: FirstEnd(messages, j) ==> j == k
  {
  }

  lemma RepliesPrefix(messages: seq<Message>, n: nat)
    requires messages != [] && n < |messages| && messages[0].Secure?
    ensures AllReplies(messages[..n + 1]) == SecureAll(Replies(messages[0].frame)) + AllReplies(messages[1..][..n])
  {
    assert messages[..n + 1][1..] == messages[1..][..n];
    hide SecureAll, Replies;
  }

  /** The safe-disconnection acknowledgement is wanted: requested, and the message is none itself. */
  predicate WantsFarewell(m: Message) {
    && m.Secure? && IsDisconnection(m.frame) && m.frame.v1.value.disconnection.Some?
    && m.frame.v1.value.disconnection.value.requestSafe == Some(true)
    && m.frame.v1.value.disconnection.value.ackSafe != Some(true)
  }

  /** What the closing loop sends: the answers to the keep-alives before the message that ends it, and then one
      acknowledgement, no request itself, exactly when that message asks for it. Nothing after that message is read. */
  lemma {:induction false} ClosingSends(s: Sender, messages: seq<Message>, k: int)
    requires s.phase.AwaitClose? && FirstEnd(messages, k)
    ensures var (_, rest, out) := CloseLoop(s, messages);
            && rest == messages[k + 1..]
            && out == AllReplies(messages[..k])
                      + (if WantsFarewell(messages[k])
                         then [Secure(OfflineFrame(Some(OfflineV1(
                                Some(DISCONNECTION), None, None, Some(Disconnection(Some(false), Some(true)))))))]
                         else [])
    decreases |messages|
  {
    hide SecureAll, Replies, AllReplies, IsDisconnection;
    FirstEndStep(messages, k);
    if k == 0 {
      assert messages[..0] == [];
      NoMessagesNoReplies();
    } else {
      assert !EndsLoop(messages[0]);
      ClosingSends(s, messages[1..], k - 1);
      CloseStep(s, messages, []);
      var first := SecureAll(Replies(messages[0].frame));
      hide CloseLoop, WantsFarewell;
      assert [] + CloseLoop(s, messages).2 == CloseLoop(s, messages).2 && [] + first == first;
      RepliesPrefix(messages, k - 1);
      assert messages[1..][k..] == messages[k + 1..] && messages[1..][k - 1] == messages[k];
    }
  }

  /** And when no message ends it, the answers to all. */
  lemma {:induction false} OpenEndSends(s: Sender, messages: seq<Message>)
    requires s.phase.AwaitClose? && forall i :: 0 <= i < |messages| ==> !EndsLoop(messages[i])
    ensures CloseLoop(s, messages).1 == [] && CloseLoop(s, messages).2 == AllReplies(messages)
    decreases |messages|
  {
    if messages != [] {
      assert !EndsLoop(messages[0]) && forall i :: 0 <= i < |messages| - 1 ==> messages[1..][i] == messages[i + 1];
      OpenEndSends(s, messages[1..]);
      CloseStep(s, messages, []);
      hide CloseLoop, SecureAll, Replies;
    }
  }

  // ------------------------------------------------------------------
  // Polling between chunks

  /** A poll as the repetition of `PollReads` on what is waiting, at most eight times. */
  function PollLoop(s: Sender, waiting: seq<Message>): (Sender, seq<Message>, seq<Message>)
    requires s.phase.SendingFiles?
    decreases |waiting|
  {
    if s.phase.budget == 0 || waiting == [] then (s, waiting, [])
    else
      var move := PollReads(s, waiting[0]);
      if SenderEnded(move.sender) then (move.sender, waiting[1..], move.out)
      else
        var (last, rest, out) := PollLoop(move.sender, waiting[1..]);
        (last, rest, move.out + out)
  }

  lemma PollStep(s: Sender, waiting: seq<Message>, sent: seq<Message>)
    requires s.phase.SendingFiles? && s.phase.budget > 0
    requires waiting != [] && waiting[0].Secure? && !IsDisconnection(waiting[0].frame)
    ensures var next := s.(phase := SendingFiles(s.phase.position, s.phase.budget - 1));
            var now, later := PollLoop(s, waiting), PollLoop(next, waiting[1..]);
            && now.0 == later.0 && now.1 == later.1
            && sent + now.2 == sent + SecureAll(Replies(waiting[0].frame)) + later.2
  {
    hide SecureAll, Replies;
    var next := s.(phase := SendingFiles(s.phase.position, s.phase.budget - 1));
    assert PollReads(s, waiting[0]) == SenderMove(next, SecureAll(Replies(waiting[0].frame)));
  }

  lemma PollEnds(s: Sender, waiting: seq<Message>)
    requires s.phase.SendingFiles?
    ensures s.phase.budget == 0 || waiting == [] ==> PollLoop(s, waiting) == (s, waiting, [])
    ensures s.phase.budget > 0 && waiting != [] && !waiting[0].Secure? ==>
              PollLoop(s, waiting) == (s.(phase := SenderFailed(SendCrypto)), waiting[1..], [])
    ensures s.phase.budget > 0 && waiting != [] && waiting[0].Secure? && IsDisconnection(waiting[0].frame) ==>
              PollLoop(s, waiting) == (s.(phase := SenderFailed(LateDisconnection)), waiting[1..], [])
  {
  }

  method AcknowledgePending(line: Line, s: Sender) returns (last: Sender)
    requires s.phase.SendingFiles? && s.phase.budget == POLL_BUDGET
    modifies line
    ensures var (end, rest, out) := PollLoop(s, old(line.inbound));
            last == end && line.inbound == rest && line.outbound == old(line.outbound) + out
  {
    hide PollLoop, SecureAll, Replies, IsDisconnection;
    ghost var whole := PollLoop(s, line.inbound);
    last := s;
    for turn := 0 to POLL_BUDGET
      invariant last.phase == SendingFiles(s.phase.position, POLL_BUDGET - turn) && last == s.(phase := last.phase)
      invariant var later := PollLoop(last, line.inbound);
                whole.0 == later.0 && whole.1 == later.1 && old(line.outbound) + whole.2 == line.outbound + later.2
    {
      PollEnds(last, line.inbound);
      if line.inbound == [] {
        return;
      }
      var m := line.inbound[0];
      ghost var before, sent := line.inbound, line.outbound;
      line.inbound := line.inbound[1..];
      if !m.Secure? {
        assert sent + [] == sent;
        last := last.(phase := SenderFailed(SendCrypto));
        return;
      }
      if IsDisconnection(m.frame) {
        assert sent + [] == sent;
        last := last.(phase := SenderFailed(LateDisconnection));
        return;
      }
      line.Send(SecureAll(Replies(m.frame)));
      PollStep(last, before, sent);
      last := last.(phase := SendingFiles(s.phase.position, POLL_BUDGET - turn - 1));
    }
    PollEnds(last, line.inbound);
  }

  /** A poll reads at most eight messages, and fails on a Disconnection exactly when one is the first to end the
      loop among the first eight. */
  lemma {:induction false} PollReadsAtMostItsBudget(s: Sender, waiting: seq<Message>)
    requires s.phase.SendingFiles?
    ensures |waiting| - |PollLoop(s, waiting).1| <= s.phase.budget
    ensures PollLoop(s, waiting).0.phase == SenderFailed(LateDisconnection) <==>
              exists k :: FirstEnd(waiting, k) && k < s.phase.budget && waiting[k].Secure?
    decreases |waiting|
  {
    if s.phase.budget > 0 && waiting != [] {
      forall k
        ensures EndsLoop(waiting[0]) ==> (FirstEnd(waiting, k) <==> k == 0)
        ensures !EndsLoop(waiting[0]) ==> (FirstEnd(waiting, k) <==> FirstEnd(waiting[1..], k - 1))
      {
        FirstEndStep(waiting, k);
      }
      hide FirstEnd;
      if EndsLoop(waiting[0]) {
        assert FirstEnd(waiting, 0);
      } else {
        PollReadsAtMostItsBudget(PollReads(s, waiting[0]).sender, waiting[1..]);
        PollStep(s, waiting, []);
        if k :| FirstEnd(waiting[1..], k) {
          assert FirstEnd(waiting[1..], (k + 1) - 1) ==> FirstEnd(waiting, k + 1);
          OnlyOneFirst(waiting[1..], k);
          OnlyOneFirst(waiting, k + 1);
        }
      }
    }
  }

  /** Every poll starts with eight turns: the first one on the acceptance, the others after each frame and each poll. */
  lemma EightTurns(cfg: Config, s: Sender, frame: SharingFrame)
    ensures var next := SenderMoves(cfg, s).sender.phase; s.phase.SendingFiles? && next.SendingFiles? ==> next.budget == 8
    ensures var next := SenderAfterSharing(cfg, s, frame).sender.phase; next.SendingFiles? ==> next == SendingFiles(0, 8)
  {
    hide Plan, FromSender;
  }

  /** What a poll sends and leaves: it stops at the first message that ends it, if that is within its budget, or when
      the budget or the messages are used up; the keep-alives before are answered. */
  lemma {:induction false} PollSends(s: Sender, waiting: seq<Message>, n: nat)
    requires s.phase.SendingFiles? && n <= s.phase.budget
    requires (FirstEnd(waiting, n) && n < s.phase.budget)
             || (n <= |waiting| && (n == s.phase.budget || n == |waiting|) && forall i :: 0 <= i < n ==> !EndsLoop(waiting[i]))
    ensures var ended := n < s.phase.budget && n < |waiting|;
            var (last, rest, out) := PollLoop(s, waiting);
            && out == AllReplies(waiting[..n]) && rest == waiting[if ended then n + 1 else n..]
            && (SenderEnded(last) <==> ended)
    decreases |waiting|
  {
    hide PollLoop, SecureAll, Replies, AllReplies, IsDisconnection;
    if n == 0 {
      assert waiting[..0] == [] && waiting[0..] == waiting;
      NoMessagesNoReplies();
      PollEnds(s, waiting);
    } else {
      assert !EndsLoop(waiting[0]);
      FirstEndStep(waiting, n);
      assert forall i :: 0 <= i < |waiting| - 1 ==> waiting[1..][i] == waiting[i + 1];
      var next := s.(phase := SendingFiles(s.phase.position, s.phase.budget - 1));
      PollSends(next, waiting[1..], n - 1);
      PollStep(s, waiting, []);
      var first := SecureAll(Replies(waiting[0].frame));
      assert [] + PollLoop(s, waiting).2 == PollLoop(s, waiting).2 && [] + first == first;
      RepliesPrefix(waiting, n - 1);
      assert waiting[1..][n - 1..] == waiting[n..] && (n < |waiting| ==> waiting[1..][n..] == waiting[n + 1..]);
    }
  }

  lemma NoMessagesNoReplies()
    ensures AllReplies([]) == []
  {
  }
}
