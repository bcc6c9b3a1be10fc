/** From the files read to the files on the receiver's disk through every layer at once: chunks, encryption, the
    frame counter, the framing and a connection that may be cut at any byte. */
module WireFidelity {
  import opened Prelude
  import opened WireMessages
  import opened Transport
  import opened SecureChannels
  import opened Layers
  import opened Assembler
  import opened Paths
  import opened Transfers
  import opened TransferInvariant
  import opened Preparation
  import opened Sending
  import opened Fidelity
  import opened FrameSize

  // ------------------------------------------------------------------
  // Sending

  /** What reached the stream, and how many frames that is. */
  datatype Sent = Sent(wire: bytes, count: nat)

  /** `send_encrypted_offline` for one frame after the other, until one cannot be sent. */
  function SendAll(codec: PacketCodec, c: ChannelState, frames: seq<OfflineFrame>, ivs: seq<bytes>): Sent
    requires |ivs| == |frames|
    decreases |frames|
  {
    if frames == [] then Sent([], 0)
    else
      var (next, r) := Encrypt(c, frames[0], ivs[0]);
      if r.Err? || !Sendable(codec.encode(r.value)) then Sent([], 0)
      else
        var more := SendAll(codec, next, frames[1..], ivs[1..]);
        Sent(Wire(codec.encode(r.value)) + more.wire, 1 + more.count)
  }

  method SendEncryptedOffline(codec: PacketCodec, channel: SecureChannel, stream: Stream, frame: OfflineFrame, iv: bytes)
    returns (ok: bool)
    requires channel.Valid()
    modifies channel, stream
    ensures channel.Valid() && channel.State() == Encrypt(old(channel.State()), frame, iv).0
    ensures var sent := SendAll(codec, old(channel.State()), [frame], [iv]);
            stream.outbound == old(stream.outbound) + sent.wire && (ok <==> sent.count == 1)
  {
    assert [frame][1..] == [] && [iv][1..] == [];
    var encrypted := channel.EncryptOfflineFrame(frame, iv);
    if encrypted.Err? {
      return false;
    }
    var written := stream.WriteFrame(codec.encode(encrypted.value));
    ok := written.Ok?;
  }

  /** The frames the 32-bit counter lets through. */
  function Sendables(c: ChannelState, frames: seq<OfflineFrame>): (n: nat)
    requires InRange(c)
    ensures n <= |frames| && c.sendSequence + n <= MAX_I32
  {
    if c.sendSequence + |frames| <= MAX_I32 then |frames| else MAX_I32 - c.sendSequence
  }

  function Sealed(codec: PacketCodec, c: ChannelState, frames: seq<OfflineFrame>, ivs: seq<bytes>): seq<bytes>
    requires InRange(c) && |ivs| == |frames|
  {
    SealAll(codec, c.keys, c.sendSequence, frames, ivs)
  }

  /** When the packets the counter lets through fit a frame each, sending stops only where the counter ends. */
  lemma {:induction false} SentIsSealed(codec: PacketCodec, c: ChannelState, frames: seq<OfflineFrame>, ivs: seq<bytes>)
    requires InRange(c) && |ivs| == |frames|
    requires var n := Sendables(c, frames); AllSendable(Sealed(codec, c, frames[..n], ivs[..n]))
    ensures var n := Sendables(c, frames);
            SendAll(codec, c, frames, ivs) == Sent(WriteAll(Sealed(codec, c, frames[..n], ivs[..n])), n)
    decreases |frames|
  {
    hide Seal, Wire, Sendable;
    var n := Sendables(c, frames);
    var raws := Sealed(codec, c, frames[..n], ivs[..n]);
    if n > 0 {
      var next := c.(sendSequence := c.sendSequence + 1);
      assert frames[1..][..n - 1] == frames[..n][1..] && ivs[1..][..n - 1] == ivs[..n][1..];
      assert raws[1..] == Sealed(codec, next, frames[..n][1..], ivs[..n][1..]);
      SentIsSealed(codec, next, frames[1..], ivs[1..]);
      assert raws[0] == codec.encode(Seal(c.keys, frames[0], c.sendSequence + 1, ivs[0]));
    }
  }

  // ------------------------------------------------------------------
  // Sizes

  /** How the sender writes: the Protocol Buffers form of packets, the lengths of cipher and signature, UTF-8,
      and the time stamps of the files. */
  datatype Writing = Writing(codec: PacketCodec, lengths: Lengths, utf8: string -> bytes, modified: OutgoingFile -> i64)

  function ParentOf(file: OutgoingFile): string {
    GetOr(file.parentFolder, "")
  }

  /** Names are short enough, and a read returns at most one buffer. */
  predicate Modest(wr: Writing, s: Shipment) {
    ReadsFit(s) && |wr.utf8(s.file.name)| + |wr.utf8(ParentOf(s.file))| <= 4 * 1024 * 1024
  }

  /** `f` is a chunk of `s`. */
  ghost predicate IsChunkOf(s: Shipment, f: OfflineFrame) {
    exists offset: nat, body: bytes, last: bool :: |body| <= FILE_CHUNK_BYTES && f == ChunkFrame(s.file, offset, body, last)
  }

  function AckNumber(f: OfflineFrame): Option<int> {
    if f.v1.Some? && f.v1.value.keepAlive.Some? then f.v1.value.keepAlive.value.seqNum else None
  }

  /** An acknowledgement as the sender writes it. */
  predicate IsAck(f: OfflineFrame) {
    f == KeepAliveFrame(true, AckNumber(f)) && 0 <= GetOr(AckNumber(f), 0) <= MAX_U32
  }

  /** Chunks of these files and acknowledgements are written with the lengths of `FrameSize`, under the keys of
      this connection. */
  ghost predicate WritesChunks(wr: Writing, keys: SessionKeys, shipments: seq<Shipment>) {
    && Usual(wr.lengths)
    && (forall i, offset: nat, body: bytes, last: bool, n: nat, iv: bytes ::
          0 <= i < |shipments| && n <= MAX_I32 && |iv| == 16 && |body| <= FILE_CHUNK_BYTES ==>
          var file := shipments[i].file;
          var plain := FrameBytes(file, wr.utf8(file.name), wr.utf8(ParentOf(file)), wr.modified(file), offset, body, last);
          |wr.codec.encode(Seal(keys, ChunkFrame(file, offset, body, last), n, iv))| == |Envelope(wr.lengths, plain, n, iv)|)
    && (forall f: OfflineFrame, n: nat, iv: bytes :: IsAck(f) && n <= MAX_I32 && |iv| == 16 ==>
          |wr.codec.encode(Seal(keys, f, n, iv))| == |Envelope(wr.lengths, AckBytes(AckNumber(f)), n, iv)|)
  }

  ghost predicate AllModest(wr: Writing, shipments: seq<Shipment>) {
    forall i :: 0 <= i < |shipments| ==> Modest(wr, shipments[i])
  }

  ghost predicate IsChunkOfAny(shipments: seq<Shipment>, f: OfflineFrame) {
    exists i :: 0 <= i < |shipments| && IsChunkOf(shipments[i], f)
  }

  lemma {:induction false} FileFramesAreChunks(s: Shipment, offset: nat, pieces: seq<bytes>, f: OfflineFrame)
    requires f in FileFrames(s.file, offset, pieces)
    requires forall i :: 0 <= i < |pieces| ==> |pieces[i]| <= FILE_CHUNK_BYTES
    ensures IsChunkOf(s, f)
    decreases |pieces|
  {
    hide ChunkFrame;
    if pieces == [] {
      assert f == ChunkFrame(s.file, offset, [], true);
    } else if f == ChunkFrame(s.file, offset, pieces[0], false) {
    } else {
      FileFramesAreChunks(s, offset + |pieces[0]|, pieces[1..], f);
    }
  }

  lemma {:induction false} SentFramesAreChunks(wr: Writing, shipments: seq<Shipment>, f: OfflineFrame)
    requires f in SentFrames(shipments) && AllModest(wr, shipments)
    ensures IsChunkOfAny(shipments, f)
    decreases |shipments|
  {
    hide IsChunkOf;
    var first := shipments[0];
    if f in FileFrames(first.file, 0, first.pieces) {
      assert Modest(wr, first);
      FileFramesAreChunks(first, 0, first.pieces, f);
    } else {
      var rest := shipments[1..];
      assert AllModest(wr, rest);
      SentFramesAreChunks(wr, rest, f);
      var i :| 0 <= i < |rest| && IsChunkOf(rest[i], f);
      assert IsChunkOf(shipments[i + 1], f);
    }
  }

  lemma ChunkIsSendable(wr: Writing, keys: SessionKeys, shipments: seq<Shipment>, f: OfflineFrame, n: nat, iv: bytes)
    requires WritesChunks(wr, keys, shipments) && AllModest(wr, shipments) && IsChunkOfAny(shipments, f)
    requires n <= MAX_I32 && |iv| == 16
    ensures Sendable(wr.codec.encode(Seal(keys, f, n, iv)))
  {
    hide ChunkFrame, Envelope, FrameBytes, Seal;
    var i :| 0 <= i < |shipments| && IsChunkOf(shipments[i], f);
    var file := shipments[i].file;
    var offset: nat, body: bytes, last: bool :| |body| <= FILE_CHUNK_BYTES && f == ChunkFrame(file, offset, body, last);
    assert Modest(wr, shipments[i]);
    EveryChunkFits(
      wr.lengths, file, wr.utf8(file.name), wr.utf8(ParentOf(file)), wr.modified(file), offset, body, last, n, iv);
  }

  lemma AckIsSendable(wr: Writing, keys: SessionKeys, shipments: seq<Shipment>, f: OfflineFrame, n: nat, iv: bytes)
    requires WritesChunks(wr, keys, shipments) && IsAck(f) && n <= MAX_I32 && |iv| == 16
    ensures Sendable(wr.codec.encode(Seal(keys, f, n, iv)))
  {
    hide Envelope, AckBytes, Seal, IsAck;
    AckFits(wr.lengths, AckNumber(f), n, iv);
  }

  /** What the sender may put on the channel while it sends its files. */
  ghost predicate Outgoing(shipments: seq<Shipment>, frames: seq<OfflineFrame>) {
    && (forall i :: 0 <= i < |frames| ==> IsPayload(frames[i]) || IsAck(frames[i]))
    && Frames(Payloads(Arriving(frames))) == SentFrames(shipments)
  }

  lemma {:induction false} PayloadsKeepAll(arrivals: seq<Arrival>, i: nat)
    requires i < |arrivals| && IsPayload(arrivals[i].frame)
    ensures arrivals[i].frame in Frames(Payloads(arrivals))
    decreases |arrivals|
  {
    if i > 0 {
      PayloadsKeepAll(arrivals[1..], i - 1);
      var rest := Payloads(arrivals[1..]);
      var k :| 0 <= k < |rest| && Frames(rest)[k] == arrivals[i].frame;
      var all := Payloads(arrivals);
      assert Frames(all)[if IsPayload(arrivals[0].frame) then k + 1 else k] == arrivals[i].frame;
    } else {
      assert Frames(Payloads(arrivals))[0] == arrivals[0].frame;
    }
  }

  /** Every frame the counter lets through fits. */
  lemma AllFitTheWire(wr: Writing, c: ChannelState, shipments: seq<Shipment>, frames: seq<OfflineFrame>, ivs: seq<bytes>)
    requires InRange(c) && |ivs| == |frames| && forall i :: 0 <= i < |ivs| ==> |ivs[i]| == 16
    requires WritesChunks(wr, c.keys, shipments) && AllModest(wr, shipments) && Outgoing(shipments, frames)
    ensures var n := Sendables(c, frames); AllSendable(Sealed(wr.codec, c, frames[..n], ivs[..n]))
  {
    hide WritesChunks, AllModest, Seal, IsChunkOfAny, Sendable, SentFrames, IsPayload, IsAck;
    var n := Sendables(c, frames);
    var raws := Sealed(wr.codec, c, frames[..n], ivs[..n]);
    forall i | 0 <= i < |raws|
      ensures Sendable(raws[i])
    {
      var number := c.sendSequence + 1 + i;
      assert raws[i] == wr.codec.encode(Seal(c.keys, frames[i], number, ivs[i]));
      if IsPayload(frames[i]) {
        assert Arriving(frames)[i].frame == frames[i];
        PayloadsKeepAll(Arriving(frames), i);
        SentFramesAreChunks(wr, shipments, frames[i]);
        ChunkIsSendable(wr, c.keys, shipments, frames[i], number, ivs[i]);
      } else {
        AckIsSendable(wr, c.keys, shipments, frames[i], number, ivs[i]);
      }
    }
  }

  // ------------------------------------------------------------------
  // A stream that ends early

  predicate NoPayload(frames: seq<OfflineFrame>) {
    forall i :: 0 <= i < |frames| ==> !IsPayload(frames[i])
  }

  lemma {:induction false} PayloadsAppend(a: seq<Arrival>, b: seq<Arrival>)
    ensures Payloads(a + b) == Payloads(a) + Payloads(b)
    decreases |a|
  {
    if a == [] {
      assert a + b == b;
    } else {
      assert (a + b)[1..] == a[1..] + b;
      PayloadsAppend(a[1..], b);
    }
  }

  lemma {:induction false} NoPayloadIff(frames: seq<OfflineFrame>)
    ensures NoPayload(frames) <==> Payloads(Arriving(frames)) == []
  {
    if frames != [] {
      NoPayloadIff(frames[1..]);
      assert Arriving(frames)[1..] == Arriving(frames[1..]);
      assert Arriving(frames)[0].frame == frames[0];
      assert NoPayload(frames) <==> !IsPayload(frames[0]) && NoPayload(frames[1..]);
    }
  }

  /** A run that succeeds does not look at what comes after. */
  lemma {:induction false} MoreIsUnread(w: World, a: seq<Arrival>, b: seq<Arrival>)
    requires ReceiveAll(w, a).error.None?
    ensures ReceiveAll(w, a + b).error.None? && ReceiveAll(w, a + b).rest == ReceiveAll(w, a).rest + b
    decreases |a|
  {
    hide Handle;
    if !Finished(w.transfer) {
      assert (a + b)[0] == a[0] && (a + b)[1..] == a[1..] + b;
      MoreIsUnread(Handle(w, a[0].frame, a[0].env).world, a[1..], b);
    }
  }

  lemma OutgoingIsBenign(shipments: seq<Shipment>, frames: seq<OfflineFrame>)
    requires Outgoing(shipments, frames)
    ensures Benign(Arriving(frames))
  {
    hide SentFrames;
  }

  lemma CutPayloads(frames: seq<OfflineFrame>, n: nat)
    requires n <= |frames|
    ensures Arriving(frames) == Arriving(frames[..n]) + Arriving(frames[n..])
    ensures Payloads(Arriving(frames)) == Payloads(Arriving(frames[..n])) + Payloads(Arriving(frames[n..]))
  {
    assert Arriving(frames) == Arriving(frames[..n]) + Arriving(frames[n..]);
    PayloadsAppend(Arriving(frames[..n]), Arriving(frames[n..]));
  }

  lemma {:induction false} AcksAreSilent(arrivals: seq<Arrival>)
    requires forall i :: 0 <= i < |arrivals| ==> !WantsAck(arrivals[i].frame)
    ensures AllReplies(arrivals) == []
  {
    if arrivals != [] {
      AcksAreSilent(arrivals[1..]);
    }
  }

  /** When only the first `n` frames arrive, the receiver succeeds exactly when the files fit and no file frame
      is missing. */
  lemma PrefixDelivers(w: World, shipments: seq<Shipment>, frames: seq<OfflineFrame>, n: nat)
    requires Sound(w) && w.log == [] && Expecting(w.transfer, shipments)
    requires Outgoing(shipments, frames) && n <= |frames|
    ensures var out := ReceiveAll(w, Arriving(frames[..n]));
            && (out.error.None? <==> AllFit(w, shipments) && NoPayload(frames[n..]))
            && (out.error.None? ==> DeliveredAll(w, shipments, out.world) && out.replies == [])
  {
    hide Sound, Expecting, AllFit, ReceiveAll, DeliveredAll, SentFrames, AllReplies;
    var all, first, last := Arriving(frames), Arriving(frames[..n]), Arriving(frames[n..]);
    CutPayloads(frames, n);
    NoPayloadIff(frames[n..]);
    OutgoingIsBenign(shipments, frames);
    assert forall i :: 0 <= i < |first| ==> first[i] == all[i];
    hide Payloads;
    if ReceiveAll(w, first).error.None? {
      MoreIsUnread(w, first, last);
      DeliveryIff(w, shipments, all);
      PayloadsAppend(ReceiveAll(w, first).rest, last);
      assert NoPayload(frames[n..]);
    }
    if NoPayload(frames[n..]) {
      assert Payloads(all) == Payloads(first) + [] == Payloads(first);
      DeliveryIff(w, shipments, first);
      if ReceiveAll(w, first).error.None? {
        AcksAreSilent(first[..|first| - |ReceiveAll(w, first).rest|]);
      }
    }
  }

  // ------------------------------------------------------------------
  // All layers

  /** Two peers whose channels are in step, and files the sender can write. */
  ghost predicate Connected(wr: Writing, c: ChannelState, d: ChannelState, shipments: seq<Shipment>, ivs: seq<bytes>) {
    && Inverse(wr.codec) && InStep(c, d) && InRange(c)
    && WritesChunks(wr, c.keys, shipments) && AllModest(wr, shipments)
    && forall i :: 0 <= i < |ivs| ==> |ivs[i]| == 16
  }

  /** Through framing and channel: of what the sender was to send, the frames that come out at the other end of a
      connection cut after `k` bytes are the first ones, unaltered -- all that the counter lets through, when it
      was not cut -- and then the stream ends. */
  lemma FramesArrive(
    wr: Writing, c: ChannelState, d: ChannelState, shipments: seq<Shipment>, frames: seq<OfflineFrame>, ivs: seq<bytes>, k: nat)
    requires |ivs| == |frames| && Connected(wr, c, d, shipments, ivs) && Outgoing(shipments, frames)
    requires k <= |SendAll(wr.codec, c, frames, ivs).wire|
    ensures var sent := SendAll(wr.codec, c, frames, ivs);
            var got := ReceiveFrames(wr.codec, d, sent.wire[..k]);
            && sent.count == Sendables(c, frames)
            && got.end == EndOfStream && got.frames <= frames
            && (k == |sent.wire| ==> got.frames == frames[..sent.count])
  {
    hide WritesChunks, AllModest, Outgoing, Inverse, ReceiveFrames, SealAll;
    var n := Sendables(c, frames);
    AllFitTheWire(wr, c, shipments, frames, ivs);
    SentIsSealed(wr.codec, c, frames, ivs);
    StackDelivers(wr.codec, c, d, frames[..n], ivs[..n], k);
    var raws := Sealed(wr.codec, c, frames[..n], ivs[..n]);
    if k == |WriteAll(raws)| {
      WholeStream(raws);
      assert frames[..n][..n] == frames[..n];
    }
    assert forall m: nat :: m <= n ==> frames[..n][..m] == frames[..m];
  }

  lemma {:induction false} WholeStream(raws: seq<bytes>)
    requires AllSendable(raws)
    ensures WholeFrames(raws, |WriteAll(raws)|) == |raws|
  {
    if raws != [] {
      WholeStream(raws[1..]);
    }
  }

  /** From the files read to the files on disk, over bytes. Once `prepare` has accepted the introduction, then for
      every way the reads cut the files, with any acknowledgements between the chunks, and wherever the
      connection is cut: the receiver decrypts the first frames and nothing else, and it succeeds exactly when
      every file was read to its announced length, no destination is a directory, and no file frame is missing;
      and then every file is committed, in place and accounted for. */
  lemma WireToDisk(
    shipments: seq<Shipment>, root: Path, disk: Disk, processId: nat, choices: seq<Choice>, buffers: Buffers,
    wr: Writing, c: ChannelState, d: ChannelState, frames: seq<OfflineFrame>, ivs: seq<bytes>, k: nat)
    requires |choices| == |shipments|
    requires Prepare(IntroductionOf(shipments), root, disk, processId, choices).result.Ok?
    requires PreparedApart(Prepare(IntroductionOf(shipments), root, disk, processId, choices))
    requires |ivs| == |frames| && Connected(wr, c, d, shipments, ivs) && Outgoing(shipments, frames)
    requires k <= |SendAll(wr.codec, c, frames, ivs).wire|
    ensures var prepared := Prepare(IntroductionOf(shipments), root, disk, processId, choices);
            var w := StartOf(prepared.result.value, prepared.disk, buffers);
            var got := ReceiveFrames(wr.codec, d, SendAll(wr.codec, c, frames, ivs).wire[..k]);
            var out := ReceiveAll(w, Arriving(got.frames));
            && Expecting(w.transfer, shipments)
            && got.end == EndOfStream && got.frames <= frames
            && (out.error.None? <==> AllFit(w, shipments) && NoPayload(frames[|got.frames|..]))
            && (out.error.None? ==> DeliveredAll(w, shipments, out.world) && out.replies == [])
  {
    hide Prepare, ReceiveAll, AllFit, Expecting, Sound, DeliveredAll, Connected, Outgoing, ReceiveFrames, SendAll;
    var prepared := Prepare(IntroductionOf(shipments), root, disk, processId, choices);
    PrepareEstablishesSound(IntroductionOf(shipments), root, disk, processId, choices, buffers);
    PreparedExpects(shipments, root, disk, processId, choices);
    FramesArrive(wr, c, d, shipments, frames, ivs, k);
    var got := ReceiveFrames(wr.codec, d, SendAll(wr.codec, c, frames, ivs).wire[..k]).frames;
    assert got == frames[..|got|];
    PrefixDelivers(StartOf(prepared.result.value, prepared.disk, buffers), shipments, frames, |got|);
  }

  // ------------------------------------------------------------------
  // How many reads a connection can carry

  function FrameCount(shipments: seq<Shipment>): nat {
    if shipments == [] then 0 else |shipments[0].pieces| + 1 + FrameCount(shipments[1..])
  }

  lemma {:induction false} FileFramesCount(file: OutgoingFile, offset: nat, pieces: seq<bytes>)
    ensures |FileFrames(file, offset, pieces)| == |pieces| + 1
    decreases |pieces|
  {
    if pieces != [] {
      FileFramesCount(file, offset + |pieces[0]|, pieces[1..]);
    }
  }

  lemma {:induction false} SentFramesCount(shipments: seq<Shipment>)
    ensures |SentFrames(shipments)| == FrameCount(shipments)
    decreases |shipments|
  {
    if shipments != [] {
      FileFramesCount(shipments[0].file, 0, shipments[0].pieces);
      SentFramesCount(shipments[1..]);
    }
  }

  lemma {:induction false} PayloadsOnly(frames: seq<OfflineFrame>)
    requires forall i :: 0 <= i < |frames| ==> IsPayload(frames[i])
    ensures Frames(Payloads(Arriving(frames))) == frames
  {
    if frames != [] {
      PayloadsOnly(frames[1..]);
      assert Arriving(frames)[1..] == Arriving(frames[1..]) && Arriving(frames)[0].frame == frames[0];
      assert Payloads(Arriving(frames)) == [Arriving(frames)[0]] + Payloads(Arriving(frames[1..]));
      hide Payloads;
      assert Frames(Payloads(Arriving(frames))) == [frames[0]] + Frames(Payloads(Arriving(frames[1..])));
    }
  }

  /** The counter is a limit on the reads. Over a connection that is not cut, and without keep-alives, delivery
      succeeds exactly when the files fit and the chunks, one a read and one more a file, are no more than the
      32-bit counter has left: 100 GiB read a byte at a time never arrive. */
  lemma ReadsWithinTheCounter(
    shipments: seq<Shipment>, root: Path, disk: Disk, processId: nat, choices: seq<Choice>, buffers: Buffers,
    wr: Writing, c: ChannelState, d: ChannelState, ivs: seq<bytes>)
    requires |choices| == |shipments|
    requires Prepare(IntroductionOf(shipments), root, disk, processId, choices).result.Ok?
    requires PreparedApart(Prepare(IntroductionOf(shipments), root, disk, processId, choices))
    requires |ivs| == |SentFrames(shipments)| && Connected(wr, c, d, shipments, ivs)
    ensures var prepared := Prepare(IntroductionOf(shipments), root, disk, processId, choices);
            var w := StartOf(prepared.result.value, prepared.disk, buffers);
            var got := ReceiveFrames(wr.codec, d, SendAll(wr.codec, c, SentFrames(shipments), ivs).wire);
            ReceiveAll(w, Arriving(got.frames)).error.None?
            <==> AllFit(w, shipments) && c.sendSequence + FrameCount(shipments) <= MAX_I32
  {
    var frames := SentFrames(shipments);
    var sent := SendAll(wr.codec, c, frames, ivs);
    PayloadsOnly(frames);
    SentFramesCount(shipments);
    hide Prepare, ReceiveAll, AllFit, Expecting, DeliveredAll, Connected, ReceiveFrames, SendAll, SentFrames, PartsApart;
    assert Outgoing(shipments, frames);
    assert sent.wire[..|sent.wire|] == sent.wire;
    FramesArrive(wr, c, d, shipments, frames, ivs, |sent.wire|);
    WireToDisk(shipments, root, disk, processId, choices, buffers, wr, c, d, frames, ivs, |sent.wire|);
    var n := sent.count;
    assert |frames[..n]| == n;
    ConnectedIsInRange(wr, c, d, shipments, ivs);
    if n < |frames| {
      assert IsPayload(frames[n..][0]);
    }
  }

  lemma ConnectedIsInRange(wr: Writing, c: ChannelState, d: ChannelState, shipments: seq<Shipment>, ivs: seq<bytes>)
    requires Connected(wr, c, d, shipments, ivs)
    ensures InRange(c)
  {
  }
}
