/** `send_encrypted_offline` and `read_encrypted_offline`: the channel on top of the framing.
    The Protocol Buffers form of a packet is a parameter with its inverse. */
module Layers {
  import opened Prelude
  import opened WireMessages
  import opened Transport
  import opened SecureChannels

  datatype PacketCodec = PacketCodec(encode: Packet -> bytes, decode: bytes -> Packet)

  ghost predicate Inverse(codec: PacketCodec) {
    forall p :: codec.decode(codec.encode(p)) == p
  }

  /** The packets one endpoint writes for a list of frames, starting after sequence number `n`. */
  function SealAll(codec: PacketCodec, keys: SessionKeys, n: nat, frames: seq<OfflineFrame>, ivs: seq<bytes>): (r: seq<bytes>)
    requires |frames| == |ivs|
    ensures |r| == |frames|
    ensures forall i :: 0 <= i < |r| ==> r[i] == codec.encode(Seal(keys, frames[i], n + 1 + i, ivs[i]))
  {
    seq(|frames|, i requires 0 <= i < |frames| => codec.encode(Seal(keys, frames[i], n + 1 + i, ivs[i])))
  }

  datatype Received = Received(frames: seq<OfflineFrame>, channel: ChannelState, end: End)
  datatype End = EndOfStream | BadLength | BadCrypto(error: ChannelError)

  /** Read and decrypt until something stops the endpoint. */
  function ReceiveFrames(codec: PacketCodec, c: ChannelState, s: bytes): Received
    decreases |s|
  {
    match Read(s)
    case Eof => Received([], c, EndOfStream)
    case InvalidLength(_, _) => Received([], c, BadLength)
    case Frame(raw, rest) =>
      var (c', r) := Decrypt(c, codec.decode(raw));
      if r.Err? then Received([], c', BadCrypto(r.error))
      else
        var more := ReceiveFrames(codec, c', rest);
        Received([r.value] + more.frames, more.channel, more.end)
  }

  /** `c` writes to `d`: same keys in this direction, and `d` expects the number `c` uses next. */
  predicate InStep(c: ChannelState, d: ChannelState) {
    && c.keys.encryptKey == d.keys.decryptKey && c.keys.sendHmacKey == d.keys.receiveHmacKey
    && c.sendSequence == d.receiveSequence
  }

  function Advance(d: ChannelState, n: nat): ChannelState {
    d.(receiveSequence := d.receiveSequence + n)
  }

  lemma DecryptSeal(c: ChannelState, d: ChannelState, frame: OfflineFrame, iv: bytes)
    requires InStep(c, d) && 0 <= c.sendSequence < MAX_I32 && |iv| == 16
    ensures Decrypt(d, Seal(c.keys, frame, c.sendSequence + 1, iv)) == (Advance(d, 1), Ok(frame))
  {
  }

  function Prepend(frame: OfflineFrame, more: Received): Received {
    Received([frame] + more.frames, more.channel, more.end)
  }

  lemma ReceiveStep(codec: PacketCodec, c: ChannelState, d: ChannelState, frame: OfflineFrame, iv: bytes, rest: bytes)
    requires Inverse(codec) && InStep(c, d) && 0 <= c.sendSequence < MAX_I32 && |iv| == 16
    requires Sendable(codec.encode(Seal(c.keys, frame, c.sendSequence + 1, iv)))
    ensures var raw := codec.encode(Seal(c.keys, frame, c.sendSequence + 1, iv));
            ReceiveFrames(codec, d, Wire(raw) + rest) == Prepend(frame, ReceiveFrames(codec, Advance(d, 1), rest))
  {
    var raw := codec.encode(Seal(c.keys, frame, c.sendSequence + 1, iv));
    ReadAfterWrite(raw, rest);
    DecryptSeal(c, d, frame, iv);
    assert codec.decode(raw) == Seal(c.keys, frame, c.sendSequence + 1, iv);
  }

  lemma ReceiveNothing(codec: PacketCodec, d: ChannelState, s: bytes)
    requires Read(s) == Eof
    ensures ReceiveFrames(codec, d, s) == Received([], d, EndOfStream)
  {
  }

  lemma FirstAndRest(d: ChannelState, frames: seq<OfflineFrame>, n: nat)
    requires 0 < n <= |frames|
    ensures Prepend(frames[0], Received(frames[1..][..n - 1], Advance(Advance(d, 1), n - 1), EndOfStream))
         == Received(frames[..n], Advance(d, n), EndOfStream)
  {
    assert frames[..n] == [frames[0]] + frames[1..][..n - 1];
  }

  /** A stream cut within its first frame gives nothing. */
  lemma NothingArrives(codec: PacketCodec, d: ChannelState, raws: seq<bytes>, k: nat)
    requires AllSendable(raws) && k <= |WriteAll(raws)| && (raws == [] || k < |Wire(raws[0])|)
    ensures ReceiveFrames(codec, d, WriteAll(raws)[..k]) == Received([], d, EndOfStream) && WholeFrames(raws, k) == 0
  {
    if raws == [] {
      assert WriteAll(raws)[..k] == [];
      EmptyIsEof();
    } else {
      CutInFirst(raws, k);
    }
    ReceiveNothing(codec, d, WriteAll(raws)[..k]);
  }

  /** The first packet of the stream is read, and then the rest of it. */
  lemma FirstArrives(
    codec: PacketCodec, c: ChannelState, d: ChannelState, frames: seq<OfflineFrame>, ivs: seq<bytes>, raws: seq<bytes>, k: nat)
    requires Inverse(codec) && InStep(c, d) && 0 <= c.sendSequence < MAX_I32 && |ivs| == |frames| > 0 && |ivs[0]| == 16
    requires raws == SealAll(codec, c.keys, c.sendSequence, frames, ivs) && AllSendable(raws)
    requires |Wire(raws[0])| <= k <= |WriteAll(raws)|
    ensures var w := |Wire(raws[0])|;
            ReceiveFrames(codec, d, WriteAll(raws)[..k])
            == Prepend(frames[0], ReceiveFrames(codec, Advance(d, 1), WriteAll(raws[1..])[..k - w]))
  {
    hide Seal, ReceiveFrames, Prepend, Inverse;
    CutLater(raws, k);
    ReceiveStep(codec, c, d, frames[0], ivs[0], WriteAll(raws[1..])[..k - |Wire(raws[0])|]);
  }

  lemma OneFurther(codec: PacketCodec, c: ChannelState, d: ChannelState, frames: seq<OfflineFrame>, ivs: seq<bytes>, raws: seq<bytes>)
    requires InStep(c, d) && InRange(c) && |ivs| == |frames| > 0 && c.sendSequence < MAX_I32
    requires raws == SealAll(codec, c.keys, c.sendSequence, frames, ivs)
    ensures var next := c.(sendSequence := c.sendSequence + 1);
            && InStep(next, Advance(d, 1)) && InRange(next)
            && raws[1..] == SealAll(codec, next.keys, next.sendSequence, frames[1..], ivs[1..])
  {
    hide Seal;
  }

  /** The whole stack, end to end: the frames handed to one endpoint come out of the other in order. If the
      connection is cut after `k` bytes, what comes out is exactly the frames whose last byte arrived,
      followed by end of stream; nothing is altered, repeated or invented, and the channel stays in step. */
  lemma {:induction false} StackDelivers(
    codec: PacketCodec, c: ChannelState, d: ChannelState, frames: seq<OfflineFrame>, ivs: seq<bytes>, k: nat)
    requires Inverse(codec) && InStep(c, d) && InRange(c) && |ivs| == |frames|
    requires forall i :: 0 <= i < |ivs| ==> |ivs[i]| == 16
    requires c.sendSequence + |frames| <= MAX_I32
    requires AllSendable(SealAll(codec, c.keys, c.sendSequence, frames, ivs))
    requires k <= |WriteAll(SealAll(codec, c.keys, c.sendSequence, frames, ivs))|
    ensures var raws := SealAll(codec, c.keys, c.sendSequence, frames, ivs);
            var n := WholeFrames(raws, k);
            ReceiveFrames(codec, d, WriteAll(raws)[..k]) == Received(frames[..n], Advance(d, n), EndOfStream)
    decreases |frames|
  {
    hide Wire, Seal, ReceiveFrames, Inverse, Prepend, InStep, SealAll;
    var raws := SealAll(codec, c.keys, c.sendSequence, frames, ivs);
    if raws == [] || k < |Wire(raws[0])| {
      NothingArrives(codec, d, raws, k);
      assert frames[..0] == [];
    } else {
      var next, k' := c.(sendSequence := c.sendSequence + 1), k - |Wire(raws[0])|;
      OneFurther(codec, c, d, frames, ivs, raws);
      FirstArrives(codec, c, d, frames, ivs, raws, k);
      assert |WriteAll(raws)| == |Wire(raws[0])| + |WriteAll(raws[1..])|;
      StackDelivers(codec, next, Advance(d, 1), frames[1..], ivs[1..], k');
      FirstAndRest(d, frames, WholeFrames(raws, k));
    }
  }
}
