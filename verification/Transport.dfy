/** Length-prefixed framing on a byte stream: src/quick_share_transport.rs. */
module Transport {
  import opened Prelude

  const MAX_WIRE_FRAME_BYTES: int := 5 * 1024 * 1024

  /** What one `read_frame` call finds at the front of a stream that then ends. */
  datatype FrameRead =
    | Frame(frame: bytes, rest: bytes)
    | Eof
    | InvalidLength(length: nat, rest: bytes)

  function FromBigEndian(b: bytes): nat
    requires |b| == 4
  {
    ((b[0] as int * 256 + b[1] as int) * 256 + b[2] as int) * 256 + b[3] as int
  }

  function ToBigEndian(n: nat): (b: bytes)
    requires n < 0x1_0000_0000
    ensures |b| == 4
  {
    [n / 0x100_0000, n / 0x1_0000 % 256, n / 256 % 256, n % 256]
  }

  /** The length prefix is written most significant octet first. */
  lemma PrefixIsBigEndian(b: bytes)
    requires |b| == 4
    ensures FromBigEndian(b) == Value(b)
  {
    assert b[..3][..2] == b[..2] && b[..2][..1] == b[..1] && b[..1][..0] == [];
    assert Value(b[..1]) == b[0] as int;
    assert Value(b[..2]) == Value(b[..1]) * 256 + b[1] as int;
    assert Value(b[..3]) == Value(b[..2]) * 256 + b[2] as int;
  }

  lemma BigEndianRoundTrip(n: nat)
    requires n < 0x1_0000_0000
    ensures FromBigEndian(ToBigEndian(n)) == n
  {
    var hi := n / 256;
    var top := hi / 256;
    assert n / 0x1_0000 == top;
    assert n / 0x100_0000 == top / 256;
  }

  lemma BigEndianInverse(b: bytes)
    requires |b| == 4
    ensures FromBigEndian(b) < 0x1_0000_0000
    ensures ToBigEndian(FromBigEndian(b)) == b
  {
    var n := FromBigEndian(b);
    assert n / 256 == (b[0] as int * 256 + b[1] as int) * 256 + b[2] as int;
    assert n / 0x1_0000 == b[0] as int * 256 + b[1] as int;
    assert n / 0x100_0000 == b[0];
  }

  predicate Sendable(frame: bytes) {
    0 < |frame| <= MAX_WIRE_FRAME_BYTES
  }

  /** The bytes `write_frame` puts on the stream. */
  function Wire(frame: bytes): (w: bytes)
    requires Sendable(frame)
    ensures |w| == 4 + |frame|
  {
    ToBigEndian(|frame|) + frame
  }

  function Read(s: bytes): FrameRead {
    if |s| < 4 then Eof
    else
      var n := FromBigEndian(s[..4]);
      if n == 0 || n > MAX_WIRE_FRAME_BYTES then InvalidLength(n, s[4..])
      else if |s| - 4 < n then Eof
      else Frame(s[4..4 + n], s[4 + n..])
  }

  /** A byte stream as one endpoint sees it: what is still to be read, and what it has written. */
  class Stream {
    var inbound: bytes
    var outbound: bytes

    constructor (incoming: bytes)
      ensures inbound == incoming && outbound == []
    {
      inbound := incoming;
      outbound := [];
    }

    /** `read_exact`: on a short stream everything left is consumed and the call fails. */
    method ReadExact(n: nat) returns (r: Option<bytes>)
      modifies this`inbound
      ensures r == if n <= |old(inbound)| then Some(old(inbound)[..n]) else None
      ensures inbound == if n <= |old(inbound)| then old(inbound)[n..] else []
    {
      if n <= |inbound| {
        r := Some(inbound[..n]);
        inbound := inbound[n..];
      } else {
        r := None;
        inbound := [];
      }
    }

    method ReadFrame() returns (r: FrameRead)
      modifies this`inbound
      ensures r == Read(old(inbound))
      ensures r.Frame? ==> inbound == r.rest
      ensures r.InvalidLength? ==> inbound == r.rest
      ensures r.Eof? ==> inbound == []
    {
      ghost var before := inbound;
      var prefix := ReadExact(4);
      if prefix.None? {
        return Eof;
      }
      var length := FromBigEndian(prefix.value);
      if length == 0 || length > MAX_WIRE_FRAME_BYTES {
        return InvalidLength(length, inbound);
      }
      var frame := ReadExact(length);
      if frame.None? {
        return Eof;
      }
      assert before[4..][..length] == before[4..4 + length];
      assert before[4..][length..] == before[4 + length..];
      r := Frame(frame.value, inbound);
    }

    method WriteFrame(frame: bytes) returns (r: Result<(), nat>)
      modifies this`outbound
      ensures r == if 1 <= |frame| <= 5 * 1024 * 1024 then Ok(()) else Err(|frame|)
      ensures outbound == old(outbound) + if Sendable(frame) then Wire(frame) else []
    {
      if |frame| == 0 || |frame| > MAX_WIRE_FRAME_BYTES {
        return Err(|frame|);
      }
      outbound := outbound + ToBigEndian(|frame|);
      outbound := outbound + frame;
      r := Ok(());
    }
  }

  /** Reading inverts writing, and leaves what follows untouched. */
  lemma ReadAfterWrite(frame: bytes, tail: bytes)
    requires Sendable(frame)
    ensures Read(Wire(frame) + tail) == Frame(frame, tail)
  {
    var s := Wire(frame) + tail;
    BigEndianRoundTrip(|frame|);
    assert s[..4] == ToBigEndian(|frame|);
    assert s[4..4 + |frame|] == frame;
    assert s[4 + |frame|..] == tail;
  }

  /** Writing inverts reading: a frame is read only where exactly its own encoding stands. */
  lemma WriteAfterRead(s: bytes)
    requires Read(s).Frame?
    ensures Sendable(Read(s).frame)
    ensures s == Wire(Read(s).frame) + Read(s).rest
  {
    BigEndianInverse(s[..4]);
    var n := FromBigEndian(s[..4]);
    assert s == s[..4] + s[4..4 + n] + s[4 + n..];
  }

  predicate AllSendable(frames: seq<bytes>) {
    forall i :: 0 <= i < |frames| ==> Sendable(frames[i])
  }

  function WriteAll(frames: seq<bytes>): bytes
    requires AllSendable(frames)
  {
    if frames == [] then [] else Wire(frames[0]) + WriteAll(frames[1..])
  }

  /** Read until the stream no longer yields a frame. */
  function ReadAll(s: bytes): (r: (seq<bytes>, FrameRead))
    ensures !r.1.Frame?
    decreases |s|
  {
    match Read(s)
    case Frame(f, rest) =>
      var more := ReadAll(rest);
      ([f] + more.0, more.1)
    case Eof => ([], Eof)
    case InvalidLength(n, rest) => ([], InvalidLength(n, rest))
  }

  lemma ReadAllStep(frame: bytes, rest: bytes)
    requires Sendable(frame)
    ensures ReadAll(Wire(frame) + rest) == ([frame] + ReadAll(rest).0, ReadAll(rest).1)
  {
    ReadAfterWrite(frame, rest);
  }

  lemma WriteAllStep(frames: seq<bytes>, tail: bytes)
    requires AllSendable(frames) && frames != []
    ensures WriteAll(frames) + tail == Wire(frames[0]) + (WriteAll(frames[1..]) + tail)
  {
  }

  lemma {:induction false} ReadAllAfterWriteAll(frames: seq<bytes>, tail: bytes)
    requires AllSendable(frames)
    ensures ReadAll(WriteAll(frames) + tail).0 == frames + ReadAll(tail).0
    ensures ReadAll(WriteAll(frames) + tail).1 == ReadAll(tail).1
  {
    if frames == [] {
      assert WriteAll(frames) + tail == tail;
    } else {
      var head, rest := frames[0], WriteAll(frames[1..]) + tail;
      WriteAllStep(frames, tail);
      ReadAllAfterWriteAll(frames[1..], tail);
      ReadAllStep(head, rest);
      calc {
        ReadAll(WriteAll(frames) + tail).0;
        ReadAll(Wire(head) + rest).0;
        [head] + ReadAll(rest).0;
        [head] + (frames[1..] + ReadAll(tail).0);
        { ConsSplit(frames, ReadAll(tail).0); }
        frames + ReadAll(tail).0;
      }
    }
  }

  /** How many whole frames survive when a written stream is cut after `k` bytes. */
  function WholeFrames(frames: seq<bytes>, k: nat): (n: nat)
    requires AllSendable(frames) && k <= |WriteAll(frames)|
    ensures n <= |frames|
  {
    if frames == [] || k < |Wire(frames[0])| then 0
    else 1 + WholeFrames(frames[1..], k - |Wire(frames[0])|)
  }

  lemma CutFrameIsEof(frame: bytes, k: nat)
    requires Sendable(frame) && k < |Wire(frame)|
    ensures Read(Wire(frame)[..k]) == Eof
  {
    var s := Wire(frame)[..k];
    if k >= 4 {
      assert s[..4] == ToBigEndian(|frame|);
      BigEndianRoundTrip(|frame|);
    }
  }

  lemma EmptyIsEof()
    ensures Read([]) == Eof
  {
  }

  lemma CutInFirst(frames: seq<bytes>, k: nat)
    requires AllSendable(frames) && frames != [] && k < |Wire(frames[0])|
    ensures k <= |WriteAll(frames)| && Read(WriteAll(frames)[..k]) == Eof
  {
    assert WriteAll(frames)[..k] == Wire(frames[0])[..k];
    CutFrameIsEof(frames[0], k);
  }

  lemma CutLater(frames: seq<bytes>, k: nat)
    requires AllSendable(frames) && frames != [] && |Wire(frames[0])| <= k <= |WriteAll(frames)|
    ensures WriteAll(frames)[..k] == Wire(frames[0]) + WriteAll(frames[1..])[..k - |Wire(frames[0])|]
  {
  }

  /** A connection cut at any byte yields a prefix of the frames and then end of file:
      never a frame that was not written, and never a bad length. */
  lemma {:induction false} CutStreamIsPrefix(frames: seq<bytes>, k: nat)
    requires AllSendable(frames) && k <= |WriteAll(frames)|
    ensures ReadAll(WriteAll(frames)[..k]) == (frames[..WholeFrames(frames, k)], Eof)
  {
    hide Wire, Read, ToBigEndian, FromBigEndian;
    if frames == [] {
      EmptyIsEof();
    } else if k < |Wire(frames[0])| {
      CutInFirst(frames, k);
    } else {
      var w := |Wire(frames[0])|;
      CutLater(frames, k);
      ReadAllStep(frames[0], WriteAll(frames[1..])[..k - w]);
      CutStreamIsPrefix(frames[1..], k - w);
      var n := WholeFrames(frames[1..], k - w);
      assert frames[..1 + n] == [frames[0]] + frames[1..][..n];
    }
  }
}
