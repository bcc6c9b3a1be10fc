/** The decoded messages of src/quick_share_wire.rs, with the fields the protocol code reads.
    Every field that is `optional` on the wire is an Option here; enumerations keep their numbers. */
module WireMessages {
  import opened Prelude

  const PAYLOAD_TRANSFER: int := 3
  const KEEP_ALIVE: int := 5
  const DISCONNECTION: int := 6

  const PAYLOAD_BYTES: int := 1
  const PAYLOAD_FILE: int := 2

  const LAST_CHUNK: int := 1

  datatype OfflineFrame = OfflineFrame(v1: Option<OfflineV1>)

  datatype OfflineV1 = OfflineV1(
    frameType: Option<int>,
    payloadTransfer: Option<PayloadTransfer>,
    keepAlive: Option<KeepAlive>,
    disconnection: Option<Disconnection>)

  datatype PayloadTransfer = PayloadTransfer(header: Option<PayloadHeader>, chunk: Option<PayloadChunk>)

  datatype PayloadHeader = PayloadHeader(id: Option<int>, payloadType: Option<int>, totalSize: Option<int>)

  datatype PayloadChunk = PayloadChunk(flags: Option<int>, offset: Option<int>, body: Option<bytes>)

  datatype KeepAlive = KeepAlive(ack: Option<bool>, seqNum: Option<int>)

  datatype Disconnection = Disconnection(requestSafe: Option<bool>, ackSafe: Option<bool>)

  const INTRODUCTION: int := 1
  const RESPONSE: int := 2
  const PAIRED_KEY_ENCRYPTION: int := 3
  const PAIRED_KEY_RESULT: int := 4

  const STATUS_ACCEPT: int := 1
  const STATUS_REJECT: int := 2

  const TEXT_URL: int := 2

  datatype SharingFrame = SharingFrame(v1: Option<SharingV1>)

  datatype SharingV1 = SharingV1(
    frameType: Option<int>,
    introduction: Option<Introduction>,
    connectionResponse: Option<SharingResponse>)

  datatype SharingResponse = SharingResponse(status: Option<int>)

  datatype Introduction = Introduction(files: seq<FileMetadata>, texts: seq<TextMetadata>, previews: seq<int>)

  datatype FileMetadata = FileMetadata(
    name: Option<string>,
    payloadId: Option<int>,
    size: Option<i64>,
    parentFolder: Option<string>)

  datatype TextMetadata = TextMetadata(textType: Option<int>, payloadId: Option<int>, size: Option<i64>)

  function OfFrameType(frameType: int): OfflineFrame {
    OfflineFrame(Some(OfflineV1(Some(frameType), None, None, None)))
  }

  function KeepAliveFrame(ack: bool, seqNum: Option<int>): OfflineFrame {
    OfflineFrame(Some(OfflineV1(Some(KEEP_ALIVE), None, Some(KeepAlive(Some(ack), seqNum)), None)))
  }

  function PayloadFrame(id: int, payloadType: int, total: int, chunk: PayloadChunk): OfflineFrame {
    var header := PayloadHeader(Some(id), Some(payloadType), Some(total));
    OfflineFrame(Some(OfflineV1(Some(PAYLOAD_TRANSFER), Some(PayloadTransfer(Some(header), Some(chunk))), None, None)))
  }

  predicate IsKeepAlive(f: OfflineFrame) {
    f.v1.Some? && f.v1.value.frameType == Some(KEEP_ALIVE)
  }

  predicate IsPayload(f: OfflineFrame) {
    f.v1.Some? && f.v1.value.frameType == Some(PAYLOAD_TRANSFER)
  }

  predicate IsDisconnection(f: OfflineFrame) {
    f.v1.Some? && f.v1.value.frameType == Some(DISCONNECTION)
  }

  /** Every read loop answers a keep-alive that is not itself an acknowledgement, and nothing else. */
  predicate WantsAck(f: OfflineFrame) {
    IsKeepAlive(f) && !(f.v1.value.keepAlive.Some? && GetOr(f.v1.value.keepAlive.value.ack, false))
  }

  /** The acknowledgement carries the sequence number of the keep-alive it answers. */
  function AckFor(f: OfflineFrame): OfflineFrame
    requires IsKeepAlive(f)
  {
    var keepAlive := f.v1.value.keepAlive;
    KeepAliveFrame(true, if keepAlive.Some? then keepAlive.value.seqNum else None)
  }

  function Replies(f: OfflineFrame): (r: seq<OfflineFrame>)
    ensures forall a :: a in r ==> IsKeepAlive(a) && !WantsAck(a)
  {
    if WantsAck(f) then [AckFor(f)] else []
  }

  /** A frame is answered exactly when it is a keep-alive whose acknowledgement flag is not set, missing ones included;
      the answer is one keep-alive with the flag set and the same sequence number, if any. */
  lemma RepliesIff(f: OfflineFrame)
    ensures var asks :=
              && f.v1.Some? && f.v1.value.frameType == Some(KEEP_ALIVE)
              && (f.v1.value.keepAlive.Some? ==> f.v1.value.keepAlive.value.ack != Some(true));
            if !asks then Replies(f) == []
            else
              var number := if f.v1.value.keepAlive.Some? then f.v1.value.keepAlive.value.seqNum else None;
              Replies(f) == [OfflineFrame(Some(OfflineV1(Some(KEEP_ALIVE), None, Some(KeepAlive(Some(true), number)), None)))]
  {
  }
}
