/** What the sender puts on the channel for its files (src/quick_share_sender.rs:229-259, :499-528, :622-653). */
module Sending {
  import opened Prelude
  import opened WireMessages

  const FILE_CHUNK_BYTES: int := 512 * 1024

  datatype OutgoingFile = OutgoingFile(name: string, parentFolder: Option<string>, size: i64, payloadId: int)

  /** A file together with what the successive reads of it return; a read of nothing ends the file. */
  datatype Shipment = Shipment(file: OutgoingFile, pieces: seq<bytes>)

  predicate ReadsFit(s: Shipment) {
    forall i :: 0 <= i < |s.pieces| ==> 0 < |s.pieces[i]| <= FILE_CHUNK_BYTES
  }

  function Source(s: Shipment): bytes {
    Concat(s.pieces)
  }

  function ChunkFrame(file: OutgoingFile, offset: nat, body: bytes, last: bool): OfflineFrame {
    PayloadFrame(
      file.payloadId, PAYLOAD_FILE, file.size,
      PayloadChunk(Some(if last then LAST_CHUNK else 0), Some(AsI64(offset)), Some(body)))
  }

  /** The chunks of one file from `offset` on, and the empty terminator. */
  function FileFrames(file: OutgoingFile, offset: nat, pieces: seq<bytes>): (r: seq<OfflineFrame>)
    ensures forall i :: 0 <= i < |r| ==> IsPayload(r[i])
    decreases |pieces|
  {
    if pieces == [] then [ChunkFrame(file, offset, [], true)]
    else [ChunkFrame(file, offset, pieces[0], false)] + FileFrames(file, offset + |pieces[0]|, pieces[1..])
  }

  /** The frame names the file's payload, as a file, and its whole size. */
  predicate HeadedBy(frame: OfflineFrame, file: OutgoingFile) {
    && frame.v1.Some? && frame.v1.value.payloadTransfer.Some?
    && frame.v1.value.payloadTransfer.value.header
       == Some(PayloadHeader(Some(file.payloadId), Some(PAYLOAD_FILE), Some(file.size)))
  }

  /** Frame `i` of a file: its header, and its chunk at the offset of what stands before; the last one is empty. */
  lemma {:induction false} FileFrameAt(file: OutgoingFile, offset: nat, pieces: seq<bytes>, i: nat)
    requires i <= |pieces|
    ensures var frames := FileFrames(file, offset, pieces);
            && |frames| == |pieces| + 1 && HeadedBy(frames[i], file)
            && frames[i].v1.value.payloadTransfer.value.chunk == Some(PayloadChunk(
                 Some(if i == |pieces| then 1 else 0), Some(AsI64(offset + |Concat(pieces[..i])|)),
                 Some(if i == |pieces| then [] else pieces[i])))
    decreases |pieces|
  {
    if i > 0 {
      FileFrameAt(file, offset + |pieces[0]|, pieces[1..], i - 1);
      assert pieces[..i] == [pieces[0]] + pieces[1..][..i - 1] && pieces[..i][1..] == pieces[1..][..i - 1];
    } else {
      assert pieces[..0] == [];
      if pieces != [] {
        FileFrameAt(file, offset + |pieces[0]|, pieces[1..], 0);
      }
    }
  }

  lemma FileFramesHeaded(file: OutgoingFile, offset: nat, pieces: seq<bytes>)
    ensures forall i :: 0 <= i < |FileFrames(file, offset, pieces)| ==> HeadedBy(FileFrames(file, offset, pieces)[i], file)
  {
    forall i | 0 <= i < |FileFrames(file, offset, pieces)|
      ensures HeadedBy(FileFrames(file, offset, pieces)[i], file)
    {
      FileFrameAt(file, offset, pieces, 0);
      FileFrameAt(file, offset, pieces, i);
    }
  }

  function SentFrames(shipments: seq<Shipment>): (r: seq<OfflineFrame>)
    ensures forall i :: 0 <= i < |r| ==> IsPayload(r[i])
  {
    if shipments == [] then []
    else FileFrames(shipments[0].file, 0, shipments[0].pieces) + SentFrames(shipments[1..])
  }

  /** The files' frames stand one file after the other. */
  lemma {:induction false} SentFramesAt(shipments: seq<Shipment>, k: nat, i: nat)
    requires k < |shipments| && i <= |shipments[k].pieces|
    ensures var before := |SentFrames(shipments[..k])|;
            var frames := FileFrames(shipments[k].file, 0, shipments[k].pieces);
            && |frames| == |shipments[k].pieces| + 1 && before + |frames| <= |SentFrames(shipments)|
            && SentFrames(shipments)[before + i] == frames[i]
            && HeadedBy(SentFrames(shipments)[before + i], shipments[k].file)
    decreases k
  {
    var first := FileFrames(shipments[0].file, 0, shipments[0].pieces);
    FileFrameAt(shipments[k].file, 0, shipments[k].pieces, i);
    if k == 0 {
      assert shipments[..0] == [];
    } else {
      SentFramesAt(shipments[1..], k - 1, i);
      assert shipments[..k][1..] == shipments[1..][..k - 1] && shipments[..k][0] == shipments[0];
      hide FileFrames, HeadedBy;
      assert SentFrames(shipments[..k]) == first + SentFrames(shipments[1..][..k - 1]);
    }
  }

  ghost predicate HeadedByOne(frame: OfflineFrame, shipments: seq<Shipment>) {
    exists k :: 0 <= k < |shipments| && HeadedBy(frame, shipments[k].file)
  }

  lemma {:induction false} SentFramesHeaded(shipments: seq<Shipment>)
    ensures forall i :: 0 <= i < |SentFrames(shipments)| ==> HeadedByOne(SentFrames(shipments)[i], shipments)
  {
    if shipments != [] {
      var first := FileFrames(shipments[0].file, 0, shipments[0].pieces);
      FileFramesHeaded(shipments[0].file, 0, shipments[0].pieces);
      SentFramesHeaded(shipments[1..]);
      hide HeadedBy, FileFrames;
      forall i | 0 <= i < |SentFrames(shipments)|
        ensures HeadedByOne(SentFrames(shipments)[i], shipments)
      {
        if i < |first| {
          assert HeadedBy(first[i], shipments[0].file);
        } else {
          var frame := SentFrames(shipments[1..])[i - |first|];
          assert HeadedByOne(frame, shipments[1..]);
          var k :| 0 <= k < |shipments[1..]| && HeadedBy(frame, shipments[1..][k].file);
          assert HeadedBy(frame, shipments[k + 1].file);
        }
      }
    }
  }

  function IntroductionOf(shipments: seq<Shipment>): Introduction {
    Introduction(MetadataOf(shipments), [], [])
  }

  function MetadataOf(shipments: seq<Shipment>): (r: seq<FileMetadata>)
    ensures |r| == |shipments|
  {
    if shipments == [] then []
    else
      var f := shipments[0].file;
      [FileMetadata(Some(f.name), Some(f.payloadId), Some(f.size), f.parentFolder)] + MetadataOf(shipments[1..])
  }

  function TotalRead(shipments: seq<Shipment>): nat {
    if shipments == [] then 0 else |Source(shipments[0])| + TotalRead(shipments[1..])
  }

  class FrameSink {
    var frames: seq<OfflineFrame>

    constructor ()
      ensures frames == []
    {
      frames := [];
    }

    method SendFileChunk(file: OutgoingFile, offset: nat, body: bytes, last: bool)
      modifies this
      ensures frames == old(frames) + [ChunkFrame(file, offset, body, last)]
    {
      frames := frames + [ChunkFrame(file, offset, body, last)];
    }
  }

  lemma FileFramesSplit(file: OutgoingFile, offset: nat, done: seq<bytes>, rest: seq<bytes>)
    requires rest != []
    ensures |Concat(done + [rest[0]])| == |Concat(done)| + |rest[0]|
    ensures FileFrames(file, offset, rest) ==
            [ChunkFrame(file, offset, rest[0], false)] + FileFrames(file, offset + |rest[0]|, rest[1..])
  {
    ConcatAppend(done, rest[0]);
  }

  /** The inner loop of `send_prepared_files`: one file, read by read, and its terminator. */
  method SendFile(file: OutgoingFile, pieces: seq<bytes>, sink: FrameSink) returns (offset: nat)
    modifies sink
    ensures sink.frames == old(sink.frames) + FileFrames(file, 0, pieces)
    ensures forall i :: |old(sink.frames)| <= i < |sink.frames| ==> HeadedBy(sink.frames[i], file)
    ensures offset == |Concat(pieces)|
  {
    offset := 0;
    var i := 0;
    assert pieces[..0] == [] && pieces[0..] == pieces;
    while i < |pieces|
      invariant 0 <= i <= |pieces|
      invariant offset == |Concat(pieces[..i])|
      invariant sink.frames + FileFrames(file, offset, pieces[i..]) == old(sink.frames) + FileFrames(file, 0, pieces)
    {
      FileFramesSplit(file, offset, pieces[..i], pieces[i..]);
      assert pieces[..i] + [pieces[i]] == pieces[..i + 1];
      assert pieces[i..][1..] == pieces[i + 1..];
      sink.SendFileChunk(file, offset, pieces[i], false);
      offset := offset + |pieces[i]|;
      i := i + 1;
    }
    assert pieces[..i] == pieces && pieces[i..] == [];
    sink.SendFileChunk(file, offset, [], true);
    FileFramesHeaded(file, 0, pieces);
  }

  /** The outer loop: every file in turn. */
  method SendPreparedFiles(shipments: seq<Shipment>, sink: FrameSink) returns (sentBytes: nat)
    modifies sink
    ensures sink.frames == old(sink.frames) + SentFrames(shipments)
    ensures forall i :: |old(sink.frames)| <= i < |sink.frames| ==> HeadedByOne(sink.frames[i], shipments)
    ensures sentBytes == TotalRead(shipments)
  {
    sentBytes := 0;
    var k := 0;
    assert shipments[0..] == shipments;
    while k < |shipments|
      invariant 0 <= k <= |shipments|
      invariant sink.frames + SentFrames(shipments[k..]) == old(sink.frames) + SentFrames(shipments)
      invariant sentBytes + TotalRead(shipments[k..]) == TotalRead(shipments)
    {
      assert shipments[k..][1..] == shipments[k + 1..];
      var sent := SendFile(shipments[k].file, shipments[k].pieces, sink);
      sentBytes := sentBytes + sent;
      k := k + 1;
    }
    assert shipments[k..] == [];
    SentFramesHeaded(shipments);
  }
}
