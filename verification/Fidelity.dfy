/** The receiver commits exactly the bytes the sender read: from the list of files, through the sender's
    frames with anything harmless in between, to the files on the receiver's disk. */
module Fidelity {
  import opened Prelude
  import opened WireMessages
  import opened Assembler
  import opened Paths
  import opened Transfers
  import opened TransferInvariant
  import opened Preparation
  import opened Sending

  // ------------------------------------------------------------------
  // Frames that do not matter

  /** No disconnection, no frame without a body, no disk failure: keep-alives and unknown types may stand
      anywhere between the payload frames. */
  predicate Benign(arrivals: seq<Arrival>) {
    forall i :: 0 <= i < |arrivals| ==>
      arrivals[i].frame.v1.Some? && !IsDisconnection(arrivals[i].frame) && arrivals[i].env.fault == NoFault
  }

  function Payloads(arrivals: seq<Arrival>): (r: seq<Arrival>)
    ensures forall i :: 0 <= i < |r| ==> r[i] in arrivals && IsPayload(r[i].frame)
  {
    if arrivals == [] then []
    else if IsPayload(arrivals[0].frame) then [arrivals[0]] + Payloads(arrivals[1..])
    else Payloads(arrivals[1..])
  }

  function Frames(arrivals: seq<Arrival>): (r: seq<OfflineFrame>)
    ensures |r| == |arrivals| && forall i :: 0 <= i < |r| ==> r[i] == arrivals[i].frame
  {
    seq(|arrivals|, i requires 0 <= i < |arrivals| => arrivals[i].frame)
  }

  /** The frames as they arrive when no local failure is in the way. */
  function Arriving(frames: seq<OfflineFrame>): (r: seq<Arrival>)
    ensures |r| == |frames| && forall i :: 0 <= i < |r| ==> r[i] == Arrival(frames[i], Env(NoFault, 0, 0))
  {
    seq(|frames|, i requires 0 <= i < |frames| => Arrival(frames[i], Env(NoFault, 0, 0)))
  }

  function AllReplies(arrivals: seq<Arrival>): seq<OfflineFrame> {
    if arrivals == [] then [] else Replies(arrivals[0].frame) + AllReplies(arrivals[1..])
  }

  /** Payload frames without failures are what they are. */
  lemma {:induction false} PlainArrivals(arrivals: seq<Arrival>)
    requires forall i :: 0 <= i < |arrivals| ==> IsPayload(arrivals[i].frame) && arrivals[i].env.fault == NoFault
    ensures Payloads(arrivals) == arrivals && Benign(arrivals)
  {
    if arrivals != [] {
      PlainArrivals(arrivals[1..]);
    }
  }

  lemma {:induction false} NoiseIsHarmless(w: World, arrivals: seq<Arrival>)
    requires Benign(arrivals)
    ensures var all, pure := ReceiveAll(w, arrivals), ReceiveAll(w, Payloads(arrivals));
            all.world == pure.world && all.error == pure.error && Payloads(all.rest) == pure.rest
    decreases |arrivals|
  {
    hide ReceivePayload;
    if !Finished(w.transfer) && arrivals != [] {
      var step := Handle(w, arrivals[0].frame, arrivals[0].env);
      if step.error.None? {
        NoiseIsHarmless(step.world, arrivals[1..]);
      }
    }
  }

  lemma AllRepliesCons(arrivals: seq<Arrival>)
    requires arrivals != []
    ensures AllReplies(arrivals) == Replies(arrivals[0].frame) + AllReplies(arrivals[1..])
  {
  }

  /** The receiver answers exactly the keep-alives it reads that are not acknowledgements, in order; what it
      does not read is the end of what arrived. */
  lemma {:induction false} RepliesAreAcks(w: World, arrivals: seq<Arrival>)
    requires ReceiveAll(w, arrivals).error.None?
    ensures var out := ReceiveAll(w, arrivals);
            && out.rest == arrivals[|arrivals| - |out.rest|..]
            && out.replies == AllReplies(arrivals[..|arrivals| - |out.rest|])
    decreases |arrivals|
  {
    hide Handle, AllReplies, Replies;
    if Finished(w.transfer) {
      assert AllReplies([]) == [] by { NoReplies(); }
    } else {
      var step := Handle(w, arrivals[0].frame, arrivals[0].env);
      RepliesAreAcks(step.world, arrivals[1..]);
      var n := |arrivals| - |ReceiveAll(step.world, arrivals[1..]).rest|;
      SuffixOfTail(arrivals, n - 1);
      AllRepliesCons(arrivals[..n]);
      assert arrivals[..n][1..] == arrivals[1..][..n - 1];
    }
  }

  lemma NoReplies()
    ensures AllReplies([]) == []
  {
  }

  // ------------------------------------------------------------------
  // One file

  /** Nothing stands in the way of renaming onto the destination. */
  predicate Clear(w: World, id: int) {
    id in w.transfer.files &&
    !(w.transfer.files[id].finalPath in w.disk && w.disk[w.transfer.files[id].finalPath].Directory?)
  }

  lemma PieceStep(w: World, file: OutgoingFile, body: bytes, env: Env)
    requires file.payloadId in w.transfer.files && env.fault == NoFault
    ensures var p := w.transfer.files[file.payloadId];
            var step := Handle(w, ChunkFrame(file, p.received, body, false), env);
            if p.received + |body| <= p.expectedSize && p.received + |body| <= MAX_U64
            then step == Stepped(WriteWith(w, file.payloadId, body), None)
            else step == Stepped(w, Some(Protocol))
  {
  }

  lemma TerminatorStep(w: World, file: OutgoingFile, env: Env)
    requires Sound(w) && file.payloadId in w.transfer.files && env.fault == NoFault
    ensures var id := file.payloadId;
            var p := w.transfer.files[id];
            var step := Handle(w, ChunkFrame(file, p.received, [], true), env);
            && (p.received == p.expectedSize && Clear(w, id) ==> step == Stepped(CommitWith(w, id, []), None))
            && (!(p.received == p.expectedSize && Clear(w, id)) ==> step.error.Some?)
  {
    var id := file.payloadId;
    hide Accounts, LogSound;
    WroteNothing(w, id);
    assert WriteChunk(w, id, [], env) == Stepped(w, None);
    CommitOfWhole(w, id, env);
    hide WriteChunk, FinishChunks, PartsSound;
  }

  lemma WroteNothing(w: World, id: int)
    requires Sound(w) && id in w.transfer.files
    ensures WriteWith(w, id, []) == w
  {
    ReceivedWithinTotal(w);
    var p := w.transfer.files[id];
    assert ContentAt(w.disk, p.partPath) + [] == ContentAt(w.disk, p.partPath);
    assert w.disk[p.partPath] == Regular(ContentAt(w.disk, p.partPath));
  }

  lemma CommitOfWhole(w: World, id: int, env: Env)
    requires Sound(w) && id in w.transfer.files && env.fault == NoFault
    ensures var p := w.transfer.files[id];
            if p.received != p.expectedSize then FinishChunks(w, id, env).error == Some(Protocol)
            else if Clear(w, id) then FinishChunks(w, id, env) == Stepped(CommitWith(w, id, []), None)
            else FinishChunks(w, id, env).error == Some(Io)
  {
    if FinishChunks(w, id, env).error.None? {
      FinishChunksIsCommit(w, id, env);
    }
  }

  lemma AppendTwice(disk: Disk, path: Path, a: bytes, b: bytes)
    ensures AppendTo(AppendTo(disk, path, a), path, b) == AppendTo(disk, path, a + b)
  {
    assert ContentAt(disk, path) + a + b == ContentAt(disk, path) + (a + b);
  }

  /** The counter has room for what the file may still take. */
  lemma RoomToAdd(w: World, id: int, n: nat)
    requires Sound(w) && id in w.transfer.files && w.transfer.files[id].received + n <= w.transfer.files[id].expectedSize
    ensures w.transfer.receivedBytes + n <= MAX_U64
  {
    ReceivedWithinTotal(w);
    OneFitsTotal(w, id);
    hide Sound;
  }

  lemma WriteTwice(w: World, id: int, a: bytes, b: bytes)
    requires Sound(w) && id in w.transfer.files
    requires w.transfer.files[id].received + |a| + |b| <= w.transfer.files[id].expectedSize
    ensures WriteWith(WriteWith(w, id, a), id, b) == WriteWith(w, id, a + b)
  {
    RoomToAdd(w, id, |a| + |b|);
    WritesJoin(w, id, a, b);
    hide *;
  }

  lemma WritesJoin(w: World, id: int, a: bytes, b: bytes)
    requires id in w.transfer.files && w.transfer.receivedBytes + |a| + |b| <= MAX_U64
    ensures WriteWith(WriteWith(w, id, a), id, b) == WriteWith(w, id, a + b)
  {
    AppendTwice(w.disk, w.transfer.files[id].partPath, a, b);
    hide AppendTo;
  }

  lemma WriteIsSound(w: World, id: int, body: bytes)
    requires Sound(w) && id in w.transfer.files
    requires w.transfer.files[id].received + |body| <= w.transfer.files[id].expectedSize
    ensures Sound(WriteWith(w, id, body))
  {
    WriteChunkSound(w, id, body, Env(NoFault, 0, 0));
  }

  /** `arrivals` begins with the frames of `file` read as `pieces`, starting at the current offset. */
  predicate Carries(arrivals: seq<Arrival>, frames: seq<OfflineFrame>) {
    && |frames| <= |arrivals|
    && forall i :: 0 <= i < |frames| ==> arrivals[i].frame == frames[i] && arrivals[i].env.fault == NoFault
  }

  /** What was read has the declared length, and the destination is no directory. */
  predicate Fits(w: World, id: int, content: bytes) {
    id in w.transfer.files && w.transfer.files[id].received + |content| == w.transfer.files[id].expectedSize && Clear(w, id)
  }

  /** The world with `content` written to the part file and committed. */
  function Deliver(w: World, id: int, content: bytes): World
    requires id in w.transfer.files
  {
    CommitWith(WriteWith(w, id, content), id, [])
  }

  /** The first `n` arrivals deliver `content` if it fits, and otherwise make the run fail. */
  ghost predicate Delivers(w: World, id: int, content: bytes, arrivals: seq<Arrival>, n: nat) {
    && id in w.transfer.files && n <= |arrivals|
    && (Fits(w, id, content) ==>
          Sound(WriteWith(w, id, content)) && SameEnd(ReceiveAll(w, arrivals), ReceiveAll(Deliver(w, id, content), arrivals[n..])))
    && (!Fits(w, id, content) ==> ReceiveAll(w, arrivals).error.Some?)
  }

  lemma ReceiveOne(w: World, arrivals: seq<Arrival>)
    requires !Finished(w.transfer) && arrivals != []
    ensures var step := Handle(w, arrivals[0].frame, arrivals[0].env);
            if step.error.Some? then ReceiveAll(w, arrivals).error.Some?
            else SameEnd(ReceiveAll(w, arrivals), ReceiveAll(step.world, arrivals[1..]))
  {
  }

  lemma NoFrameLeft(w: World, file: OutgoingFile, arrivals: seq<Arrival>)
    requires Sound(w) && file.payloadId in w.transfer.files
    requires Carries(arrivals, FileFrames(file, w.transfer.files[file.payloadId].received, []))
    ensures Delivers(w, file.payloadId, [], arrivals, 1)
  {
    hide Sound, Handle, CommitWith, WriteWith, Clear, ReceiveAll;
    var id := file.payloadId;
    assert arrivals[0].frame == ChunkFrame(file, w.transfer.files[id].received, [], true);
    hide ChunkFrame;
    ReceiveOne(w, arrivals);
    TerminatorStep(w, file, arrivals[0].env);
    WroteNothing(w, id);
  }

  lemma OnePieceMore(w: World, id: int, piece: bytes, rest: bytes, arrivals: seq<Arrival>, n: nat)
    requires Sound(w) && id in w.transfer.files
    requires w.transfer.files[id].received + |piece| <= w.transfer.files[id].expectedSize
    requires n < |arrivals| && SameEnd(ReceiveAll(w, arrivals), ReceiveAll(WriteWith(w, id, piece), arrivals[1..]))
    requires Delivers(WriteWith(w, id, piece), id, rest, arrivals[1..], n)
    ensures Delivers(w, id, piece + rest, arrivals, n + 1)
  {
    AfterWrite(w, id, piece);
    if Fits(w, id, piece + rest) {
      WriteTwice(w, id, piece, rest);
    }
    assert arrivals[1..][n..] == arrivals[n + 1..];
    hide Sound, Handle, CommitWith, WriteWith, Clear, ReceiveAll;
  }

  /** One file's frames: the run goes on with that file committed, holding what the part file held and then
      what was read -- or fails, if the length is not the declared one or the destination is a directory. */
  lemma {:induction false} FileDelivered(w: World, file: OutgoingFile, pieces: seq<bytes>, arrivals: seq<Arrival>)
    requires Sound(w) && file.payloadId in w.transfer.files
    requires Carries(arrivals, FileFrames(file, w.transfer.files[file.payloadId].received, pieces))
    ensures Delivers(
      w, file.payloadId, Concat(pieces), arrivals,
      |FileFrames(file, w.transfer.files[file.payloadId].received, pieces)|)
    decreases |pieces|
  {
    hide Handle, Sound, CommitWith, WriteWith, Delivers, Clear, ReceiveAll;
    var id := file.payloadId;
    var p := w.transfer.files[id];
    if pieces == [] {
      NoFrameLeft(w, file, arrivals);
    } else {
      var tail := FileFrames(file, p.received + |pieces[0]|, pieces[1..]);
      assert FileFrames(file, p.received, pieces) == [ChunkFrame(file, p.received, pieces[0], false)] + tail;
      hide ChunkFrame;
      ReceiveOne(w, arrivals);
      PieceStep(w, file, pieces[0], arrivals[0].env);
      SizesAreSmall(w, id);
      if p.received + |pieces[0]| <= p.expectedSize {
        WriteIsSound(w, id, pieces[0]);
        AfterWrite(w, id, pieces[0]);
        FileDelivered(WriteWith(w, id, pieces[0]), file, pieces[1..], arrivals[1..]);
        OnePieceMore(w, id, pieces[0], Concat(pieces[1..]), arrivals, |tail|);
      } else {
        TooLongFails(w, id, pieces, arrivals, |tail| + 1);
      }
    }
  }

  lemma TooLongFails(w: World, id: int, pieces: seq<bytes>, arrivals: seq<Arrival>, n: nat)
    requires id in w.transfer.files && pieces != [] && n <= |arrivals| && ReceiveAll(w, arrivals).error.Some?
    requires w.transfer.files[id].received + |pieces[0]| > w.transfer.files[id].expectedSize
    ensures Delivers(w, id, Concat(pieces), arrivals, n)
  {
    assert |Concat(pieces)| >= |pieces[0]|;
  }

  lemma SizesAreSmall(w: World, id: int)
    requires Sound(w) && id in w.transfer.files
    ensures w.transfer.files[id].expectedSize <= MAX_I64
  {
  }

  lemma AfterWrite(w: World, id: int, body: bytes)
    requires Sound(w) && id in w.transfer.files
    ensures var p, next := w.transfer.files[id], WriteWith(w, id, body);
            && id in next.transfer.files
            && next.transfer.files[id] == p.(received := p.received + |body|)
            && (Clear(next, id) <==> Clear(w, id))
  {
    hide Accounts, LogSound;
    assert w.transfer.files[id].finalPath != w.transfer.files[id].partPath;
  }

  /** Two runs that end alike; the acknowledgements of the first may be longer. */
  predicate SameEnd(a: Outcome, b: Outcome) {
    a.world == b.world && a.error == b.error && a.rest == b.rest
  }

  // ------------------------------------------------------------------
  // All files

  predicate DistinctIds(shipments: seq<Shipment>) {
    forall i, j :: 0 <= i < j < |shipments| ==> shipments[i].file.payloadId != shipments[j].file.payloadId
  }

  predicate HasId(shipments: seq<Shipment>, id: int) {
    exists i :: 0 <= i < |shipments| && shipments[i].file.payloadId == id
  }

  /** The transfer is waiting for exactly these files and has received nothing of them. */
  ghost predicate Expecting(t: Transfer, shipments: seq<Shipment>) {
    && t.texts == map[] && DistinctIds(shipments)
    && (forall id :: id in t.files <==> HasId(shipments, id))
    && (forall i :: 0 <= i < |shipments| ==>
          && shipments[i].file.payloadId in t.files
          && t.files[shipments[i].file.payloadId].received == 0
          && t.files[shipments[i].file.payloadId].expectedSize == shipments[i].file.size)
  }

  /** Every file was read to its declared length and none is to be renamed onto a directory. */
  ghost predicate AllFit(w: World, shipments: seq<Shipment>) {
    forall i :: 0 <= i < |shipments| ==> Fits(w, shipments[i].file.payloadId, Source(shipments[i]))
  }

  function CommitsOf(files: map<int, PendingFile>, shipments: seq<Shipment>): (r: seq<Commit>)
    requires forall i :: 0 <= i < |shipments| ==> shipments[i].file.payloadId in files
    ensures |r| == |shipments|
    ensures forall i :: 0 <= i < |r| ==>
              r[i] == Commit(shipments[i].file.payloadId, files[shipments[i].file.payloadId].finalPath,
                             Source(shipments[i]), files[shipments[i].file.payloadId].expectedSize)
  {
    seq(|shipments|, i requires 0 <= i < |shipments| =>
      var id := shipments[i].file.payloadId;
      Commit(id, files[id].finalPath, Source(shipments[i]), files[id].expectedSize))
  }

  lemma DeliverFacts(w: World, id: int, content: bytes)
    requires Sound(w) && Fits(w, id, content) && w.transfer.files[id].received == 0
    requires Sound(WriteWith(w, id, content))
    ensures var next := Deliver(w, id, content);
            && Sound(next)
            && next.transfer.files == w.transfer.files - {id} && next.transfer.texts == w.transfer.texts
            && next.log == w.log + [Commit(id, w.transfer.files[id].finalPath, content, w.transfer.files[id].expectedSize)]
  {
    hide Clear, Accounts, LogSound;
    CommitSound(WriteWith(w, id, content), id, []);
    PartLength(w, id);
    hide Sound, PartsSound;
    var p := w.transfer.files[id];
    assert ContentAt(w.disk, p.partPath) == [];
    assert [] + content + [] == content;
    var mid := WriteWith(w, id, content);
    assert mid.transfer.files == w.transfer.files[id := p.(received := |content|)];
    assert ContentAt(mid.disk, p.partPath) == content;
    assert mid.transfer.files - {id} == w.transfer.files - {id};
  }

  lemma OthersFitAsBefore(w: World, id: int, content: bytes, j: int, other: bytes)
    requires Sound(w) && Clear(w, id) && j in w.transfer.files && j != id
    ensures Fits(Deliver(w, id, content), j, other) <==> Fits(w, j, other)
  {
    hide Accounts, LogSound;
    assert w.transfer.files[j].finalPath != w.transfer.files[id].partPath;
    assert w.disk[w.transfer.files[id].partPath].Regular?;
  }

  /** Without its first entry the table still says what it said of the others. */
  lemma TailExpected(t: Transfer, next: Transfer, shipments: seq<Shipment>)
    requires shipments != [] && Expecting(t, shipments)
    requires next.files == t.files - {shipments[0].file.payloadId} && next.texts == t.texts
    ensures Expecting(next, shipments[1..])
    ensures CommitsOf(t.files, shipments)[1..] == CommitsOf(next.files, shipments[1..])
  {
    var id, rest := shipments[0].file.payloadId, shipments[1..];
    assert forall i :: 0 <= i < |rest| ==> rest[i] == shipments[i + 1] && rest[i].file.payloadId != id;
    HasIdStep(shipments);
    assert !HasId(rest, id);
    hide Source, HasId, DistinctIds;
    TailCommits(t.files, next.files, shipments);
    hide CommitsOf;
  }

  lemma TailCommits(files: map<int, PendingFile>, rest: map<int, PendingFile>, shipments: seq<Shipment>)
    requires shipments != [] && forall i :: 0 <= i < |shipments| ==> shipments[i].file.payloadId in files
    requires forall i :: 1 <= i < |shipments| ==>
               shipments[i].file.payloadId in rest && rest[shipments[i].file.payloadId] == files[shipments[i].file.payloadId]
    ensures forall i :: 0 <= i < |shipments[1..]| ==> shipments[1..][i].file.payloadId in rest
    ensures CommitsOf(files, shipments)[1..] == CommitsOf(rest, shipments[1..])
  {
    hide Source;
  }

  lemma TailFits(w: World, shipments: seq<Shipment>)
    requires shipments != [] && Sound(w) && Expecting(w.transfer, shipments)
    requires var first := shipments[0]; Fits(w, first.file.payloadId, Source(first))
    requires var first := shipments[0]; Sound(WriteWith(w, first.file.payloadId, Source(first)))
    ensures AllFit(w, shipments) <==> AllFit(Deliver(w, shipments[0].file.payloadId, Source(shipments[0])), shipments[1..])
  {
    hide Sound, Deliver, Fits, Source;
    var id, rest := shipments[0].file.payloadId, shipments[1..];
    var next := Deliver(w, id, Source(shipments[0]));
    forall i | 0 <= i < |rest|
      ensures rest[i] == shipments[i + 1]
      ensures Fits(w, rest[i].file.payloadId, Source(rest[i])) <==> Fits(next, rest[i].file.payloadId, Source(rest[i]))
    {
      FitsIsClear(w, id, Source(shipments[0]));
      OthersFitAsBefore(w, id, Source(shipments[0]), rest[i].file.payloadId, Source(rest[i]));
    }
    hide Expecting;
    if AllFit(next, rest) {
      forall i | 0 <= i < |shipments|
        ensures Fits(w, shipments[i].file.payloadId, Source(shipments[i]))
      {
        if i > 0 {
          assert shipments[i] == rest[i - 1];
        }
      }
    }
    if AllFit(w, shipments) {
      assert forall i :: 0 <= i < |rest| ==> rest[i] == shipments[i + 1];
    }
  }

  lemma FitsIsClear(w: World, id: int, content: bytes)
    requires Fits(w, id, content)
    ensures Clear(w, id)
  {
  }

  ghost predicate RunDelivers(w: World, shipments: seq<Shipment>, arrivals: seq<Arrival>)
    requires Expecting(w.transfer, shipments)
  {
    var out := ReceiveAll(w, arrivals);
    && (AllFit(w, shipments) ==>
          out.error.None? && out.rest == [] && out.world.log == w.log + CommitsOf(w.transfer.files, shipments))
    && (!AllFit(w, shipments) ==> out.error.Some?)
  }

  lemma NothingToDeliver(w: World)
    requires Expecting(w.transfer, [])
    ensures RunDelivers(w, [], [])
  {
    assert forall id :: id !in w.transfer.files;
    assert w.transfer.files.Keys == {} && w.transfer.texts.Keys == {};
    assert CommitsOf(w.transfer.files, []) == [];
  }

  lemma FirstThenRest(w: World, shipments: seq<Shipment>, arrivals: seq<Arrival>, n: nat)
    requires shipments != [] && Sound(w) && Expecting(w.transfer, shipments) && n <= |arrivals|
    requires var first := shipments[0]; Delivers(w, first.file.payloadId, Source(first), arrivals, n)
    requires var first := shipments[0];
             Fits(w, first.file.payloadId, Source(first)) ==>
             var next := Deliver(w, first.file.payloadId, Source(first));
             Expecting(next.transfer, shipments[1..]) && RunDelivers(next, shipments[1..], arrivals[n..])
    ensures RunDelivers(w, shipments, arrivals)
  {
    hide Sound, Deliver, Fits, Source, ReceiveAll;
    var first, id := shipments[0], shipments[0].file.payloadId;
    if Fits(w, id, Source(first)) {
      var next := Deliver(w, id, Source(first));
      NothingReceived(w, shipments);
      DeliverFacts(w, id, Source(first));
      TailFits(w, shipments);
      hide AllFit, Expecting, Delivers;
      LogsJoin(w, next, shipments);
      assert SameEnd(ReceiveAll(w, arrivals), ReceiveAll(next, arrivals[n..])) by {
        DeliversMeans(w, id, Source(first), arrivals, n);
      }
    } else {
      assert !AllFit(w, shipments);
    }
  }

  lemma DeliversMeans(w: World, id: int, content: bytes, arrivals: seq<Arrival>, n: nat)
    requires Delivers(w, id, content, arrivals, n) && Fits(w, id, content)
    ensures SameEnd(ReceiveAll(w, arrivals), ReceiveAll(Deliver(w, id, content), arrivals[n..]))
  {
  }

  lemma LogsJoin(w: World, next: World, shipments: seq<Shipment>)
    requires shipments != [] && Expecting(w.transfer, shipments)
    requires next.transfer.files == w.transfer.files - {shipments[0].file.payloadId} && next.transfer.texts == w.transfer.texts
    requires next.log == w.log + [CommitsOf(w.transfer.files, shipments)[0]]
    ensures Expecting(next.transfer, shipments[1..])
    ensures next.log + CommitsOf(next.transfer.files, shipments[1..]) == w.log + CommitsOf(w.transfer.files, shipments)
  {
    TailExpected(w.transfer, next.transfer, shipments);
    var commits := CommitsOf(w.transfer.files, shipments);
    hide Expecting, CommitsOf;
    JoinSplit(w.log, commits);
  }

  lemma NothingReceived(w: World, shipments: seq<Shipment>)
    requires shipments != [] && Expecting(w.transfer, shipments)
    ensures shipments[0].file.payloadId in w.transfer.files && w.transfer.files[shipments[0].file.payloadId].received == 0
  {
  }

  /** All the sender's frames, nothing between them. */
  lemma {:induction false} AllDelivered(w: World, shipments: seq<Shipment>, arrivals: seq<Arrival>)
    requires Sound(w) && Expecting(w.transfer, shipments)
    requires Frames(arrivals) == SentFrames(shipments) && Benign(arrivals)
    ensures RunDelivers(w, shipments, arrivals)
    decreases |shipments|
  {
    if shipments == [] {
      assert arrivals == [];
      NothingToDeliver(w);
    } else {
      var first, id := shipments[0], shipments[0].file.payloadId;
      var n := |FileFrames(first.file, 0, first.pieces)|;
      FirstCarried(shipments, arrivals);
      FileDelivered(w, first.file, first.pieces, arrivals);
      if Fits(w, id, Source(first)) {
        hide RunDelivers, SentFrames, FileFrames, Source;
        DeliverFacts(w, id, Source(first));
        var next := Deliver(w, id, Source(first));
        hide Deliver, Fits, Sound;
        TailExpected(w.transfer, next.transfer, shipments);
        hide Expecting;
        AllDelivered(next, shipments[1..], arrivals[n..]);
      }
      hide Deliver, Fits, Sound, Source, RunDelivers, SentFrames, FileFrames, Expecting;
      FirstThenRest(w, shipments, arrivals, n);
    }
  }

  lemma FirstCarried(shipments: seq<Shipment>, arrivals: seq<Arrival>)
    requires shipments != [] && Frames(arrivals) == SentFrames(shipments) && Benign(arrivals)
    ensures var frames := FileFrames(shipments[0].file, 0, shipments[0].pieces);
            && Carries(arrivals, frames)
            && Frames(arrivals[|frames|..]) == SentFrames(shipments[1..])
            && Benign(arrivals[|frames|..])
  {
    var frames := FileFrames(shipments[0].file, 0, shipments[0].pieces);
    forall i | 0 <= i < |frames|
      ensures arrivals[i].frame == frames[i]
    {
      assert Frames(arrivals)[i] == SentFrames(shipments)[i];
    }
    assert Frames(arrivals[|frames|..]) == Frames(arrivals)[|frames|..];
  }

  // ------------------------------------------------------------------
  // From `prepare` on

  lemma HasIdStep(shipments: seq<Shipment>)
    requires shipments != []
    ensures forall j :: HasId(shipments, j) <==> j == shipments[0].file.payloadId || HasId(shipments[1..], j)
  {
    var rest := shipments[1..];
    forall j
      ensures HasId(shipments, j) <==> j == shipments[0].file.payloadId || HasId(rest, j)
    {
      if HasId(rest, j) {
        var i :| 0 <= i < |rest| && rest[i].file.payloadId == j;
        assert shipments[i + 1].file.payloadId == j;
      }
      if HasId(shipments, j) && j != shipments[0].file.payloadId {
        var i :| 0 <= i < |shipments| && shipments[i].file.payloadId == j;
        assert rest[i - 1].file.payloadId == j;
      }
      if j == shipments[0].file.payloadId {
        assert shipments[0].file.payloadId == j;
      }
    }
  }

  lemma {:induction false} PreparedTable(
    p: Preparing, root: Path, shipments: seq<Shipment>, processId: nat, choices: seq<Choice>)
    requires |choices| == |shipments|
    requires PrepareFiles(p, root, MetadataOf(shipments), processId, choices).1.None?
    ensures var next := PrepareFiles(p, root, MetadataOf(shipments), processId, choices).0;
            && DistinctIds(shipments)
            && (forall id :: id in next.files <==> id in p.files || HasId(shipments, id))
            && (forall id :: id in p.files ==> id in next.files && next.files[id] == p.files[id])
            && (forall i :: 0 <= i < |shipments| ==>
                  && shipments[i].file.payloadId in next.files && shipments[i].file.payloadId !in p.files
                  && next.files[shipments[i].file.payloadId].received == 0
                  && next.files[shipments[i].file.payloadId].expectedSize == shipments[i].file.size)
            && next.texts == p.texts
    decreases |shipments|
  {
    if shipments != [] {
      var metadata := MetadataOf(shipments);
      var q := PrepareFile(p, root, metadata[0], processId, choices[0]).0;
      var id := shipments[0].file.payloadId;
      assert metadata[1..] == MetadataOf(shipments[1..]);
      assert q.files == p.files[id := q.files[id]] && q.files[id].received == 0 && q.files[id].expectedSize == shipments[0].file.size;
      assert id !in p.files && q.texts == p.texts;
      hide PrepareFile;
      var rest := shipments[1..];
      PreparedTable(q, root, rest, processId, choices[1..]);
      var next := PrepareFiles(q, root, MetadataOf(rest), processId, choices[1..]).0;
      HasIdStep(shipments);
      hide HasId;
      forall i | 0 <= i < |shipments|
        ensures i > 0 ==> shipments[i] == rest[i - 1]
      {
      }
    }
  }

  lemma PreparedExpects(shipments: seq<Shipment>, root: Path, disk: Disk, processId: nat, choices: seq<Choice>)
    requires |choices| == |shipments|
    requires Prepare(IntroductionOf(shipments), root, disk, processId, choices).result.Ok?
    ensures Expecting(Prepare(IntroductionOf(shipments), root, disk, processId, choices).result.value, shipments)
  {
    hide PrepareFiles;
    PreparedTable(Preparing(disk, map[], map[], 0), root, shipments, processId, choices);
  }

  lemma {:induction false} SizeOfCommits(files: map<int, PendingFile>, shipments: seq<Shipment>)
    requires forall i :: 0 <= i < |shipments| ==> shipments[i].file.payloadId in files
    ensures LogSize(CommitsOf(files, shipments)) == TotalRead(shipments)
    decreases |shipments|
  {
    if shipments != [] {
      var n := |shipments| - 1;
      SizeOfCommits(files, shipments[..n]);
      assert CommitsOf(files, shipments)[..n] == CommitsOf(files, shipments[..n]);
      TotalReadSplit(shipments[..n], shipments[n]);
      assert shipments == shipments[..n] + [shipments[n]];
    }
  }

  lemma {:induction false} TotalReadSplit(shipments: seq<Shipment>, last: Shipment)
    ensures TotalRead(shipments + [last]) == TotalRead(shipments) + |Source(last)|
  {
    if shipments != [] {
      TotalReadSplit(shipments[1..], last);
      assert (shipments + [last])[1..] == shipments[1..] + [last];
    } else {
      assert ([last])[1..] == [];
    }
  }

  /** Every destination holds what was last committed there. */
  ghost predicate InPlace(w: World) {
    forall k :: 0 <= k < |w.log| ==>
      && LastAt(w.log, w.log[k].path).Some?
      && w.log[k].path in w.disk
      && w.disk[w.log[k].path] == Regular(LastAt(w.log, w.log[k].path).value)
  }

  /** The end of a run that delivers `shipments`: everything in place and accounted for. */
  ghost predicate DeliveredAll(w: World, shipments: seq<Shipment>, end: World)
    requires Expecting(w.transfer, shipments)
  {
    && Finished(end.transfer)
    && end.log == CommitsOf(w.transfer.files, shipments)
    && end.transfer.completed == LogPaths(end.log)
    && end.transfer.receivedBytes == end.transfer.totalBytes == TotalRead(shipments)
    && InPlace(end)
  }

  /** From any sound world that expects the shipments. */
  lemma DeliveryIff(w: World, shipments: seq<Shipment>, arrivals: seq<Arrival>)
    requires Sound(w) && w.log == [] && Expecting(w.transfer, shipments)
    requires Benign(arrivals) && Frames(Payloads(arrivals)) == SentFrames(shipments)
    ensures var out := ReceiveAll(w, arrivals);
            && (out.error.None? <==> AllFit(w, shipments))
            && (out.error.None? ==>
                  && DeliveredAll(w, shipments, out.world)
                  && Payloads(out.rest) == []
                  && out.replies == AllReplies(arrivals[..|arrivals| - |out.rest|]))
  {
    hide ReceiveAll, SentFrames, AllFit, Expecting, Sound, SizesAsDeclared, Benign, Payloads, CommitsOf, RunDelivers, DeliveredAll;
    PayloadsBenign(arrivals);
    NoiseIsHarmless(w, arrivals);
    AllDelivered(w, shipments, Payloads(arrivals));
    RunDeliversMeans(w, shipments, Payloads(arrivals));
    if AllFit(w, shipments) {
      RepliesAreAcks(w, arrivals);
      ReceiveAllSound(w, arrivals);
      EndIsDelivered(w, shipments, ReceiveAll(w, arrivals).world);
    }
  }

  lemma RunDeliversMeans(w: World, shipments: seq<Shipment>, arrivals: seq<Arrival>)
    requires Expecting(w.transfer, shipments) && RunDelivers(w, shipments, arrivals)
    ensures var out := ReceiveAll(w, arrivals);
            && (out.error.None? <==> AllFit(w, shipments))
            && (AllFit(w, shipments) ==> out.rest == [] && out.world.log == w.log + CommitsOf(w.transfer.files, shipments))
  {
    hide ReceiveAll, AllFit;
  }

  lemma EndIsDelivered(w: World, shipments: seq<Shipment>, end: World)
    requires Expecting(w.transfer, shipments) && AllFit(w, shipments)
    requires Sound(end) && Finished(end.transfer)
    requires end.log == w.log + CommitsOf(w.transfer.files, shipments) && w.log == []
    ensures DeliveredAll(w, shipments, end)
  {
    hide Sound, AllFit, CommitsOf, TotalRead, LogPaths, Finished, InPlace;
    FinalAccounts(w, end, shipments);
    assert end.log == CommitsOf(w.transfer.files, shipments);
  }

  /** End to end. Once `prepare` has accepted the sender's introduction, then for every way the reads cut the
      files, and whatever harmless frames stand between the sender's, the receiver succeeds exactly when every
      file was read to its declared length and no destination is a directory. When it succeeds it has committed
      the files in send order, each holding exactly the bytes read; every destination holds what was last
      committed there; the counters agree; and it has acknowledged the keep-alives it read. */
  lemma EndToEnd(
    shipments: seq<Shipment>, root: Path, disk: Disk, processId: nat, choices: seq<Choice>, buffers: Buffers, arrivals: seq<Arrival>)
    requires |choices| == |shipments|
    requires Prepare(IntroductionOf(shipments), root, disk, processId, choices).result.Ok?
    requires PreparedApart(Prepare(IntroductionOf(shipments), root, disk, processId, choices))
    requires Benign(arrivals) && Frames(Payloads(arrivals)) == SentFrames(shipments)
    ensures var prepared := Prepare(IntroductionOf(shipments), root, disk, processId, choices);
            var w := StartOf(prepared.result.value, prepared.disk, buffers);
            var out := ReceiveAll(w, arrivals);
            && Expecting(w.transfer, shipments)
            && (out.error.None? <==> AllFit(w, shipments))
            && (out.error.None? ==>
                  && DeliveredAll(w, shipments, out.world)
                  && Payloads(out.rest) == []
                  && out.replies == AllReplies(arrivals[..|arrivals| - |out.rest|]))
  {
    hide Prepare, ReceiveAll, SentFrames, AllFit, Expecting, Sound, DeliveredAll;
    var prepared := Prepare(IntroductionOf(shipments), root, disk, processId, choices);
    PrepareEstablishesSound(IntroductionOf(shipments), root, disk, processId, choices, buffers);
    PreparedExpects(shipments, root, disk, processId, choices);
    DeliveryIff(StartOf(prepared.result.value, prepared.disk, buffers), shipments, arrivals);
  }

  lemma PayloadsBenign(arrivals: seq<Arrival>)
    requires Benign(arrivals)
    ensures Benign(Payloads(arrivals))
  {
  }

  lemma FinalAccounts(w: World, end: World, shipments: seq<Shipment>)
    requires Expecting(w.transfer, shipments) && AllFit(w, shipments)
    requires Sound(end) && Finished(end.transfer)
    requires end.log == w.log + CommitsOf(w.transfer.files, shipments) && w.log == []
    ensures end.transfer.receivedBytes == end.transfer.totalBytes == TotalRead(shipments)
    ensures end.transfer.completed == LogPaths(end.log)
    ensures InPlace(end)
  {
    assert end.log == CommitsOf(w.transfer.files, shipments) by {
      assert [] + CommitsOf(w.transfer.files, shipments) == CommitsOf(w.transfer.files, shipments);
    }
    FittingCommits(w, shipments);
    SizeOfCommits(w.transfer.files, shipments);
    hide LogSize, TotalRead, CommitsOf, SizesAsDeclared, Sound, AllFit, LogPaths, InPlace;
    EndTotals(end);
  }

  lemma FittingCommits(w: World, shipments: seq<Shipment>)
    requires Expecting(w.transfer, shipments) && AllFit(w, shipments)
    ensures SizesAsDeclared(CommitsOf(w.transfer.files, shipments))
  {
    hide Source, Clear;
  }

  lemma EndTotals(end: World)
    requires Sound(end) && Finished(end.transfer) && SizesAsDeclared(end.log)
    ensures end.transfer.receivedBytes == end.transfer.totalBytes == LogSize(end.log)
    ensures end.transfer.completed == LogPaths(end.log) && InPlace(end)
  {
    ReceivedWithinTotal(end);
    assert ReceivedOf(end.transfer.files) == map[];
    SumOfZeros(map[]);
    hide LogSize, LastAt, PartsSound, Sum;
  }

  /** When the destinations are distinct, each one holds its own file. */
  lemma {:induction false} DistinctDestinationsKeepTheirFile(log: seq<Commit>, k: nat)
    requires k < |log| && forall i, j :: 0 <= i < j < |log| ==> log[i].path != log[j].path
    ensures LastAt(log, log[k].path) == Some(log[k].content)
  {
    if k < |log| - 1 {
      DistinctDestinationsKeepTheirFile(log[..|log| - 1], k);
    }
  }
}
