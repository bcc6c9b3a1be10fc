/** A payload that arrives in BYTES chunks: a text, or a file sent that way, is kept with exactly the bytes of its chunks
    (src/quick_share_receiver.rs:902-951, :1031-1094). */
module BytesPayloads {
  import opened Prelude
  import opened WireMessages
  import opened Assembler
  import opened Paths
  import opened Transfers

  function FrameOf(t: PayloadTransfer): OfflineFrame {
    OfflineFrame(Some(OfflineV1(Some(PAYLOAD_TRANSFER), Some(t), None, None)))
  }

  function Arrivals(ts: seq<PayloadTransfer>, env: Env): (r: seq<Arrival>)
    ensures |r| == |ts| && forall i :: 0 <= i < |r| ==> r[i] == Arrival(FrameOf(ts[i]), env)
  {
    seq(|ts|, i requires 0 <= i < |ts| => Arrival(FrameOf(ts[i]), env))
  }

  predicate AllBytes(ts: seq<PayloadTransfer>) {
    forall i :: 0 <= i < |ts| ==> ts[i].header.Some? && ts[i].header.value.payloadType == Some(PAYLOAD_BYTES)
  }

  /** How a run goes on after a step. */
  function GoesOn(step: Stepped, tail: seq<Arrival>): Outcome {
    if step.error.Some? then Outcome(step.world, tail, [], step.error) else ReceiveAll(step.world, tail)
  }

  lemma OneArrival(w: World, t: PayloadTransfer, env: Env, tail: seq<Arrival>)
    requires !Finished(w.transfer)
    ensures ReceiveAll(w, [Arrival(FrameOf(t), env)] + tail) == GoesOn(ReceivePayload(w, t, env), tail)
  {
    hide ReceivePayload;
    var arrivals := [Arrival(FrameOf(t), env)] + tail;
    assert arrivals[0] == Arrival(FrameOf(t), env) && arrivals[1..] == tail;
    assert Handle(w, FrameOf(t), env) == ReceivePayload(w, t, env);
    var step := ReceivePayload(w, t, env);
    if step.error.None? {
      var more := ReceiveAll(step.world, tail);
      assert [] + more.replies == more.replies;
    }
  }

  lemma BytesChunk(w: World, t: PayloadTransfer, env: Env)
    requires t.header.Some? && t.header.value.payloadType == Some(PAYLOAD_BYTES)
    ensures var pushed := PushChunk(true, w.buffers, t);
            var after := w.(buffers := pushed.buffers);
            ReceivePayload(w, t, env) ==
              match pushed.result
              case Err(e) => Stepped(after, Some(Assembly(e)))
              case Ok(None) => Stepped(after, None)
              case Ok(Some(payload)) => ReceiveBytes(after, payload.0, payload.1, env)
  {
    hide PushChunk, ReceiveBytes;
  }

  /** Chunks in their places hand over what was buffered and their bodies, and the payload's buffer is gone. */
  lemma {:induction false} PayloadArrives(w: World, id: int, ts: seq<PayloadTransfer>, env: Env, tail: seq<Arrival>)
    requires OneStream(id, ts) && AllBytes(ts) && (id in w.transfer.files || id in w.transfer.texts)
    requires Seated(true, |BufferOf(w.buffers, id)|, id, ts)
    requires Declared(ts[|ts| - 1]) == Some(|BufferOf(w.buffers, id)| + |Bodies(ts)|)
    ensures ReceiveAll(w, Arrivals(ts, env) + tail) ==
            GoesOn(ReceiveBytes(w.(buffers := w.buffers - {id}), id, BufferOf(w.buffers, id) + Bodies(ts), env), tail)
    decreases |ts|
  {
    hide PushChunk, ReceivePayload, ReceiveBytes, ReceiveAll, GoesOn, SeatedAt, IsLast, HeaderId, BufferOf, Declared;
    ChunkIff(true, w.buffers, id, ts[0]);
    var body, rest := GetOr(ts[0].chunk.value.body, []), Arrivals(ts[1..], env) + tail;
    var pushed := PushChunk(true, w.buffers, ts[0]);
    assert Arrivals(ts, env) + tail == [Arrival(FrameOf(ts[0]), env)] + rest;
    OneArrival(w, ts[0], env, rest);
    BytesChunk(w, ts[0], env);
    if |ts| == 1 {
      assert ts[1..] == [] && Bodies(ts) == body + Bodies([]) && body + Bodies([]) == body;
      assert rest == tail;
    } else {
      var next := w.(buffers := pushed.buffers);
      assert ts[1..][|ts| - 2] == ts[|ts| - 1];
      assert BufferOf(w.buffers, id) + body + Bodies(ts[1..]) == BufferOf(w.buffers, id) + (body + Bodies(ts[1..]));
      PayloadArrives(next, id, ts[1..], env, tail);
      GoesOnFree(next, rest);
      assert next.(buffers := next.buffers - {id}) == w.(buffers := w.buffers - {id});
    }
  }

  lemma GoesOnFree(w: World, tail: seq<Arrival>)
    ensures GoesOn(Stepped(w, None), tail) == ReceiveAll(w, tail)
  {
  }

  /** The chunks carry all of payload `id`: in their places, and `size` octets in all. */
  predicate Carries(id: int, ts: seq<PayloadTransfer>, size: nat) {
    && OneStream(id, ts) && AllBytes(ts) && Seated(true, 0, id, ts)
    && Declared(ts[|ts| - 1]) == Some(size) && |Bodies(ts)| == size
  }

  function TextNameOf(isUrl: bool, now: nat): string {
    "Quick Share " + Decimal(now) + if isUrl then ".url.txt" else ".txt"
  }

  function Counted(before: nat, size: nat): nat {
    if before + size > MAX_U64 then MAX_U64 else before + size
  }

  /** The world once a text has been put at `end`. */
  function WithText(w: World, id: int, content: bytes, path: Path, end: Path): World {
    var t := w.transfer;
    World(
      Transfer(
        t.files, t.texts - {id}, t.previews, t.downloadDirectory, t.completed + [path], t.totalBytes,
        Counted(t.receivedBytes, |content|)),
      w.buffers, w.disk[end := Regular(content)], w.log + [Commit(id, end, content, |content|, path)])
  }

  lemma TextKept(w: World, id: int, content: bytes, env: Env, end: Path)
    requires id in w.transfer.texts && id !in w.transfer.files && env.fault.NoFault?
    requires |content| == w.transfer.texts[id].expectedSize
    ensures var path := UniqueDestination(
                          w.disk, w.transfer.downloadDirectory, TextNameOf(w.transfer.texts[id].isUrl, env.now), env.fallback);
            WriteTarget(w.disk, path) == Some(end) ==>
              ReceiveBytes(w, id, content, env) == Stepped(WithText(w, id, content, path, end), None)
  {
    hide UniqueDestination, WriteTarget, Decimal;
    assert TextName(w.transfer.texts[id].isUrl, env.now) == TextNameOf(w.transfer.texts[id].isUrl, env.now);
  }

  /** The world once a file has been put in place. */
  function WithFile(w: World, id: int, f: PendingFile, content: bytes): World {
    var t, whole := w.transfer, ContentAt(w.disk, f.partPath) + content;
    World(
      Transfer(
        t.files - {id}, t.texts, t.previews, t.downloadDirectory, t.completed + [f.finalPath], t.totalBytes,
        Counted(t.receivedBytes, |content|)),
      w.buffers, (w.disk - {f.partPath})[f.finalPath := Regular(whole)],
      w.log + [Commit(id, f.finalPath, whole, f.expectedSize)])
  }

  lemma FileKept(w: World, id: int, content: bytes, env: Env)
    requires id in w.transfer.files && env.fault.NoFault? && |content| == w.transfer.files[id].expectedSize
    requires var f := w.transfer.files[id]; f.finalPath != f.partPath && !IsDirectory(w.disk, f.finalPath)
    ensures ReceiveBytes(w, id, content, env) == Stepped(WithFile(w, id, w.transfer.files[id], content), None)
  {
    hide ContentAt;
    var f := w.transfer.files[id];
    var appended := AppendTo(w.disk, f.partPath, content);
    assert appended - {f.partPath} == w.disk - {f.partPath};
    assert ContentAt(appended, f.partPath) == ContentAt(w.disk, f.partPath) + content by { AppendedContent(w.disk, f.partPath, content); }
  }

  lemma AppendedContent(disk: Disk, p: Path, more: bytes)
    ensures ContentAt(AppendTo(disk, p, more), p) == ContentAt(disk, p) + more
  {
  }

  /** A text that arrives whole is written, with exactly the bytes of its chunks, where its name leads, and handed over
      under that name; it leaves the table, and nothing else changes. */
  lemma TextArrives(w: World, id: int, ts: seq<PayloadTransfer>, env: Env, tail: seq<Arrival>, end: Path)
    requires id in w.transfer.texts && id !in w.transfer.files && id !in w.buffers && env.fault.NoFault?
    requires Carries(id, ts, w.transfer.texts[id].expectedSize)
    ensures var path := UniqueDestination(
                          w.disk, w.transfer.downloadDirectory, TextNameOf(w.transfer.texts[id].isUrl, env.now), env.fallback);
            WriteTarget(w.disk, path) == Some(end) ==>
              ReceiveAll(w, Arrivals(ts, env) + tail) == ReceiveAll(WithText(w, id, Bodies(ts), path, end), tail)
  {
    hide ReceiveAll, ReceiveBytes, UniqueDestination, WriteTarget, TextNameOf, WithText, OneStream, Seated, Declared, Bodies, Arrivals;
    hide AllBytes;
    PayloadArrives(w, id, ts, env, tail);
    assert w.buffers - {id} == w.buffers && BufferOf(w.buffers, id) + Bodies(ts) == Bodies(ts);
    TextKept(w, id, Bodies(ts), env, end);
  }

  /** A file that arrives whole in this way is put in place as what its part file held and the bytes of its chunks. */
  lemma FileArrivesAsBytes(w: World, id: int, ts: seq<PayloadTransfer>, env: Env, tail: seq<Arrival>)
    requires id in w.transfer.files && id !in w.buffers && env.fault.NoFault?
    requires Carries(id, ts, w.transfer.files[id].expectedSize)
    requires var f := w.transfer.files[id]; f.finalPath != f.partPath && !IsDirectory(w.disk, f.finalPath)
    ensures ReceiveAll(w, Arrivals(ts, env) + tail) == ReceiveAll(WithFile(w, id, w.transfer.files[id], Bodies(ts)), tail)
  {
    hide ReceiveAll, ReceiveBytes, WithFile, OneStream, Seated, Declared, Bodies, Arrivals, AllBytes;
    PayloadArrives(w, id, ts, env, tail);
    assert w.buffers - {id} == w.buffers && BufferOf(w.buffers, id) + Bodies(ts) == Bodies(ts);
    FileKept(w, id, Bodies(ts), env);
  }

  /** Any other payload -- a preview, or one nobody asked for -- is read and dropped; a preview is crossed off. */
  lemma OthersAreDropped(w: World, id: int, content: bytes, env: Env)
    requires id !in w.transfer.files && id !in w.transfer.texts
    ensures var t := w.transfer;
            ReceiveBytes(w, id, content, env) == Stepped(
              World(
                Transfer(t.files, t.texts, t.previews - {id}, t.downloadDirectory, t.completed, t.totalBytes, t.receivedBytes),
                w.buffers, w.disk, w.log),
              None)
  {
  }
}
