/** Reassembly of byte payloads. The receiver and the sender each have their own BytesAssembler; they
    differ in one check, here the flag `strict` (src/quick_share_receiver.rs:565-613 is the strict one,
    src/quick_share_sender.rs:772-814 the other). */
module Assembler {
  import opened Prelude
  import opened WireMessages
  import opened Transport

  type Buffers = map<int, bytes>

  datatype AssemblerError =
    | MissingHeader | MissingChunk | MissingId | MissingSize | TooLarge
    | UnexpectedOffset | ExceedsDeclared | Incomplete

  type Payload = (int, bytes)

  datatype Pushed = Pushed(buffers: Buffers, result: Result<Option<Payload>, AssemblerError>)

  function HeaderId(t: PayloadTransfer): Option<int> {
    if t.header.Some? then t.header.value.id else None
  }

  /** The checks made before the buffer is looked at. */
  function Malformed(t: PayloadTransfer): Option<AssemblerError> {
    if t.header.None? then Some(MissingHeader)
    else if t.chunk.None? then Some(MissingChunk)
    else if t.header.value.id.None? then Some(MissingId)
    else if t.header.value.totalSize.None? then Some(MissingSize)
    else if t.header.value.totalSize.value < 0 || t.header.value.totalSize.value > MAX_WIRE_FRAME_BYTES then Some(TooLarge)
    else None
  }

  function BufferOf(b: Buffers, id: int): bytes {
    if id in b then b[id] else []
  }

  function PushChunk(strict: bool, b: Buffers, t: PayloadTransfer): Pushed {
    if Malformed(t).Some? then Pushed(b, Err(Malformed(t).value))
    else
      var id, total, chunk := t.header.value.id.value, t.header.value.totalSize.value, t.chunk.value;
      var buffer := BufferOf(b, id);
      if chunk.offset != Some(|buffer|) then Pushed(b - {id}, Err(UnexpectedOffset))
      else if strict && chunk.body.Some? && |buffer| + |chunk.body.value| > total then
        Pushed(b[id := buffer], Err(ExceedsDeclared))
      else
        var grown := buffer + GetOr(chunk.body, []);
        if LowBit(GetOr(chunk.flags, 0)) then
          Pushed(b - {id}, if |grown| != total then Err(Incomplete) else Ok(Some((id, grown))))
        else Pushed(b[id := grown], Ok(None))
  }

  class ReceiverAssembler {
    var buffers: Buffers

    constructor ()
      ensures buffers == map[]
    {
      buffers := map[];
    }

    method Push(t: PayloadTransfer) returns (r: Result<Option<Payload>, AssemblerError>)
      modifies this
      ensures Pushed(buffers, r) == PushChunk(true, old(buffers), t)
    {
      if t.header.None? {
        return Err(MissingHeader);
      }
      if t.chunk.None? {
        return Err(MissingChunk);
      }
      if t.header.value.id.None? {
        return Err(MissingId);
      }
      if t.header.value.totalSize.None? {
        return Err(MissingSize);
      }
      var id, total, chunk := t.header.value.id.value, t.header.value.totalSize.value, t.chunk.value;
      if total < 0 || total > MAX_WIRE_FRAME_BYTES {
        return Err(TooLarge);
      }
      ghost var before := buffers;
      if id !in buffers {
        buffers := buffers[id := []];
      }
      if chunk.offset != Some(|buffers[id]|) {
        buffers := buffers - {id};
        assert buffers == before - {id};
        return Err(UnexpectedOffset);
      }
      if chunk.body.Some? {
        if |buffers[id]| + |chunk.body.value| > total {
          return Err(ExceedsDeclared);
        }
        buffers := buffers[id := buffers[id] + chunk.body.value];
      }
      if LowBit(GetOr(chunk.flags, 0)) {
        var complete := buffers[id];
        buffers := buffers - {id};
        assert buffers == before - {id};
        assert complete == BufferOf(before, id) + GetOr(chunk.body, []);
        if |complete| != total {
          return Err(Incomplete);
        }
        return Ok(Some((id, complete)));
      }
      assert buffers[id] == BufferOf(before, id) + GetOr(chunk.body, []);
      r := Ok(None);
    }
  }

  class SenderAssembler {
    var buffers: Buffers

    constructor ()
      ensures buffers == map[]
    {
      buffers := map[];
    }

    /** The sender hands back the bytes without the payload ID. */
    method Push(t: PayloadTransfer) returns (r: Result<Option<bytes>, AssemblerError>)
      modifies this
      ensures buffers == PushChunk(false, old(buffers), t).buffers
      ensures r == match PushChunk(false, old(buffers), t).result
                   case Err(e) => Err(e)
                   case Ok(None) => Ok(None)
                   case Ok(Some(payload)) => Ok(Some(payload.1))
    {
      if t.header.None? {
        return Err(MissingHeader);
      }
      if t.chunk.None? {
        return Err(MissingChunk);
      }
      if t.header.value.id.None? {
        return Err(MissingId);
      }
      if t.header.value.totalSize.None? {
        return Err(MissingSize);
      }
      var id, total, chunk := t.header.value.id.value, t.header.value.totalSize.value, t.chunk.value;
      if total < 0 || total > MAX_WIRE_FRAME_BYTES {
        return Err(TooLarge);
      }
      ghost var before := buffers;
      if id !in buffers {
        buffers := buffers[id := []];
      }
      if chunk.offset != Some(|buffers[id]|) {
        buffers := buffers - {id};
        assert buffers == before - {id};
        return Err(UnexpectedOffset);
      }
      if chunk.body.Some? {
        buffers := buffers[id := buffers[id] + chunk.body.value];
      }
      assert buffers[id] == BufferOf(before, id) + GetOr(chunk.body, []);
      if LowBit(GetOr(chunk.flags, 0)) {
        var complete := buffers[id];
        buffers := buffers - {id};
        assert buffers == before - {id};
        if |complete| != total {
          return Err(Incomplete);
        }
        return Ok(Some(complete));
      }
      r := Ok(None);
    }
  }

  // ------------------------------------------------------------------
  // Whole streams

  datatype Run = Run(buffers: Buffers, outputs: seq<Payload>, error: Option<AssemblerError>)

  /** Push a stream, stopping at the first error. */
  function RunAll(strict: bool, b: Buffers, ts: seq<PayloadTransfer>): Run
    decreases |ts|
  {
    if ts == [] then Run(b, [], None)
    else
      var p := PushChunk(strict, b, ts[0]);
      match p.result
      case Err(e) => Run(p.buffers, [], Some(e))
      case Ok(output) =>
        var more := RunAll(strict, p.buffers, ts[1..]);
        more.(outputs := (if output.Some? then [output.value] else []) + more.outputs)
  }

  function For(id: int, ts: seq<PayloadTransfer>): seq<PayloadTransfer> {
    if ts == [] then []
    else (if HeaderId(ts[0]) == Some(id) then [ts[0]] else []) + For(id, ts[1..])
  }

  function OutputsFor(id: int, outputs: seq<Payload>): seq<Payload> {
    if outputs == [] then []
    else (if outputs[0].0 == id then [outputs[0]] else []) + OutputsFor(id, outputs[1..])
  }

  function Only(b: Buffers, id: int): Buffers {
    if id in b then map[id := b[id]] else map[]
  }

  lemma OutputsForSplit(id: int, xs: seq<Payload>, ys: seq<Payload>)
    requires |xs| <= 1
    ensures OutputsFor(id, xs + ys) == OutputsFor(id, xs) + OutputsFor(id, ys)
  {
    if xs == [] {
      assert xs + ys == ys;
    } else {
      assert (xs + ys)[1..] == ys;
      assert xs[1..] == [];
    }
  }

  /** A chunk touches its own payload's buffer only, and reads no other. */
  lemma PushIsLocal(strict: bool, b: Buffers, t: PayloadTransfer, id: int)
    ensures var p := PushChunk(strict, b, t);
            if HeaderId(t) == Some(id)
            then PushChunk(strict, Only(b, id), t) == Pushed(Only(p.buffers, id), p.result)
            else Only(p.buffers, id) == Only(b, id)
    ensures PushChunk(strict, b, t).result.Ok? && PushChunk(strict, b, t).result.value.Some?
            ==> HeaderId(t) == Some(PushChunk(strict, b, t).result.value.value.0)
    ensures PushChunk(strict, b, t).result.Ok? ==> HeaderId(t).Some?
  {
    if HeaderId(t) == Some(id) {
      var o := Only(b, id);
      assert BufferOf(o, id) == BufferOf(b, id);
      assert o - {id} == map[];
    }
  }

  /** Interleaving is invisible: in an error-free stream every payload comes out exactly as its own
      substream alone would produce it, in the same order, and leaves the same buffer behind. */
  lemma {:induction false} Projection(strict: bool, b: Buffers, ts: seq<PayloadTransfer>, id: int)
    requires RunAll(strict, b, ts).error.None?
    ensures var all := RunAll(strict, b, ts);
            RunAll(strict, Only(b, id), For(id, ts)) == Run(Only(all.buffers, id), OutputsFor(id, all.outputs), None)
    decreases |ts|
  {
    if ts != [] {
      var p := PushChunk(strict, b, ts[0]);
      var out := if p.result.value.Some? then [p.result.value.value] else [];
      PushIsLocal(strict, b, ts[0], id);
      Projection(strict, p.buffers, ts[1..], id);
      OutputsForSplit(id, out, RunAll(strict, p.buffers, ts[1..]).outputs);
      ForStep(id, ts);
      hide PushChunk;
    }
  }

  lemma ForStep(id: int, ts: seq<PayloadTransfer>)
    requires ts != []
    ensures HeaderId(ts[0]) == Some(id) ==> For(id, ts) != [] && For(id, ts)[0] == ts[0] && For(id, ts)[1..] == For(id, ts[1..])
    ensures HeaderId(ts[0]) != Some(id) ==> For(id, ts) == For(id, ts[1..])
  {
  }

  ghost predicate EverySubstreamRuns(strict: bool, b: Buffers, ts: seq<PayloadTransfer>) {
    && (forall i :: 0 <= i < |ts| ==> HeaderId(ts[i]).Some?)
    && (forall id: int :: RunAll(strict, Only(b, id), For(id, ts)).error.None?)
  }

  lemma SubstreamTail(strict: bool, b: Buffers, ts: seq<PayloadTransfer>)
    requires ts != [] && EverySubstreamRuns(strict, b, ts)
    ensures PushChunk(strict, b, ts[0]).result.Ok?
    ensures EverySubstreamRuns(strict, PushChunk(strict, b, ts[0]).buffers, ts[1..])
  {
    var head := HeaderId(ts[0]).value;
    var p := PushChunk(strict, b, ts[0]);
    PushIsLocal(strict, b, ts[0], head);
    ForStep(head, ts);
    hide PushChunk;
    assert RunAll(strict, Only(b, head), For(head, ts)).error.None?;
    forall id: int
      ensures RunAll(strict, Only(p.buffers, id), For(id, ts[1..])).error.None?
    {
      PushIsLocal(strict, b, ts[0], id);
      ForStep(id, ts);
      assert RunAll(strict, Only(b, id), For(id, ts)).error.None?;
    }
  }

  lemma {:induction false} SubstreamsRun(strict: bool, b: Buffers, ts: seq<PayloadTransfer>)
    requires EverySubstreamRuns(strict, b, ts)
    ensures RunAll(strict, b, ts).error.None?
    decreases |ts|
  {
    if ts != [] {
      SubstreamTail(strict, b, ts);
      SubstreamsRun(strict, PushChunk(strict, b, ts[0]).buffers, ts[1..]);
    }
  }

  lemma {:induction false} RunHasIds(strict: bool, b: Buffers, ts: seq<PayloadTransfer>)
    requires RunAll(strict, b, ts).error.None?
    ensures forall i :: 0 <= i < |ts| ==> HeaderId(ts[i]).Some?
    decreases |ts|
  {
    if ts != [] {
      PushIsLocal(strict, b, ts[0], 0);
      RunHasIds(strict, PushChunk(strict, b, ts[0]).buffers, ts[1..]);
    }
  }

  /** A stream is free of errors exactly when every chunk names its payload and every payload's own
      substream is free of errors. */
  lemma ErrorFreeIff(strict: bool, b: Buffers, ts: seq<PayloadTransfer>)
    ensures RunAll(strict, b, ts).error.None? <==> EverySubstreamRuns(strict, b, ts)
  {
    if RunAll(strict, b, ts).error.None? {
      RunHasIds(strict, b, ts);
      forall id: int
        ensures RunAll(strict, Only(b, id), For(id, ts)).error.None?
      {
        Projection(strict, b, ts, id);
      }
    }
    if EverySubstreamRuns(strict, b, ts) {
      SubstreamsRun(strict, b, ts);
    }
  }

  // ------------------------------------------------------------------
  // One payload, chunk by chunk

  /** The bodies of the chunks, one after the other. */
  function Bodies(ts: seq<PayloadTransfer>): bytes {
    if ts == [] then []
    else (if ts[0].chunk.Some? then GetOr(ts[0].chunk.value.body, []) else []) + Bodies(ts[1..])
  }

  /** A chunk that declares a size within 5 MiB, starts at `at` and -- for the receiver -- stays within that size. */
  predicate SeatedAt(strict: bool, t: PayloadTransfer, at: nat)
    requires t.header.Some? && t.chunk.Some?
  {
    var total, chunk := t.header.value.totalSize, t.chunk.value;
    && total.Some? && 0 <= total.value <= MAX_WIRE_FRAME_BYTES
    && chunk.offset == Some(at)
    && (strict && chunk.body.Some? ==> at + |chunk.body.value| <= total.value)
  }

  function Declared(t: PayloadTransfer): Option<int> {
    if t.header.Some? then t.header.value.totalSize else None
  }

  predicate IsLast(t: PayloadTransfer)
    requires t.chunk.Some?
  {
    LowBit(GetOr(t.chunk.value.flags, 0))
  }

  /** All chunks are of payload `id`, and the last one alone is marked as the last. */
  predicate OneStream(id: int, ts: seq<PayloadTransfer>)
    decreases |ts|
  {
    && ts != [] && HeaderId(ts[0]) == Some(id) && ts[0].chunk.Some? && (IsLast(ts[0]) <==> |ts| == 1)
    && (|ts| > 1 ==> OneStream(id, ts[1..]))
  }

  /** Every chunk starts where the bodies before it end, the first one at `start`. */
  predicate Seated(strict: bool, start: nat, id: int, ts: seq<PayloadTransfer>)
    requires OneStream(id, ts)
    decreases |ts|
  {
    && SeatedAt(strict, ts[0], start)
    && (|ts| > 1 ==> Seated(strict, start + |GetOr(ts[0].chunk.value.body, [])|, id, ts[1..]))
  }

  /** One chunk of a stream. */
  lemma ChunkIff(strict: bool, b: Buffers, id: int, t: PayloadTransfer)
    requires HeaderId(t) == Some(id) && t.chunk.Some?
    ensures var p, grown := PushChunk(strict, b, t), BufferOf(b, id) + GetOr(t.chunk.value.body, []);
            && (p.result.Ok? <==>
                  && SeatedAt(strict, t, |BufferOf(b, id)|)
                  && (IsLast(t) ==> Declared(t) == Some(|grown|)))
            && (p.result.Ok? ==>
                  && p.buffers - {id} == b - {id}
                  && if IsLast(t) then p.result.value == Some((id, grown)) && p.buffers == b - {id}
                     else p.result.value == None && BufferOf(p.buffers, id) == grown)
  {
  }

  /** A payload comes out exactly when its chunks are in their places and the last one declares the size that has come
      together; it is what was buffered before and then the bodies in order, and its buffer is gone. */
  lemma {:induction false} PayloadCompletesIff(strict: bool, b: Buffers, id: int, ts: seq<PayloadTransfer>)
    requires OneStream(id, ts)
    ensures var run, whole := RunAll(strict, b, ts), BufferOf(b, id) + Bodies(ts);
            && (run.error.None? <==>
                  Seated(strict, |BufferOf(b, id)|, id, ts) && Declared(ts[|ts| - 1]) == Some(|whole|))
            && (run.error.None? ==> run.outputs == [(id, whole)] && run.buffers == b - {id})
    decreases |ts|
  {
    hide PushChunk, SeatedAt, IsLast, HeaderId, BufferOf, Declared;
    ChunkIff(strict, b, id, ts[0]);
    var start, body := BufferOf(b, id), GetOr(ts[0].chunk.value.body, []);
    var p := PushChunk(strict, b, ts[0]);
    if |ts| == 1 {
      assert ts[1..] == [] && Bodies(ts) == body + Bodies([]) && body + Bodies([]) == body;
      assert RunAll(strict, p.buffers, []) == Run(p.buffers, [], None);
    } else if p.result.Ok? {
      PayloadCompletesIff(strict, p.buffers, id, ts[1..]);
      assert start + body + Bodies(ts[1..]) == start + (body + Bodies(ts[1..]));
      assert ts[1..][|ts| - 2] == ts[|ts| - 1];
    }
  }

  predicate Bounded(b: Buffers) {
    forall id :: id in b ==> |b[id]| <= MAX_WIRE_FRAME_BYTES
  }

  /** The receiver never stores more than one wire frame's worth per payload, error or not. */
  lemma {:induction false} ReceiverBuffersBounded(b: Buffers, ts: seq<PayloadTransfer>)
    requires Bounded(b)
    ensures Bounded(RunAll(true, b, ts).buffers)
    ensures forall i :: 0 <= i < |RunAll(true, b, ts).outputs| ==> |RunAll(true, b, ts).outputs[i].1| <= MAX_WIRE_FRAME_BYTES
    decreases |ts|
  {
    if ts != [] {
      var p := PushChunk(true, b, ts[0]);
      assert Bounded(p.buffers);
      if p.result.Ok? {
        ReceiverBuffersBounded(p.buffers, ts[1..]);
      }
    }
  }

  // ------------------------------------------------------------------
  // The two assemblers compared

  /** The one condition the receiver checks and the sender does not, along the sender's own run. */
  predicate WithinDeclared(b: Buffers, ts: seq<PayloadTransfer>)
    decreases |ts|
  {
    if ts == [] || Malformed(ts[0]).Some? then true
    else
      var id, total, chunk := ts[0].header.value.id.value, ts[0].header.value.totalSize.value, ts[0].chunk.value;
      && (chunk.body.Some? ==> |BufferOf(b, id)| + |chunk.body.value| <= total)
      && WithinDeclared(PushChunk(false, b, ts[0]).buffers, ts[1..])
  }

  /** The receiver accepts a stream exactly when the sender would and no chunk overruns its declared size;
      then the two produce the same outputs and the same buffers. */
  lemma {:induction false} AgreementIff(b: Buffers, ts: seq<PayloadTransfer>)
    ensures RunAll(true, b, ts).error.None? <==> RunAll(false, b, ts).error.None? && WithinDeclared(b, ts)
    ensures RunAll(true, b, ts).error.None? ==> RunAll(true, b, ts) == RunAll(false, b, ts)
    decreases |ts|
  {
    if ts != [] && Malformed(ts[0]).None? {
      if PushChunk(false, b, ts[0]).result.Ok? {
        AgreementIff(PushChunk(false, b, ts[0]).buffers, ts[1..]);
      }
    }
  }

  /** Every payload keeps one declared size from its first chunk to its last; `declared` holds the sizes of
      the payloads under way. */
  predicate ConstantTotals(declared: map<int, int>, ts: seq<PayloadTransfer>)
    decreases |ts|
  {
    if ts == [] then true
    else if Malformed(ts[0]).Some? then ConstantTotals(declared, ts[1..])
    else
      var id, total := ts[0].header.value.id.value, ts[0].header.value.totalSize.value;
      && (id in declared ==> declared[id] == total)
      && ConstantTotals(
           if LowBit(GetOr(ts[0].chunk.value.flags, 0)) then declared - {id} else declared[id := total],
           ts[1..])
  }

  /** Once a payload has outgrown its declared size it can never complete. */
  lemma {:induction false} OvergrownNeverCompletes(b: Buffers, declared: map<int, int>, ts: seq<PayloadTransfer>, id: int)
    requires id in b && id in declared && |b[id]| > declared[id]
    requires ConstantTotals(declared, ts) && RunAll(false, b, ts).error.None?
    ensures id in RunAll(false, b, ts).buffers
    decreases |ts|
  {
    if ts != [] {
      var p := PushChunk(false, b, ts[0]);
      var id0, total := ts[0].header.value.id.value, ts[0].header.value.totalSize.value;
      var last := LowBit(GetOr(ts[0].chunk.value.flags, 0));
      OvergrownNeverCompletes(p.buffers, if last then declared - {id0} else declared[id0 := total], ts[1..], id);
    }
  }

  lemma {:induction false} CompletingStreamsStayWithin(b: Buffers, declared: map<int, int>, ts: seq<PayloadTransfer>)
    requires declared.Keys == b.Keys
    requires ConstantTotals(declared, ts)
    requires RunAll(false, b, ts).error.None? && RunAll(false, b, ts).buffers == map[]
    ensures WithinDeclared(b, ts)
    decreases |ts|
  {
    if ts != [] {
      var p := PushChunk(false, b, ts[0]);
      var id, total := ts[0].header.value.id.value, ts[0].header.value.totalSize.value;
      var last := LowBit(GetOr(ts[0].chunk.value.flags, 0));
      var declared' := if last then declared - {id} else declared[id := total];
      if !last && |p.buffers[id]| > total {
        OvergrownNeverCompletes(p.buffers, declared', ts[1..], id);
        assert false;
      }
      CompletingStreamsStayWithin(p.buffers, declared', ts[1..]);
    }
  }

  /** A stream the sender's assembler accepts, whose payloads keep their declared sizes and all complete,
      is accepted by the receiver's stricter one with the same outputs. */
  lemma CompleteStreamsAgree(ts: seq<PayloadTransfer>)
    requires ConstantTotals(map[], ts)
    requires RunAll(false, map[], ts).error.None? && RunAll(false, map[], ts).buffers == map[]
    ensures RunAll(true, map[], ts) == RunAll(false, map[], ts)
  {
    CompletingStreamsStayWithin(map[], map[], ts);
    AgreementIff(map[], ts);
  }

  /** Without those conditions the two differ: the sender buffers a byte of a payload declared empty. */
  lemma AssemblersDiffer()
    ensures var t := PayloadTransfer(Some(PayloadHeader(Some(7), Some(PAYLOAD_BYTES), Some(0))),
                                     Some(PayloadChunk(Some(0), Some(0), Some([1]))));
            RunAll(false, map[], [t]).error.None? && RunAll(true, map[], [t]).error == Some(ExceedsDeclared)
  {
    var t := PayloadTransfer(Some(PayloadHeader(Some(7), Some(PAYLOAD_BYTES), Some(0))),
                             Some(PayloadChunk(Some(0), Some(0), Some([1]))));
    assert [t][1..] == [];
  }

  // ------------------------------------------------------------------
  // What `send_sharing_frame` emits

  /** The data chunk and the terminator of a byte payload; the receiver's terminator has no body
      (src/quick_share_receiver.rs:481-527), the sender's an empty one (src/quick_share_sender.rs:715-748). */
  function SharingChunks(id: int, body: bytes, terminator: Option<bytes>): seq<PayloadTransfer> {
    var header := Some(PayloadHeader(Some(id), Some(PAYLOAD_BYTES), Some(|body|)));
    [ PayloadTransfer(header, Some(PayloadChunk(Some(0), Some(0), Some(body)))),
      PayloadTransfer(header, Some(PayloadChunk(Some(LAST_CHUNK), Some(|body|), terminator))) ]
  }

  /** Both forms reassemble, in both assemblers, to the one original body and leave no buffer behind --
      provided the body fits a wire frame and nothing of that payload is buffered already. */
  lemma SharingChunksReassemble(strict: bool, b: Buffers, id: int, body: bytes, terminator: Option<bytes>)
    requires terminator == None || terminator == Some([])
    ensures var run := RunAll(strict, b, SharingChunks(id, body, terminator));
            run.error.None? <==> |body| <= MAX_WIRE_FRAME_BYTES && BufferOf(b, id) == []
    ensures var run := RunAll(strict, b, SharingChunks(id, body, terminator));
            run.error.None? ==> run.outputs == [(id, body)] && run.buffers == b - {id}
  {
    var ts := SharingChunks(id, body, terminator);
    assert ts[1..] == [ts[1]];
    assert [ts[1]][1..] == [];
    var p := PushChunk(strict, b, ts[0]);
    if p.result.Ok? {
      assert BufferOf(b, id) + body == body;
      assert p.buffers == b[id := body] && p.result.value == None;
      var q := PushChunk(strict, p.buffers, ts[1]);
      assert body + GetOr(terminator, []) == body;
      assert p.buffers - {id} == b - {id};
      assert q == Pushed(b - {id}, Ok(Some((id, body))));
      assert RunAll(strict, p.buffers, [ts[1]]) == Run(b - {id}, [(id, body)], None);
      assert RunAll(strict, b, ts) == Run(b - {id}, [(id, body)], None);
    }
  }
}
