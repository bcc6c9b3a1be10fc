/** Where the part files are, step by step, and which of them a failed transfer leaves behind. The
    repository's README promises that they are removed on failure; the code does so except after it has
    taken an entry out of its map. */
module PartFiles {
  import opened Prelude
  import opened WireMessages
  import opened Assembler
  import opened Paths
  import opened Transfers
  import opened TransferInvariant
  import opened Preparation

  /** Of the part files `all` the transfer ever made, those on disk are exactly the pending ones. */
  ghost predicate PartsTracked(w: World, all: set<Path>) {
    && PartPaths(w.transfer.files) <= all
    && (forall i :: i in w.transfer.files ==> w.transfer.files[i].finalPath !in all)
    && (forall p :: p in all ==> PartShape(w.transfer.downloadDirectory, p))
    && (forall l :: IsLink(w.disk, l) ==> w.disk[l].target !in all)
    && (forall p :: p in all ==> (p in w.disk <==> p in PartPaths(w.transfer.files)))
  }

  /** Syncing or renaming fails, or a directory stands at the destination. */
  predicate CannotCommit(w: World, id: int, env: Env)
    requires id in w.transfer.files
  {
    var path := w.transfer.files[id].finalPath;
    env.fault.SyncFails? || env.fault.RenameFails? || (path in w.disk && w.disk[path].Directory?)
  }

  /** The last chunk of a file: it is in order, it completes the file, and its body is written; and then the file
      cannot be committed. */
  predicate LosesAtLastChunk(w: World, t: PayloadTransfer, env: Env, id: int) {
    && t.header.Some? && t.header.value.id == Some(id) && t.chunk.Some? && id in w.transfer.files
    && var pending, chunk := w.transfer.files[id], t.chunk.value;
    && chunk.offset == Some(AsI64(pending.received)) && LowBit(GetOr(chunk.flags, 0))
    && pending.received + |GetOr(chunk.body, [])| == pending.expectedSize <= MAX_U64
    && !(env.fault.WriteFails? && chunk.body.Some?)
    && CannotCommit(w, id, env)
  }

  /** A byte payload that is complete with this chunk bears the id of a pending file, and it has another size, or
      writing it fails, or the file cannot be committed. */
  predicate LosesAsBytes(w: World, t: PayloadTransfer, env: Env, id: int) {
    var pushed := PushChunk(true, w.buffers, t).result;
    && pushed.Ok? && pushed.value.Some? && pushed.value.value.0 == id && id in w.transfer.files
    && (|pushed.value.value.1| != w.transfer.files[id].expectedSize || env.fault.WriteFails? || CannotCommit(w, id, env))
  }

  /** The frame takes `id` out of the map, after which `cleanup_parts` no longer sees it, and fails to commit it. */
  predicate LosesPart(w: World, frame: OfflineFrame, env: Env, id: int) {
    && IsPayload(frame) && frame.v1.value.payloadTransfer.Some?
    && var t := frame.v1.value.payloadTransfer.value;
    && t.header.Some?
    && if t.header.value.payloadType == Some(PAYLOAD_FILE) then LosesAtLastChunk(w, t, env, id)
       else t.header.value.payloadType == Some(PAYLOAD_BYTES) && LosesAsBytes(w, t, env, id)
  }

  /** The same told by how the step ends. */
  predicate FailsAfterRemoval(w: World, frame: OfflineFrame, env: Env, id: int) {
    && IsPayload(frame) && frame.v1.value.payloadTransfer.Some?
    && Handle(w, frame, env).error.Some?
    && var t := frame.v1.value.payloadTransfer.value;
    && t.header.Some?
    && if t.header.value.payloadType == Some(PAYLOAD_FILE) then
         && t.header.value.id == Some(id) && t.chunk.Some?
         && Handle(w, frame, env).error == Some(Io)
         && !(env.fault.WriteFails? && t.chunk.value.body.Some?)
       else
         && t.header.value.payloadType == Some(PAYLOAD_BYTES)
         && var pushed := PushChunk(true, w.buffers, t).result;
         && pushed.Ok? && pushed.value.Some? && pushed.value.value.0 == id && id in w.transfer.files
  }

  lemma CommitFailsIff(w: World, id: int, env: Env)
    requires Sound(w) && id in w.transfer.files
    ensures var pending := w.transfer.files[id];
            FinishChunks(w, id, env).error == Some(Io) <==> pending.received == pending.expectedSize && CannotCommit(w, id, env)
  {
    hide Accounts, LogSound;
  }

  lemma LastChunkIff(w: World, t: PayloadTransfer, env: Env, id: int)
    requires Sound(w) && t.header.Some? && t.header.value.id == Some(id) && t.chunk.Some?
    ensures LosesAtLastChunk(w, t, env, id)
            <==> ReceiveFileChunk(w, t, env).error == Some(Io) && !(env.fault.WriteFails? && t.chunk.value.body.Some?)
  {
    hide Sound, FinishChunks, CannotCommit;
    var chunk := t.chunk.value;
    if id in w.transfer.files {
      var pending := w.transfer.files[id];
      SmallSizes(w, id);
      if chunk.body.Some? && pending.received + |chunk.body.value| <= pending.expectedSize {
        WrittenThenCommit(w, id, chunk.body.value, env);
      } else if chunk.body.None? {
        CommitFailsIff(w, id, env);
      }
    }
    hide WriteChunk;
  }

  lemma SmallSizes(w: World, id: int)
    requires Sound(w) && id in w.transfer.files
    ensures w.transfer.files[id].received <= w.transfer.files[id].expectedSize <= MAX_I64
  {
  }

  lemma WrittenThenCommit(w: World, id: int, body: bytes, env: Env)
    requires Sound(w) && id in w.transfer.files
    requires w.transfer.files[id].received + |body| <= w.transfer.files[id].expectedSize
    ensures var pending, mid := w.transfer.files[id], WriteChunk(w, id, body, env);
            if env.fault.WriteFails? then mid.error == Some(Io)
            else
              && mid.error.None?
              && (FinishChunks(mid.world, id, env).error == Some(Io)
                  <==> pending.received + |body| == pending.expectedSize && CannotCommit(w, id, env))
  {
    if !env.fault.WriteFails? {
      WriteChunkSound(w, id, body, env);
      CommitFailsIff(WriteChunk(w, id, body, env).world, id, env);
      DestinationIsNotPart(w, id);
    }
    hide Sound, FinishChunks;
  }

  lemma DestinationIsNotPart(w: World, id: int)
    requires Sound(w) && id in w.transfer.files
    ensures w.transfer.files[id].finalPath != w.transfer.files[id].partPath
  {
  }

  lemma FileBytesFailIff(w: World, id: int, content: bytes, env: Env)
    requires Sound(w) && id in w.transfer.files
    ensures ReceiveFileBytes(w, id, content, env).error.Some?
            <==> |content| != w.transfer.files[id].expectedSize || env.fault.WriteFails? || CannotCommit(w, id, env)
  {
    DestinationIsNotPart(w, id);
    hide Accounts, LogSound;
  }

  /** The guards say exactly when a step fails after the removal. */
  lemma LosesPartIff(w: World, frame: OfflineFrame, env: Env, id: int)
    requires Sound(w)
    ensures LosesPart(w, frame, env, id) <==> FailsAfterRemoval(w, frame, env, id)
  {
    hide Sound, ReceiveFileChunk, PushChunk, ReceiveFileBytes, LosesAtLastChunk, CannotCommit;
    if IsPayload(frame) && frame.v1.value.payloadTransfer.Some? && frame.v1.value.payloadTransfer.value.header.Some? {
      var t := frame.v1.value.payloadTransfer.value;
      if t.header.value.payloadType == Some(PAYLOAD_FILE) {
        if t.header.value.id == Some(id) && t.chunk.Some? {
          LastChunkIff(w, t, env, id);
        } else {
          NoChunkNoLoss(w, t, env, id);
        }
      } else if t.header.value.payloadType == Some(PAYLOAD_BYTES) {
        var pushed := PushChunk(true, w.buffers, t);
        if pushed.result.Ok? && pushed.result.value.Some? && pushed.result.value.value.0 == id && id in w.transfer.files {
          var mid := w.(buffers := pushed.buffers);
          BuffersIrrelevant(w, pushed.buffers);
          FileBytesFailIff(mid, id, pushed.result.value.value.1, env);
          assert CannotCommit(mid, id, env) <==> CannotCommit(w, id, env) by { SameCannotCommit(w, mid, id, env); }
        }
      }
    }
  }

  lemma NoChunkNoLoss(w: World, t: PayloadTransfer, env: Env, id: int)
    requires !(t.header.Some? && t.header.value.id == Some(id) && t.chunk.Some?)
    ensures !LosesAtLastChunk(w, t, env, id)
  {
  }

  lemma SameCannotCommit(w: World, mid: World, id: int, env: Env)
    requires id in w.transfer.files && mid.transfer == w.transfer && mid.disk == w.disk
    ensures CannotCommit(mid, id, env) <==> CannotCommit(w, id, env)
  {
  }

  /** Where the frame breaks off the writing of a text, if it does. */
  function BrokenText(w: World, frame: OfflineFrame, env: Env): Option<Path> {
    if !(IsPayload(frame) && frame.v1.value.payloadTransfer.Some?) then None
    else
      var t := frame.v1.value.payloadTransfer.value;
      if !(t.header.Some? && t.header.value.payloadType == Some(PAYLOAD_BYTES)) then None
      else
        match PushChunk(true, w.buffers, t).result
        case Ok(Some((id, content))) =>
          if id in w.transfer.files || id !in w.transfer.texts then None else BrokenAt(w, id, content, env)
        case _ => None
  }

  function BrokenAt(w: World, id: int, content: bytes, env: Env): Option<Path>
    requires id in w.transfer.texts
  {
    if |content| == w.transfer.texts[id].expectedSize && env.fault.WriteFails?
    then WriteTarget(w.disk, TextPath(w, w.transfer.texts[id].isUrl, env)) else None
  }

  /** The committed paths of `w` hold, on `disk`, what was last committed there -- but for `broken`. */
  ghost predicate CommittedIntact(w: World, disk: Disk, broken: Option<Path>) {
    forall k :: 0 <= k < |w.log| && Some(w.log[k].path) != broken ==>
      && w.log[k].path in disk && LastAt(w.log, w.log[k].path).Some?
      && disk[w.log[k].path] == Regular(LastAt(w.log, w.log[k].path).value)
  }

  /** Every regular file that is on the disk now and was not before. */
  function NewFiles(before: Disk, after: Disk): set<Path> {
    set x | x in after && x !in before && after[x].Regular?
  }

  /** `prepare` starts the tracking: every regular file it made is the part file of a pending entry. */
  lemma PreparedIsTracked(
    introduction: Introduction, root: Path, disk: Disk, processId: nat, choices: seq<Choice>, buffers: Buffers)
    requires |choices| == |introduction.files|
    requires Prepare(introduction, root, disk, processId, choices).result.Ok?
    requires PreparedApart(Prepare(introduction, root, disk, processId, choices))
    ensures var prepared := Prepare(introduction, root, disk, processId, choices);
            PartsTracked(StartOf(prepared.result.value, prepared.disk, buffers), NewFiles(disk, prepared.disk))
  {
    hide Prepare, PartShape;
    PrepareEstablishesSound(introduction, root, disk, processId, choices, buffers);
    var prepared := Prepare(introduction, root, disk, processId, choices);
    var w := StartOf(prepared.result.value, prepared.disk, buffers);
    PendingPartsAreTracked(w);
    hide Sound, PartsTracked, PartPaths;
    forall x
      ensures x in NewFiles(disk, prepared.disk) <==> x in PartPaths(w.transfer.files)
    {
    }
    assert NewFiles(disk, prepared.disk) == PartPaths(w.transfer.files);
  }

  lemma PendingPartsAreTracked(w: World)
    requires Sound(w)
    ensures PartsTracked(w, PartPaths(w.transfer.files))
    ensures forall x :: x in PartPaths(w.transfer.files) ==> x in w.disk
  {
  }

  // ------------------------------------------------------------------
  // Steps that succeed

  lemma PartPathsWithout(files: map<int, PendingFile>, id: int)
    requires id in files
    requires forall i, j :: i in files && j in files && i != j ==> files[i].partPath != files[j].partPath
    ensures PartPaths(files - {id}) == PartPaths(files) - {files[id].partPath}
    ensures files[id].partPath in PartPaths(files)
  {
    forall p | p in PartPaths(files) - {files[id].partPath}
      ensures p in PartPaths(files - {id})
    {
      var i :| i in files && files[i].partPath == p;
      assert i in files - {id} && (files - {id})[i].partPath == p;
    }
    forall p | p in PartPaths(files - {id})
      ensures p in PartPaths(files) - {files[id].partPath}
    {
      var i :| i in files - {id} && (files - {id})[i].partPath == p;
      assert files[i].partPath == p;
    }
  }

  lemma PartPathsUpdate(files: map<int, PendingFile>, id: int, received: nat)
    requires id in files
    ensures PartPaths(files[id := files[id].(received := received)]) == PartPaths(files)
  {
    var next := files[id := files[id].(received := received)];
    assert forall i :: i in files ==> next[i].partPath == files[i].partPath;
    assert next.Keys == files.Keys;
  }

  lemma WriteTracked(w: World, id: int, body: bytes, all: set<Path>)
    requires Sound(w) && PartsTracked(w, all) && id in w.transfer.files
    ensures PartsTracked(WriteWith(w, id, body), all)
  {
    hide Accounts, LogSound, PartPaths;
    PartPathsUpdate(w.transfer.files, id, w.transfer.files[id].received + |body|);
  }

  lemma CommitTracked(w: World, id: int, extra: bytes, all: set<Path>)
    requires Sound(w) && PartsTracked(w, all) && id in w.transfer.files
    ensures PartsTracked(CommitWith(w, id, extra), all)
  {
    hide Accounts, LogSound;
    PartPathsWithout(w.transfer.files, id);
  }

  lemma TextTracked(w: World, id: int, content: bytes, path: Path, target: Path, all: set<Path>)
    requires PartsTracked(w, all) && id in w.transfer.texts && target !in all
    ensures PartsTracked(TextAt(w, id, content, path, target), all)
  {
  }

  lemma FileChunkTracked(w: World, t: PayloadTransfer, env: Env, all: set<Path>)
    requires Sound(w) && PartsTracked(w, all) && ReceiveFileChunk(w, t, env).error.None?
    ensures PartsTracked(ReceiveFileChunk(w, t, env).world, all)
  {
    hide Sound, PartsTracked, CommitWith, WriteWith;
    var id, chunk := t.header.value.id.value, t.chunk.value;
    var mid := w;
    if chunk.body.Some? {
      mid := WriteChunk(w, id, chunk.body.value, env).world;
      WriteChunkSound(w, id, chunk.body.value, env);
      WriteTracked(w, id, chunk.body.value, all);
      assert mid == WriteWith(w, id, chunk.body.value) by { WriteIs(w, id, chunk.body.value, env); }
    }
    if LowBit(GetOr(chunk.flags, 0)) {
      FinishChunksIsCommit(mid, id, env);
      CommitTracked(mid, id, [], all);
    }
    hide WriteChunk, FinishChunks;
  }

  lemma WriteIs(w: World, id: int, body: bytes, env: Env)
    requires id in w.transfer.files && WriteChunk(w, id, body, env).error.None?
    ensures WriteChunk(w, id, body, env).world == WriteWith(w, id, body)
  {
  }

  lemma TextPathShape(w: World, isUrl: bool, env: Env)
    ensures !PartShape(w.transfer.downloadDirectory, TextPath(w, isUrl, env))
  {
    TextNameIsComponent(isUrl, env.now);
    DestinationShape(w.disk, w.transfer.downloadDirectory, TextName(isUrl, env.now), env.fallback);
  }

  /** Through whatever links, no text is written to a part file the transfer ever made. */
  lemma TextTargetApart(w: World, isUrl: bool, env: Env, all: set<Path>)
    requires PartsTracked(w, all)
    ensures var target := WriteTarget(w.disk, TextPath(w, isUrl, env)); target.Some? ==> target.value !in all
  {
    TextPathShape(w, isUrl, env);
    EndIsSelfOrTarget(w.disk, TextPath(w, isUrl, env), MAX_LINKS);
    hide TextPath, Follow, PartShape, PartPaths;
  }

  lemma ReceiveBytesTracked(w: World, id: int, content: bytes, env: Env, all: set<Path>)
    requires Sound(w) && PartsTracked(w, all) && ReceiveBytes(w, id, content, env).error.None?
    ensures PartsTracked(ReceiveBytes(w, id, content, env).world, all)
  {
    if id in w.transfer.files {
      FileBytesIsCommit(w, id, content, env);
      CommitTracked(w, id, content, all);
    } else if id in w.transfer.texts {
      var isUrl := w.transfer.texts[id].isUrl;
      var path := TextPath(w, isUrl, env);
      var target := WriteTarget(w.disk, path).value;
      TextTargetApart(w, isUrl, env, all);
      TextTracked(w, id, content, path, target, all);
      hide PartsTracked, UniqueDestination, Sound, PartShape, WriteTarget;
      assert ReceiveText(w, id, content, env).world == TextAt(w, id, content, path, target);
    }
  }

  /** After every successful step the part files on disk are exactly those of the entries still pending. */
  lemma {:induction false} HandleTracked(w: World, frame: OfflineFrame, env: Env, all: set<Path>)
    requires Sound(w) && PartsTracked(w, all) && Handle(w, frame, env).error.None?
    ensures PartsTracked(Handle(w, frame, env).world, all)
  {
    hide Sound, ReceiveFileChunk, PushChunk, ReceiveBytes;
    if IsPayload(frame) {
      var t := frame.v1.value.payloadTransfer.value;
      if t.header.value.payloadType == Some(PAYLOAD_FILE) {
        FileChunkTracked(w, t, env, all);
      } else {
        var pushed := PushChunk(true, w.buffers, t);
        BuffersIrrelevant(w, pushed.buffers);
        assert PartsTracked(w.(buffers := pushed.buffers), all);
        if pushed.result.value.Some? {
          ReceiveBytesTracked(w.(buffers := pushed.buffers), pushed.result.value.value.0, pushed.result.value.value.1, env, all);
        }
      }
    }
  }

  // ------------------------------------------------------------------
  // The step that fails

  /** The ways a step can fail, by what they do to the map: nothing, an entry updated, or an entry gone. */
  ghost predicate FailedKeeping(w: World, after: World) {
    && after.log == w.log
    && PartPaths(after.transfer.files) == PartPaths(w.transfer.files)
    && after.disk.Keys == w.disk.Keys
    && (forall p :: p in w.disk && p !in PartPaths(w.transfer.files) ==> after.disk[p] == w.disk[p])
  }

  /** A text is broken off at `path`: nothing else changes on the disk. */
  ghost predicate FailedBreaking(w: World, after: World, path: Path) {
    && after.log == w.log && after.transfer.files == w.transfer.files
    && path in after.disk && after.disk == w.disk[path := after.disk[path]]
  }

  ghost predicate FailedLosing(w: World, after: World, id: int) {
    && id in w.transfer.files
    && after.log == w.log
    && after.transfer.files.Keys == w.transfer.files.Keys - {id}
    && PartPaths(after.transfer.files) == PartPaths(w.transfer.files) - {w.transfer.files[id].partPath}
    && after.disk.Keys == w.disk.Keys
    && (forall p :: p in w.disk && p !in PartPaths(w.transfer.files) ==> after.disk[p] == w.disk[p])
  }

  lemma AppendFailsKeeping(w: World, id: int, body: bytes, transfer: Transfer)
    requires Sound(w) && id in w.transfer.files && PartPaths(transfer.files) == PartPaths(w.transfer.files)
    ensures FailedKeeping(w, w.(transfer := transfer, disk := AppendTo(w.disk, w.transfer.files[id].partPath, body)))
  {
    hide Accounts, LogSound;
    assert w.transfer.files[id].partPath in PartPaths(w.transfer.files);
  }

  lemma KeepingThenLosing(w: World, mid: World, after: World, id: int)
    requires FailedKeeping(w, mid) && FailedLosing(mid, after, id)
    requires id in w.transfer.files && mid.transfer.files.Keys == w.transfer.files.Keys
    requires mid.transfer.files[id].partPath == w.transfer.files[id].partPath
    ensures FailedLosing(w, after, id)
  {
  }

  lemma FileChunkFails(w: World, t: PayloadTransfer, env: Env)
    requires Sound(w) && ReceiveFileChunk(w, t, env).error.Some?
    ensures var step := ReceiveFileChunk(w, t, env);
            if step.error == Some(Io) && !(env.fault.WriteFails? && t.chunk.value.body.Some?)
            then t.header.Some? && t.header.value.id.Some? && FailedLosing(w, step.world, t.header.value.id.value)
            else FailedKeeping(w, step.world)
  {
    hide Sound, FailedKeeping, FailedLosing, WriteChunk, FinishChunks;
    if t.header.Some? && t.header.value.id.Some? && t.chunk.Some? && t.header.value.id.value in w.transfer.files {
      var id, chunk := t.header.value.id.value, t.chunk.value;
      var pending := w.transfer.files[id];
      if chunk.body.Some? && pending.received + |chunk.body.value| <= pending.expectedSize {
        BodyChunkFails(w, id, chunk.body.value, env);
      } else if chunk.body.None? && FinishChunks(w, id, env).error.Some? {
        FinishFails(w, id, env);
      }
    }
    if ReceiveFileChunk(w, t, env).world == w {
      FailedKeepingRefl(w, w);
    }
  }

  lemma BodyChunkFails(w: World, id: int, body: bytes, env: Env)
    requires Sound(w) && id in w.transfer.files
    requires w.transfer.files[id].received + |body| <= w.transfer.files[id].expectedSize
    ensures var mid := WriteChunk(w, id, body, env);
            if mid.error.Some? then mid.error == Some(Io) && env.fault.WriteFails? && FailedKeeping(w, mid.world)
            else
              var end := FinishChunks(mid.world, id, env);
              && !env.fault.WriteFails?
              && (end.error == Some(Io) ==> FailedLosing(w, end.world, id))
              && (end.error.Some? && end.error != Some(Io) ==> FailedKeeping(w, end.world))
  {
    hide Sound, FailedKeeping, FailedLosing, WriteChunk, FinishChunks;
    var mid := WriteChunk(w, id, body, env);
    WriteChunkFailsKeeping(w, id, body, env);
    if mid.error.None? && FinishChunks(mid.world, id, env).error.Some? {
      WriteChunkMap(w, id, body, env);
      WriteChunkSound(w, id, body, env);
      FinishFails(mid.world, id, env);
      if FinishChunks(mid.world, id, env).error == Some(Io) {
        KeepingThenLosing(w, mid.world, FinishChunks(mid.world, id, env).world, id);
      }
    }
  }

  lemma WriteChunkMap(w: World, id: int, body: bytes, env: Env)
    requires id in w.transfer.files
    ensures var mid := WriteChunk(w, id, body, env).world;
            && mid.transfer.files.Keys == w.transfer.files.Keys
            && mid.transfer.files[id].partPath == w.transfer.files[id].partPath
            && mid.transfer.files[id].expectedSize == w.transfer.files[id].expectedSize
  {
  }

  lemma WriteChunkFailsKeeping(w: World, id: int, body: bytes, env: Env)
    requires Sound(w) && id in w.transfer.files
    ensures FailedKeeping(w, WriteChunk(w, id, body, env).world)
    ensures WriteChunk(w, id, body, env).error == if env.fault.WriteFails? then Some(Io) else None
  {
    hide Accounts, LogSound, PartsSound, PartPaths;
    var step := WriteChunk(w, id, body, env);
    PartPathsUpdate(w.transfer.files, id, w.transfer.files[id].received + |body|);
    var written := match env.fault case WriteFails(k) => Partial(body, k) case _ => body;
    AppendFailsKeeping(w, id, written, step.world.transfer);
    assert step.world == w.(transfer := step.world.transfer, disk := AppendTo(w.disk, w.transfer.files[id].partPath, written));
  }

  lemma FinishFails(w: World, id: int, env: Env)
    requires Sound(w) && id in w.transfer.files && FinishChunks(w, id, env).error.Some?
    ensures var step := FinishChunks(w, id, env);
            if step.error == Some(Io) then FailedLosing(w, step.world, id) else step.world == w
    ensures FinishChunks(w, id, env).world == w ==> FailedKeeping(w, w)
  {
    PartPathsWithout(w.transfer.files, id);
  }

  lemma FileBytesFails(w: World, id: int, content: bytes, env: Env)
    requires Sound(w) && id in w.transfer.files && ReceiveFileBytes(w, id, content, env).error.Some?
    ensures FailedLosing(w, ReceiveFileBytes(w, id, content, env).world, id)
  {
    hide Accounts, LogSound;
    PartPathsWithout(w.transfer.files, id);
  }

  lemma FailedKeepingRefl(w: World, after: World)
    requires after.transfer.files == w.transfer.files && after.disk == w.disk && after.log == w.log
    ensures FailedKeeping(w, after)
  {
  }

  ghost predicate HowItFails(w: World, frame: OfflineFrame, env: Env) {
    var after, broken := Handle(w, frame, env).world, BrokenText(w, frame, env);
    || ((forall id :: !FailsAfterRemoval(w, frame, env, id)) && broken.None? && FailedKeeping(w, after))
    || ((forall id :: !FailsAfterRemoval(w, frame, env, id)) && broken.Some? && FailedBreaking(w, after, broken.value))
    || (broken.None? && exists id :: FailsAfterRemoval(w, frame, env, id) && FailedLosing(w, after, id)
                                     && forall i :: FailsAfterRemoval(w, frame, env, i) ==> i == id)
  }

  lemma TextFails(w: World, id: int, content: bytes, env: Env)
    requires id in w.transfer.texts && ReceiveText(w, id, content, env).error.Some?
    ensures var after, broken := ReceiveText(w, id, content, env).world, BrokenAt(w, id, content, env);
            if broken.Some? then FailedBreaking(w, after, broken.value)
            else after.log == w.log && after.transfer.files == w.transfer.files && after.disk == w.disk
  {
    hide UniqueDestination, WriteTarget;
  }

  lemma HandleFails(w: World, frame: OfflineFrame, env: Env)
    requires Sound(w) && Handle(w, frame, env).error.Some?
    ensures HowItFails(w, frame, env)
  {
    hide Sound, ReceiveFileChunk, PushChunk, ReceiveFileBytes, FailedKeeping, FailedLosing, FailedBreaking, BrokenAt;
    var after := Handle(w, frame, env).world;
    if IsPayload(frame) && frame.v1.value.payloadTransfer.Some? && frame.v1.value.payloadTransfer.value.header.Some? {
      var t := frame.v1.value.payloadTransfer.value;
      if t.header.value.payloadType == Some(PAYLOAD_FILE) {
        FileChunkFails(w, t, env);
        if ReceiveFileChunk(w, t, env).error == Some(Io) {
          ChunkIoMeansChunk(w, t, env);
        }
      } else if t.header.value.payloadType == Some(PAYLOAD_BYTES) {
        BytesFails(w, t, frame, env);
      } else {
        FailedKeepingRefl(w, after);
      }
    } else {
      FailedKeepingRefl(w, after);
    }
  }

  lemma ChunkIoMeansChunk(w: World, t: PayloadTransfer, env: Env)
    requires ReceiveFileChunk(w, t, env).error == Some(Io)
    ensures t.chunk.Some?
  {
  }

  lemma BytesFails(w: World, t: PayloadTransfer, frame: OfflineFrame, env: Env)
    requires Sound(w) && IsPayload(frame) && frame.v1.value.payloadTransfer == Some(t)
    requires t.header.Some? && t.header.value.payloadType == Some(PAYLOAD_BYTES)
    requires Handle(w, frame, env).error.Some?
    ensures HowItFails(w, frame, env)
  {
    hide Sound, PushChunk, FailedKeeping, FailedLosing, FailedBreaking, BrokenAt, ReceiveText, ReceiveFileBytes;
    var pushed := PushChunk(true, w.buffers, t);
    var mid := w.(buffers := pushed.buffers);
    var after := Handle(w, frame, env).world;
    BuffersIrrelevant(w, pushed.buffers);
    if pushed.result.Ok? && pushed.result.value.Some? && pushed.result.value.value.0 in w.transfer.files {
      var id := pushed.result.value.value.0;
      FileBytesFails(mid, id, pushed.result.value.value.1, env);
      LosingIgnoresBuffers(w, pushed.buffers, after, id);
      assert FailsAfterRemoval(w, frame, env, id);
    } else if pushed.result.Ok? && pushed.result.value.Some? {
      var (id, content) := pushed.result.value.value;
      TextFails(mid, id, content, env);
      BreakingIgnoresBuffers(w, pushed.buffers, id, content, env, after);
      if BrokenAt(mid, id, content, env).None? {
        FailedKeepingRefl(w, after);
      }
    } else {
      FailedKeepingRefl(w, after);
    }
  }

  lemma BreakingIgnoresBuffers(w: World, buffers: Buffers, id: int, content: bytes, env: Env, after: World)
    requires id in w.transfer.texts
    ensures BrokenAt(w.(buffers := buffers), id, content, env) == BrokenAt(w, id, content, env)
    ensures forall path :: FailedBreaking(w.(buffers := buffers), after, path) <==> FailedBreaking(w, after, path)
  {
    hide UniqueDestination, WriteTarget;
  }

  lemma LosingIgnoresBuffers(w: World, buffers: Buffers, after: World, id: int)
    requires FailedLosing(w.(buffers := buffers), after, id)
    ensures FailedLosing(w, after, id)
  {
  }

  /** What was committed before the step is on the disk after it and after `cleanup_parts`. */
  lemma IntactAfter(w: World, after: World, broken: Option<Path>)
    requires Sound(w) && after.log == w.log && PartPaths(after.transfer.files) <= PartPaths(w.transfer.files)
    requires forall p :: p in w.disk && Some(p) != broken ==> p in after.disk
    requires forall p :: p in w.disk && p !in PartPaths(w.transfer.files) && Some(p) != broken ==> after.disk[p] == w.disk[p]
    ensures CommittedIntact(after, CleanupParts(after), broken)
  {
    hide Accounts, PartPaths, PartsSound;
    forall k | 0 <= k < |after.log|
      ensures after.log[k].path !in PartPaths(w.transfer.files)
    {
      LogApart(w, k) by { SoundHasParts(w); }
    }
  }

  lemma SoundHasParts(w: World)
    requires Sound(w)
    ensures PartsSound(w)
  {
  }

  lemma CleanupKeeping(w: World, after: World, all: set<Path>)
    requires Sound(w) && PartsTracked(w, all) && FailedKeeping(w, after)
    ensures (forall p :: p in all ==> p !in CleanupParts(after)) && CommittedIntact(after, CleanupParts(after), None)
  {
    IntactAfter(w, after, None);
    hide Sound, PartPaths, CommittedIntact;
  }

  lemma CleanupBreaking(w: World, after: World, path: Path, all: set<Path>)
    requires Sound(w) && PartsTracked(w, all) && FailedBreaking(w, after, path) && path !in all
    ensures (forall p :: p in all ==> p !in CleanupParts(after)) && CommittedIntact(after, CleanupParts(after), Some(path))
  {
    IntactAfter(w, after, Some(path));
    hide Sound, PartPaths, CommittedIntact;
  }

  lemma BrokenApart(w: World, frame: OfflineFrame, env: Env, all: set<Path>)
    requires PartsTracked(w, all) && BrokenText(w, frame, env).Some?
    ensures BrokenText(w, frame, env).value !in all
  {
    hide PartsTracked, PushChunk, WriteTarget, TextPath;
    var content := PushChunk(true, w.buffers, frame.v1.value.payloadTransfer.value).result.value.value;
    TextTargetApart(w, w.transfer.texts[content.0].isUrl, env, all);
  }

  lemma CleanupLosing(w: World, after: World, id: int, all: set<Path>)
    requires Sound(w) && PartsTracked(w, all) && FailedLosing(w, after, id)
    ensures forall p :: p in all ==> (p in CleanupParts(after) <==> p == w.transfer.files[id].partPath)
    ensures CommittedIntact(after, CleanupParts(after), None)
  {
    IntactAfter(w, after, None);
    OwnPart(w);
    hide Sound, PartPaths, CommittedIntact;
  }

  /** After a failing step and `cleanup_parts`, a part file is left exactly when the step had already taken
      its entry out of the map, and every committed file is intact, except one over which a text was being
      written when the disk failed. */
  lemma CleanupAfterFailure(w: World, frame: OfflineFrame, env: Env, all: set<Path>)
    requires Sound(w) && PartsTracked(w, all) && Handle(w, frame, env).error.Some?
    ensures var left := CleanupParts(Handle(w, frame, env).world);
            && (forall p :: p in all ==>
                  (p in left <==>
                     exists id :: id in w.transfer.files && LosesPart(w, frame, env, id) && p == w.transfer.files[id].partPath))
            && CommittedIntact(Handle(w, frame, env).world, left, BrokenText(w, frame, env))
  {
    hide Sound, PartsTracked, Handle, LosesPart, FailsAfterRemoval, FailedKeeping, FailedBreaking, CleanupParts, CommittedIntact;
    hide BrokenText;
    HandleFails(w, frame, env);
    forall id
      ensures LosesPart(w, frame, env, id) <==> FailsAfterRemoval(w, frame, env, id)
    {
      LosesPartIff(w, frame, env, id);
    }
    var after := Handle(w, frame, env).world;
    if id :| FailsAfterRemoval(w, frame, env, id) && FailedLosing(w, after, id) {
      CleanupLosing(w, after, id, all);
    } else if BrokenText(w, frame, env).Some? {
      BrokenApart(w, frame, env, all);
      CleanupBreaking(w, after, BrokenText(w, frame, env).value, all);
    } else {
      CleanupKeeping(w, after, all);
    }
  }

  lemma OwnPart(w: World)
    ensures forall i :: i in w.transfer.files ==> w.transfer.files[i].partPath in PartPaths(w.transfer.files)
  {
  }

  lemma LogApart(w: World, k: nat)
    requires PartsSound(w) && k < |w.log|
    ensures w.log[k].path !in PartPaths(w.transfer.files)
  {
  }

  // ------------------------------------------------------------------
  // Whole runs

  /** The world and the arrival at which a run of `receive_all` fails, if a frame makes it fail. */
  function FailingStep(w: World, arrivals: seq<Arrival>): Option<(World, Arrival)>
    decreases |arrivals|
  {
    if Finished(w.transfer) || arrivals == [] then None
    else
      var step := Handle(w, arrivals[0].frame, arrivals[0].env);
      if step.error.Some? then Some((w, arrivals[0])) else FailingStep(step.world, arrivals[1..])
  }

  lemma CleanupOfPending(w: World, all: set<Path>)
    requires Sound(w) && PartsTracked(w, all)
    ensures (forall p :: p in all ==> p !in CleanupParts(w)) && CommittedIntact(w, CleanupParts(w), None)
  {
    hide Accounts;
    forall k | 0 <= k < |w.log|
      ensures w.log[k].path !in PartPaths(w.transfer.files)
    {
      LogApart(w, k);
    }
  }

  /** After any failed run and `cleanup_parts`: if the connection ended, no part file remains; if a frame made
      it fail, the only part file that can remain is that of the entry the frame had already removed. Whatever
      was committed is intact, except what a text was being written over when the disk failed. */
  lemma {:induction false} FailedRunLeaves(w: World, arrivals: seq<Arrival>, all: set<Path>)
    requires Sound(w) && PartsTracked(w, all) && ReceiveAll(w, arrivals).error.Some?
    ensures var end := ReceiveAll(w, arrivals).world;
            var left := CleanupParts(end);
            var failing := FailingStep(w, arrivals);
            && (forall p :: p in all ==>
                  (p in left <==>
                     && failing.Some?
                     && exists id :: id in failing.value.0.transfer.files
                                     && LosesPart(failing.value.0, failing.value.1.frame, failing.value.1.env, id)
                                     && p == failing.value.0.transfer.files[id].partPath))
            && CommittedIntact(
                 end, left,
                 if failing.Some? then BrokenText(failing.value.0, failing.value.1.frame, failing.value.1.env) else None)
    decreases |arrivals|
  {
    hide Sound, PartsTracked, LosesPart, CleanupParts, CommittedIntact, Handle, BrokenText;
    if arrivals == [] {
      CleanupOfPending(w, all);
    } else {
      var step := Handle(w, arrivals[0].frame, arrivals[0].env);
      if step.error.Some? {
        CleanupAfterFailure(w, arrivals[0].frame, arrivals[0].env, all);
      } else {
        HandleSound(w, arrivals[0].frame, arrivals[0].env);
        HandleTracked(w, arrivals[0].frame, arrivals[0].env, all);
        FailedRunLeaves(step.world, arrivals[1..], all);
      }
    }
  }

  /** In particular nothing remains after a lost connection, a Disconnection frame, an assembler error, or a
      refused FILE chunk. */
  lemma {:induction false} OrdinaryFailuresLeaveNothing(w: World, arrivals: seq<Arrival>, all: set<Path>)
    requires Sound(w) && PartsTracked(w, all) && ReceiveAll(w, arrivals).error.Some?
    requires var e := ReceiveAll(w, arrivals).error.value;
             || e == WireFraming || e == Disconnected || e.Assembly?
             || (e == Protocol && FailingStep(w, arrivals).Some?
                 && var t := FailingStep(w, arrivals).value.1.frame.v1;
                 t.Some? && t.value.payloadTransfer.Some? && t.value.payloadTransfer.value.header.Some?
                 && t.value.payloadTransfer.value.header.value.payloadType == Some(PAYLOAD_FILE))
    ensures forall p :: p in all ==> p !in CleanupParts(ReceiveAll(w, arrivals).world)
  {
    FailedRunLeaves(w, arrivals, all);
    FailingError(w, arrivals);
    FailingWorldIsSound(w, arrivals);
    hide Sound, Handle, LosesPart, FailsAfterRemoval, ReceiveAll, PartsTracked;
    var failing := FailingStep(w, arrivals);
    if failing.Some? {
      var (w', a) := failing.value;
      forall id
        ensures !LosesPart(w', a.frame, a.env, id)
      {
        LosesPartIff(w', a.frame, a.env, id);
        if LosesPart(w', a.frame, a.env, id) {
          BytesForFileErrors(w', a.frame, a.env, id);
        }
      }
    }
  }

  lemma {:induction false} FailingError(w: World, arrivals: seq<Arrival>)
    requires ReceiveAll(w, arrivals).error.Some?
    ensures var failing := FailingStep(w, arrivals);
            if failing.Some?
            then Handle(failing.value.0, failing.value.1.frame, failing.value.1.env).error == ReceiveAll(w, arrivals).error
            else ReceiveAll(w, arrivals).error == Some(WireFraming)
    decreases |arrivals|
  {
    hide Handle;
    if arrivals != [] && !Finished(w.transfer) {
      var step := Handle(w, arrivals[0].frame, arrivals[0].env);
      if step.error.None? {
        FailingError(step.world, arrivals[1..]);
      }
    }
  }

  lemma {:induction false} FailingWorldIsSound(w: World, arrivals: seq<Arrival>)
    requires Sound(w)
    ensures FailingStep(w, arrivals).Some? ==> Sound(FailingStep(w, arrivals).value.0)
    decreases |arrivals|
  {
    hide Handle, Sound;
    if arrivals != [] && !Finished(w.transfer) {
      var step := Handle(w, arrivals[0].frame, arrivals[0].env);
      if step.error.None? {
        HandleSound(w, arrivals[0].frame, arrivals[0].env);
        FailingWorldIsSound(step.world, arrivals[1..]);
      }
    }
  }

  lemma BytesForFileErrors(w: World, frame: OfflineFrame, env: Env, id: int)
    requires FailsAfterRemoval(w, frame, env, id)
    ensures var t := frame.v1.value.payloadTransfer.value;
            || (Handle(w, frame, env).error == Some(Io) && t.header.value.payloadType == Some(PAYLOAD_FILE))
            || (Handle(w, frame, env).error in {Some(Io), Some(Protocol)} && t.header.value.payloadType == Some(PAYLOAD_BYTES))
  {
    hide PushChunk;
  }

  /** The promise does fail: one file of two bytes, sent as a byte payload of one byte, is refused and its part
      file stays. */
  lemma PartCanStay()
    ensures var part, target := ["d", ".hirodrop-1-2.part"], ["d", "a"];
            var files := map[5 := PendingFile(2, 0, target, part)];
            var w := World(Transfer(files, map[], {}, ["d"], [], 2, 0), map[5 := [7]], map[part := Regular([])], []);
            var frame := PayloadFrame(5, PAYLOAD_BYTES, 1, PayloadChunk(Some(LAST_CHUNK), Some(1), None));
            var step := Handle(w, frame, Env(NoFault, 0, 0));
            step.error == Some(Protocol) && part in CleanupParts(step.world)
  {
    assert [7] + [] == [7];
  }
}
