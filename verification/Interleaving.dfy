/** The order in which the payloads of a transfer are mixed does not matter: `receive_all` does with each
    payload id what the chunks of that id alone say (src/quick_share_receiver.rs:870-1095). */
module Interleaving {
  import opened Prelude
  import opened WireMessages
  import opened Assembler
  import opened Paths
  import opened Transfers
  import opened TransferInvariant
  import opened Fidelity

  // ------------------------------------------------------------------
  // One payload id

  /** A pending file: the bytes in its part file, and whether a directory stands at its destination. */
  datatype FileCell = FileCell(expectedSize: nat, content: bytes, finalPath: Path, blocked: bool)

  /** A commit as one payload id sees it. Where a text goes depends on the disk, so no path is kept for it. */
  datatype Kept = Kept(path: Option<Path>, content: bytes, declared: nat)

  /** All that one payload id has of a world. */
  datatype Cell = Cell(file: Option<FileCell>, text: Option<nat>, buffers: Buffers, kept: seq<Kept>)

  function FileStep(c: Cell, t: PayloadTransfer): Option<Cell> {
    if t.chunk.None? || c.file.None? then None
    else
      var f, chunk := c.file.value, t.chunk.value;
      var content := f.content + GetOr(chunk.body, []);
      if chunk.offset != Some(|f.content|) || |content| > f.expectedSize then None
      else if !LowBit(GetOr(chunk.flags, 0)) then Some(c.(file := Some(f.(content := content))))
      else if |content| != f.expectedSize || f.blocked then None
      else Some(c.(file := None, kept := c.kept + [Kept(Some(f.finalPath), content, f.expectedSize)]))
  }

  function WholeStep(c: Cell, content: bytes): Option<Cell> {
    if c.file.Some? then
      var f := c.file.value;
      if |content| != f.expectedSize || f.blocked then None
      else Some(c.(file := None, kept := c.kept + [Kept(Some(f.finalPath), f.content + content, f.expectedSize)]))
    else if c.text.Some? then
      if |content| != c.text.value then None
      else Some(c.(text := None, kept := c.kept + [Kept(None, content, c.text.value)]))
    else Some(c)
  }

  /** What one chunk does to its own payload id; None is an error. */
  function CellStep(c: Cell, t: PayloadTransfer): Option<Cell> {
    if t.header.None? then None
    else if t.header.value.payloadType == Some(PAYLOAD_FILE) then FileStep(c, t)
    else if t.header.value.payloadType == Some(PAYLOAD_BYTES) then
      var pushed := PushChunk(true, c.buffers, t);
      match pushed.result
      case Err(_) => None
      case Ok(None) => Some(c.(buffers := pushed.buffers))
      case Ok(Some(payload)) => WholeStep(c.(buffers := pushed.buffers), payload.1)
    else None
  }

  function RunCell(c: Cell, ts: seq<PayloadTransfer>): Option<Cell>
    decreases |ts|
  {
    if ts == [] then Some(c)
    else
      var next := CellStep(c, ts[0]);
      if next.None? then None else RunCell(next.value, ts[1..])
  }

  // ------------------------------------------------------------------
  // A world seen by one payload id

  function FileOf(w: World, id: int): Option<FileCell> {
    if id !in w.transfer.files then None
    else
      var p := w.transfer.files[id];
      Some(FileCell(p.expectedSize, ContentAt(w.disk, p.partPath), p.finalPath, !Clear(w, id)))
  }

  function TextOf(w: World, id: int): Option<nat> {
    if id in w.transfer.texts then Some(w.transfer.texts[id].expectedSize) else None
  }

  /** The commits of one id. A text's path is not kept; what is a text is known from the table `files`. */
  function KeptFor(isFile: bool, id: int, log: seq<Commit>): seq<Kept> {
    if log == [] then []
    else
      var last := log[|log| - 1];
      KeptFor(isFile, id, log[..|log| - 1])
      + if last.id == id then [Kept(if isFile then Some(last.path) else None, last.content, last.declared)] else []
  }

  /** `wasFile` says which ids were offered as files. */
  function View(wasFile: set<int>, w: World, id: int): Cell {
    Cell(FileOf(w, id), TextOf(w, id), Only(w.buffers, id), KeptFor(id in wasFile, id, w.log))
  }

  lemma KeptForPush(isFile: bool, id: int, log: seq<Commit>, c: Commit)
    ensures KeptFor(isFile, id, log + [c]) ==
            KeptFor(isFile, id, log) + if c.id == id then [Kept(if isFile then Some(c.path) else None, c.content, c.declared)] else []
  {
    assert (log + [c])[..|log|] == log;
  }

  predicate Offered(wasFile: set<int>, t: Transfer) {
    t.files.Keys <= wasFile && t.texts.Keys !! wasFile
  }

  // ------------------------------------------------------------------
  // What the steps of a transfer do to each view

  lemma WriteViews(wasFile: set<int>, w: World, id: int, body: bytes, j: int)
    requires Sound(w) && id in w.transfer.files
    ensures View(wasFile, WriteWith(w, id, body), j) ==
            if j == id
            then View(wasFile, w, id).(file := Some(FileOf(w, id).value.(content := FileOf(w, id).value.content + body)))
            else View(wasFile, w, j)
  {
    hide Accounts, LogSound, KeptFor, Only;
    var p := w.transfer.files[id];
    assert p.finalPath != p.partPath;
    if j in w.transfer.files {
      assert w.transfer.files[j].finalPath != p.partPath;
    }
  }

  lemma CommitFileOf(w: World, id: int, extra: bytes, j: int)
    requires Sound(w) && Clear(w, id)
    ensures FileOf(CommitWith(w, id, extra), j) == if j == id then None else FileOf(w, j)
  {
    hide Accounts, LogSound, SaturatingAdd;
    var p := w.transfer.files[id];
    if j in w.transfer.files {
      assert w.transfer.files[j].finalPath != p.partPath && p.finalPath != w.transfer.files[j].partPath;
    }
  }

  lemma CommitViews(wasFile: set<int>, w: World, id: int, extra: bytes, j: int)
    requires Sound(w) && Clear(w, id) && Offered(wasFile, w.transfer)
    ensures var f := FileOf(w, id).value;
            View(wasFile, CommitWith(w, id, extra), j) ==
            if j == id
            then View(wasFile, w, id).(
                   file := None,
                   kept := View(wasFile, w, id).kept + [Kept(Some(f.finalPath), f.content + extra, f.expectedSize)])
            else View(wasFile, w, j)
  {
    var p := w.transfer.files[id];
    CommitFileOf(w, id, extra, j);
    KeptForPush(j in wasFile, j, w.log, Commit(id, p.finalPath, ContentAt(w.disk, p.partPath) + extra, p.expectedSize));
    assert FileOf(w, id) == Some(FileCell(p.expectedSize, ContentAt(w.disk, p.partPath), p.finalPath, false));
    hide Sound, Only, KeptFor, FileOf, ContentAt, SaturatingAdd;
  }

  lemma TextFileOf(w: World, id: int, content: bytes, path: Path, target: Path, j: int)
    requires id in w.transfer.texts
    requires target !in PartPaths(w.transfer.files) && !IsDirectory(w.disk, target)
    ensures FileOf(TextAt(w, id, content, path, target), j) == FileOf(w, j)
  {
    hide SaturatingAdd;
    if j in w.transfer.files {
      assert w.transfer.files[j].partPath in PartPaths(w.transfer.files);
    }
  }

  lemma TextViews(wasFile: set<int>, w: World, id: int, content: bytes, path: Path, target: Path, j: int)
    requires id in w.transfer.texts && Offered(wasFile, w.transfer)
    requires target !in PartPaths(w.transfer.files) && !IsDirectory(w.disk, target)
    ensures View(wasFile, TextAt(w, id, content, path, target), j) ==
            if j == id
            then View(wasFile, w, id).(
                   text := None,
                   kept := View(wasFile, w, id).kept + [Kept(None, content, w.transfer.texts[id].expectedSize)])
            else View(wasFile, w, j)
  {
    TextFileOf(w, id, content, path, target, j);
    KeptForPush(j in wasFile, j, w.log, Commit(id, target, content, w.transfer.texts[id].expectedSize, path));
    hide Only, KeptFor, FileOf, PartPaths, SaturatingAdd;
  }

  /** The world once the body of a chunk is written. */
  function Written(w: World, id: int, body: Option<bytes>): World
    requires id in w.transfer.files
  {
    if body.Some? then WriteWith(w, id, body.value) else w
  }

  predicate Fitting(w: World, id: int, t: PayloadTransfer) {
    && t.chunk.Some? && id in w.transfer.files
    && t.chunk.value.offset == Some(w.transfer.files[id].received)
    && w.transfer.files[id].received + |GetOr(t.chunk.value.body, [])| <= w.transfer.files[id].expectedSize
  }

  lemma WriteChunkIs(w: World, id: int, body: bytes, env: Env)
    requires id in w.transfer.files && env.fault == NoFault
    ensures WriteChunk(w, id, body, env) == Stepped(WriteWith(w, id, body), None)
    ensures id in WriteWith(w, id, body).transfer.files
  {
  }

  lemma SmallOffset(w: World, id: int)
    requires Sound(w) && id in w.transfer.files
    ensures AsI64(w.transfer.files[id].received) == w.transfer.files[id].received
    ensures w.transfer.files[id].received <= w.transfer.files[id].expectedSize <= MAX_I64
  {
    SoundParts(w);
    PartLength(w, id);
    SizesAreSmall(w, id);
    hide Sound, PartsSound;
  }

  lemma FileChunkIs(w: World, t: PayloadTransfer, env: Env, id: int)
    requires Sound(w) && HeaderId(t) == Some(id) && env.fault == NoFault
    ensures var step := ReceiveFileChunk(w, t, env);
            if !Fitting(w, id, t) then step.error.Some?
            else
              var mid := Written(w, id, t.chunk.value.body);
              step == if LowBit(GetOr(t.chunk.value.flags, 0)) then FinishChunks(mid, id, env) else Stepped(mid, None)
  {
    if id in w.transfer.files {
      SmallOffset(w, id);
    }
    hide Sound, FinishChunks, WriteChunk, WriteWith, AsI64, LowBit;
    if id in w.transfer.files && t.chunk.Some? && t.chunk.value.body.Some? {
      WriteChunkIs(w, id, t.chunk.value.body.value, env);
    }
  }

  lemma FileChunkViews(wasFile: set<int>, w: World, t: PayloadTransfer, env: Env, id: int, j: int)
    requires Sound(w) && Offered(wasFile, w.transfer) && HeaderId(t) == Some(id) && env.fault == NoFault
    ensures var step, own := ReceiveFileChunk(w, t, env), FileStep(View(wasFile, w, id), t);
            && (step.error.None? <==> own.Some?)
            && (step.error.None? ==> View(wasFile, step.world, j) == if j == id then own.value else View(wasFile, w, j))
  {
    hide View, Sound, PartsSound, ReceiveFileChunk, FinishChunks, Written, WriteWith, CommitWith, Clear;
    FileChunkIs(w, t, env, id);
    FileViewIs(wasFile, w, id);
    FittingView(w, t, id);
    if Fitting(w, id, t) {
      var mid := Written(w, id, t.chunk.value.body);
      ChunkBodyViews(wasFile, w, id, t.chunk.value.body, j);
      ChunkBodyViews(wasFile, w, id, t.chunk.value.body, id);
      hide Fitting;
      if LowBit(GetOr(t.chunk.value.flags, 0)) {
        FileViewIs(wasFile, mid, id);
        FinishViews(wasFile, mid, id, env, j);
      }
    }
  }

  lemma FittingView(w: World, t: PayloadTransfer, id: int)
    requires Sound(w)
    ensures Fitting(w, id, t) <==>
            && t.chunk.Some? && FileOf(w, id).Some?
            && t.chunk.value.offset == Some(|FileOf(w, id).value.content|)
            && |FileOf(w, id).value.content + GetOr(t.chunk.value.body, [])| <= FileOf(w, id).value.expectedSize
  {
    SoundParts(w);
    if id in w.transfer.files {
      PartLength(w, id);
    }
    hide Sound, PartsSound, ContentAt, Clear;
  }

  lemma FinishViews(wasFile: set<int>, w: World, id: int, env: Env, j: int)
    requires Sound(w) && Offered(wasFile, w.transfer) && id in w.transfer.files && env.fault == NoFault
    ensures var step, f := FinishChunks(w, id, env), FileOf(w, id).value;
            && (step.error.None? <==> |f.content| == f.expectedSize && !f.blocked)
            && (step.error.None? ==>
                  View(wasFile, step.world, j) ==
                  if j == id
                  then View(wasFile, w, id).(
                         file := None, kept := View(wasFile, w, id).kept + [Kept(Some(f.finalPath), f.content, f.expectedSize)])
                  else View(wasFile, w, j))
  {
    SoundParts(w);
    PartLength(w, id);
    CommitOfWhole(w, id, env);
    hide View, Sound, PartsSound, FinishChunks, CommitWith;
    if Clear(w, id) {
      CommitViews(wasFile, w, id, [], j);
      assert FileOf(w, id).value.content + [] == FileOf(w, id).value.content;
    }
  }

  lemma SoundParts(w: World)
    requires Sound(w)
    ensures PartsSound(w)
  {
  }

  lemma FileViewIs(wasFile: set<int>, w: World, id: int)
    ensures View(wasFile, w, id).file == FileOf(w, id)
    ensures View(wasFile, w, id).text == TextOf(w, id)
    ensures View(wasFile, w, id).buffers == Only(w.buffers, id)
  {
  }

  lemma ChunkBodyViews(wasFile: set<int>, w: World, id: int, body: Option<bytes>, j: int)
    requires Sound(w) && id in w.transfer.files
    requires w.transfer.files[id].received + |GetOr(body, [])| <= w.transfer.files[id].expectedSize
    ensures var mid := Written(w, id, body);
            && Sound(mid) && mid.transfer.files.Keys == w.transfer.files.Keys && mid.transfer.texts == w.transfer.texts
            && mid.transfer.files[id] == w.transfer.files[id].(received := w.transfer.files[id].received + |GetOr(body, [])|)
            && View(wasFile, mid, j) ==
               if j == id
               then View(wasFile, w, id).(file := Some(FileOf(w, id).value.(content := FileOf(w, id).value.content + GetOr(body, []))))
               else View(wasFile, w, j)
  {
    hide Sound, View;
    if body.Some? {
      WriteIsSound(w, id, body.value);
      WriteMap(w, id, body.value);
      WriteViews(wasFile, w, id, body.value, j);
      hide WriteWith;
    } else {
      FileViewIs(wasFile, w, id);
      assert FileOf(w, id).value.content + [] == FileOf(w, id).value.content;
    }
  }

  lemma WriteMap(w: World, id: int, body: bytes)
    requires id in w.transfer.files
    ensures var next, p := WriteWith(w, id, body).transfer, w.transfer.files[id];
            next.files == w.transfer.files[id := p.(received := p.received + |body|)] && next.texts == w.transfer.texts
  {
  }

  // ------------------------------------------------------------------
  // BYTES payloads

  lemma WholeFileViews(wasFile: set<int>, w: World, id: int, content: bytes, env: Env, j: int)
    requires Sound(w) && Offered(wasFile, w.transfer) && id in w.transfer.files && env.fault == NoFault
    ensures var step, own := ReceiveFileBytes(w, id, content, env), WholeStep(View(wasFile, w, id), content);
            && (step.error.None? <==> own.Some?)
            && (step.error.None? ==> View(wasFile, step.world, j) == if j == id then own.value else View(wasFile, w, j))
  {
    FileViewIs(wasFile, w, id);
    WholeFileErrors(w, id, content, env);
    if ReceiveFileBytes(w, id, content, env).error.None? {
      FileBytesIsCommit(w, id, content, env);
      CommitViews(wasFile, w, id, content, j);
    }
    hide View, Sound, CommitWith, ReceiveFileBytes, Clear;
  }

  lemma WholeFileErrors(w: World, id: int, content: bytes, env: Env)
    requires Sound(w) && id in w.transfer.files && env.fault == NoFault
    ensures ReceiveFileBytes(w, id, content, env).error.None? <==> |content| == w.transfer.files[id].expectedSize && Clear(w, id)
  {
    hide Accounts, LogSound;
    assert w.transfer.files[id].finalPath != w.transfer.files[id].partPath;
  }

  /** The last resort of `unique_destination` is not a directory, and every link in the directory leads to where a
      file can be written. */
  ghost predicate TextsLand(root: Path, disk: Disk, env: Env) {
    && !IsDirectory(disk, root + ["hirodrop-" + Decimal(env.fallback)])
    && forall name :: IsLink(disk, root + [name]) ==> WriteTarget(disk, root + [name]).Some?
  }

  lemma TextLands(disk: Disk, root: Path, name: string, env: Env)
    requires TextsLand(root, disk, env)
    ensures WriteTarget(disk, UniqueDestination(disk, root, name, env.fallback)).Some?
  {
    FirstFreeIsLeast(disk, root, name, 1);
    var path := UniqueDestination(disk, root, name, env.fallback);
    assert path == root + [path[|root|]];
    hide FirstFree, Numbered, Decimal;
  }

  lemma TextIs(w: World, id: int, content: bytes, env: Env)
    requires id in w.transfer.texts && env.fault == NoFault && TextsLand(w.transfer.downloadDirectory, w.disk, env)
    ensures var path, step := TextPath(w, w.transfer.texts[id].isUrl, env), ReceiveText(w, id, content, env);
            var target := WriteTarget(w.disk, path);
            && target.Some? && !IsDirectory(w.disk, target.value)
            && (step.error.None? <==> |content| == w.transfer.texts[id].expectedSize)
            && (step.error.None? ==> step.world == TextAt(w, id, content, path, target.value))
  {
    TextLands(w.disk, w.transfer.downloadDirectory, TextName(w.transfer.texts[id].isUrl, env.now), env);
    hide TextName, UniqueDestination;
  }

  lemma TextStepViews(wasFile: set<int>, w: World, id: int, content: bytes, env: Env, j: int)
    requires Sound(w) && Offered(wasFile, w.transfer) && id in w.transfer.texts && env.fault == NoFault
    requires TextsLand(w.transfer.downloadDirectory, w.disk, env)
    ensures var step, own := ReceiveText(w, id, content, env), WholeStep(View(wasFile, w, id), content);
            && (step.error.None? <==> own.Some?)
            && (step.error.None? ==> View(wasFile, step.world, j) == if j == id then own.value else View(wasFile, w, j))
  {
    hide View, Sound, TextPath, WriteTarget, ReceiveText, TextAt, TextsLand;
    var isUrl := w.transfer.texts[id].isUrl;
    TextIs(w, id, content, env);
    TextPathApart(w, isUrl, env);
    TextViews(wasFile, w, id, content, TextPath(w, isUrl, env), WriteTarget(w.disk, TextPath(w, isUrl, env)).value, j);
    FileViewIs(wasFile, w, id);
    NotBoth(w, id);
  }

  lemma NotBoth(w: World, id: int)
    requires Sound(w) && id in w.transfer.texts
    ensures id !in w.transfer.files
  {
  }

  lemma BytesViews(wasFile: set<int>, w: World, id: int, content: bytes, env: Env, j: int)
    requires Sound(w) && Offered(wasFile, w.transfer) && env.fault == NoFault
    requires TextsLand(w.transfer.downloadDirectory, w.disk, env)
    ensures var step, own := ReceiveBytes(w, id, content, env), WholeStep(View(wasFile, w, id), content);
            && (step.error.None? <==> own.Some?)
            && (step.error.None? ==> View(wasFile, step.world, j) == if j == id then own.value else View(wasFile, w, j))
  {
    FileViewIs(wasFile, w, id);
    if id in w.transfer.files {
      WholeFileViews(wasFile, w, id, content, env, j);
    } else if id in w.transfer.texts {
      TextStepViews(wasFile, w, id, content, env, j);
    } else {
      PreviewViews(wasFile, w, w.transfer.previews - {id}, j);
    }
    hide View, Sound, ReceiveFileBytes, ReceiveText, WholeStep, TextsLand;
    if id !in w.transfer.files && id !in w.transfer.texts {
      assert WholeStep(View(wasFile, w, id), content) == Some(View(wasFile, w, id)) by { NothingPending(View(wasFile, w, id), content); }
    }
  }

  lemma NothingPending(c: Cell, content: bytes)
    requires c.file.None? && c.text.None?
    ensures WholeStep(c, content) == Some(c)
  {
  }

  lemma PreviewViews(wasFile: set<int>, w: World, previews: set<int>, j: int)
    ensures View(wasFile, w.(transfer := w.transfer.(previews := previews)), j) == View(wasFile, w, j)
  {
    hide KeptFor;
  }

  lemma BufferViews(wasFile: set<int>, w: World, buffers: Buffers, j: int)
    ensures View(wasFile, w.(buffers := buffers), j) == View(wasFile, w, j).(buffers := Only(buffers, j))
  {
    hide KeptFor, Only;
  }

  // ------------------------------------------------------------------
  // Any chunk

  /** A payload frame for some id, no disk failure, and a place for every text. */
  ghost predicate Tame(root: Path, disk: Disk, a: Arrival) {
    && IsPayload(a.frame) && a.frame.v1.value.payloadTransfer.Some?
    && HeaderId(a.frame.v1.value.payloadTransfer.value).Some?
    && a.env.fault == NoFault && TextsLand(root, disk, a.env)
  }

  function ChunkOf(a: Arrival): PayloadTransfer
    requires IsPayload(a.frame) && a.frame.v1.value.payloadTransfer.Some?
  {
    a.frame.v1.value.payloadTransfer.value
  }

  /** A frame does to its own id what the cell of that id says, and nothing to any other. */
  lemma {:induction false} HandleViews(wasFile: set<int>, w: World, a: Arrival, j: int)
    requires Sound(w) && Offered(wasFile, w.transfer) && Tame(w.transfer.downloadDirectory, w.disk, a)
    ensures var id := HeaderId(ChunkOf(a)).value;
            var step, own := Handle(w, a.frame, a.env), CellStep(View(wasFile, w, id), ChunkOf(a));
            && (step.error.None? <==> own.Some?)
            && (step.error.None? ==> View(wasFile, step.world, j) == if j == id then own.value else View(wasFile, w, j))
  {
    var t := ChunkOf(a);
    var id := HeaderId(t).value;
    hide Sound, ReceiveFileChunk, ReceiveBytes, PushChunk, WholeStep, FileStep, TextsLand;
    FileViewIs(wasFile, w, id);
    if t.header.value.payloadType == Some(PAYLOAD_FILE) {
      FileChunkViews(wasFile, w, t, a.env, id, j);
    } else if t.header.value.payloadType == Some(PAYLOAD_BYTES) {
      var pushed := PushChunk(true, w.buffers, t);
      var after := w.(buffers := pushed.buffers);
      PushIsLocal(true, w.buffers, t, id);
      PushIsLocal(true, w.buffers, t, j);
      BufferViews(wasFile, w, pushed.buffers, id);
      BufferViews(wasFile, w, pushed.buffers, j);
      BuffersIrrelevant(w, pushed.buffers);
      FileViewIs(wasFile, w, j);
      if pushed.result.Ok? && pushed.result.value.Some? {
        BytesViews(wasFile, after, id, pushed.result.value.value.1, a.env, j);
      }
      hide View, Only;
    }
  }
}
