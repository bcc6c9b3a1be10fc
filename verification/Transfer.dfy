/** The receiving state machine of src/quick_share_receiver.rs:741-1101 on values: what `prepare` builds
    and what each frame does to it. Random numbers, the clock and file-system failures are inputs. */
module Transfers {
  import opened Prelude
  import opened WireMessages
  import opened Transport
  import opened Assembler
  import opened Paths

  datatype ReceiveError =
    | Io
    | WireFraming
    | Crypto
    | Protobuf
    | Protocol
    | Assembly(cause: AssemblerError)
    | Disconnected
    | Rejected
    | UnsafeMetadata
    | TransferTooLarge

  datatype PendingFile = PendingFile(expectedSize: nat, received: nat, finalPath: Path, partPath: Path)

  datatype PendingText = PendingText(expectedSize: nat, isUrl: bool)

  datatype Transfer = Transfer(
    files: map<int, PendingFile>,
    texts: map<int, PendingText>,
    previews: set<int>,
    downloadDirectory: Path,
    completed: seq<Path>,
    totalBytes: nat,
    receivedBytes: nat)

  /** One item put in place at `path`, with the bytes it had at that moment and the size it was declared to have.
      `shown` is the path handed over; a text may be written through a link that stands there. */
  datatype Commit = Commit(id: int, path: Path, content: bytes, declared: nat, shown: Path := path)

  /** Everything a frame can change. `log` is the history of commits; the program does not keep it. */
  datatype World = World(transfer: Transfer, buffers: Buffers, disk: Disk, log: seq<Commit>)

  // ------------------------------------------------------------------
  // prepare

  /** The random numbers one file draws, whether opening its part file fails for an outside reason, and the paths
      at which looking at a folder or making it does. */
  datatype Choice = Choice(part: nat, fallback: nat, openFails: bool, unusable: set<Path> := {})

  function PartName(processId: nat, random: nat): string {
    ".hirodrop-" + Decimal(processId) + "-" + Decimal(random) + ".part"
  }

  datatype Preparing = Preparing(disk: Disk, files: map<int, PendingFile>, texts: map<int, PendingText>, total: nat)

  predicate ValidSize(size: Option<i64>) {
    size.Some? && 0 <= size.value
  }

  function FolderFails(error: FolderError): ReceiveError {
    if error.UnsafeFolder? then UnsafeMetadata else Io
  }

  function PrepareFile(p: Preparing, root: Path, metadata: FileMetadata, processId: nat, choice: Choice):
    (Preparing, Option<ReceiveError>)
  {
    if metadata.payloadId.None? || !ValidSize(metadata.size) then (p, Some(UnsafeMetadata))
    else if p.total + metadata.size.value > MAX_U64 then (p, Some(TransferTooLarge))
    else if metadata.name.None? || SanitizeFileName(metadata.name.value).None? then (p, Some(UnsafeMetadata))
    else
      var (disk, parent) := SafeParentDirectory(p.disk, root, metadata.parentFolder, choice.unusable);
      if parent.Err? then (p.(disk := disk), Some(FolderFails(parent.error)))
      else
        var id, size := metadata.payloadId.value, metadata.size.value;
        var finalPath := UniqueDestination(disk, parent.value, SanitizeFileName(metadata.name.value).value, choice.fallback);
        var partPath := root + [PartName(processId, choice.part)];
        if partPath in disk || choice.openFails then (p.(disk := disk), Some(Io))
        else
          var made := disk[partPath := Regular([])];
          if id in p.files then (p.(disk := made), Some(UnsafeMetadata))
          else
            var pending := PendingFile(size, 0, finalPath, partPath);
            (Preparing(made, p.files[id := pending], p.texts, p.total + size), None)
  }

  function PrepareFiles(p: Preparing, root: Path, files: seq<FileMetadata>, processId: nat, choices: seq<Choice>):
    (Preparing, Option<ReceiveError>)
    requires |choices| == |files|
    decreases |files|
  {
    if files == [] then (p, None)
    else
      var (next, error) := PrepareFile(p, root, files[0], processId, choices[0]);
      if error.Some? then (next, error) else PrepareFiles(next, root, files[1..], processId, choices[1..])
  }

  function PrepareText(p: Preparing, metadata: TextMetadata): (Preparing, Option<ReceiveError>) {
    if metadata.payloadId.None? || !ValidSize(metadata.size) then (p, Some(UnsafeMetadata))
    else if metadata.size.value > MAX_WIRE_FRAME_BYTES then (p, Some(UnsafeMetadata))
    else if p.total + metadata.size.value > MAX_U64 then (p, Some(TransferTooLarge))
    else
      var id := metadata.payloadId.value;
      if id in p.texts || id in p.files then (p, Some(UnsafeMetadata))
      else
        var pending := PendingText(metadata.size.value, metadata.textType == Some(TEXT_URL));
        (p.(texts := p.texts[id := pending], total := p.total + metadata.size.value), None)
  }

  function PrepareTexts(p: Preparing, texts: seq<TextMetadata>): (Preparing, Option<ReceiveError>)
    decreases |texts|
  {
    if texts == [] then (p, None)
    else
      var (next, error) := PrepareText(p, texts[0]);
      if error.Some? then (next, error) else PrepareTexts(next, texts[1..])
  }

  datatype Prepared = Prepared(disk: Disk, result: Result<Transfer, ReceiveError>)

  function Prepare(introduction: Introduction, root: Path, disk: Disk, processId: nat, choices: seq<Choice>): Prepared
    requires |choices| == |introduction.files|
  {
    if introduction.files == [] && introduction.texts == [] then Prepared(disk, Err(UnsafeMetadata))
    else
      var (afterFiles, error) := PrepareFiles(Preparing(disk, map[], map[], 0), root, introduction.files, processId, choices);
      if error.Some? then Prepared(afterFiles.disk, Err(error.value))
      else
        var (p, error) := PrepareTexts(afterFiles, introduction.texts);
        if error.Some? then Prepared(p.disk, Err(error.value))
        else if p.total > MAX_TOTAL_TRANSFER_BYTES then Prepared(p.disk, Err(TransferTooLarge))
        else
          var previews := set id | id in introduction.previews;
          Prepared(p.disk, Ok(Transfer(p.files, p.texts, previews, root, [], p.total, 0)))
  }

  // ------------------------------------------------------------------
  // Frames

  /** A file-system failure while a frame is handled. `OpenFails` is the opening of a text's file. */
  datatype Fault = NoFault | OpenFails | WriteFails(written: nat) | SyncFails | RenameFails

  datatype Env = Env(fault: Fault, now: nat, fallback: nat)

  datatype Arrival = Arrival(frame: OfflineFrame, env: Env)

  datatype Stepped = Stepped(world: World, error: Option<ReceiveError>)

  function SaturatingAdd(a: nat, b: nat): nat {
    if a + b > MAX_U64 then MAX_U64 else a + b
  }

  /** What a write that fails has written. */
  function Partial(body: bytes, written: nat): bytes {
    body[..if written <= |body| then written else |body|]
  }

  function AppendPart(w: World, path: Path, body: bytes, env: Env): (World, bool) {
    match env.fault
    case WriteFails(written) => (w.(disk := AppendTo(w.disk, path, Partial(body, written))), false)
    case _ => (w.(disk := AppendTo(w.disk, path, body)), true)
  }

  /** `sync_all`, then rename the part file over the destination; `pending` has left the map already. */
  function CommitFile(w: World, id: int, pending: PendingFile, env: Env): Stepped {
    if env.fault.SyncFails? || env.fault.RenameFails? then Stepped(w, Some(Io))
    else
      var renamed := Rename(w.disk, pending.partPath, pending.finalPath);
      if renamed.None? then Stepped(w, Some(Io))
      else
        var commit := Commit(id, pending.finalPath, ContentAt(w.disk, pending.partPath), pending.expectedSize);
        var transfer := w.transfer.(completed := w.transfer.completed + [pending.finalPath]);
        Stepped(w.(transfer := transfer, disk := renamed.value, log := w.log + [commit]), None)
  }

  function ReceiveFileChunk(w: World, t: PayloadTransfer, env: Env): Stepped {
    if t.header.None? || t.header.value.id.None? || t.chunk.None? then Stepped(w, Some(Protocol))
    else
      var id, chunk := t.header.value.id.value, t.chunk.value;
      if id !in w.transfer.files then Stepped(w, Some(Protocol))
      else
        var pending := w.transfer.files[id];
        if chunk.offset != Some(AsI64(pending.received)) then Stepped(w, Some(Protocol))
        else if chunk.body.Some? && pending.received + |chunk.body.value| > MAX_U64 then Stepped(w, Some(Protocol))
        else if chunk.body.Some? && pending.received + |chunk.body.value| > pending.expectedSize then Stepped(w, Some(Protocol))
        else
          var written := if chunk.body.Some? then WriteChunk(w, id, chunk.body.value, env) else Stepped(w, None);
          if written.error.Some? then written
          else if !LowBit(GetOr(chunk.flags, 0)) then written
          else FinishChunks(written.world, id, env)
  }

  function WriteChunk(w: World, id: int, body: bytes, env: Env): Stepped
    requires id in w.transfer.files
  {
    var pending := w.transfer.files[id];
    var (after, ok) := AppendPart(w, pending.partPath, body, env);
    if !ok then Stepped(after, Some(Io))
    else
      var transfer := w.transfer.(
        files := w.transfer.files[id := pending.(received := pending.received + |body|)],
        receivedBytes := SaturatingAdd(w.transfer.receivedBytes, |body|));
      Stepped(after.(transfer := transfer), None)
  }

  function FinishChunks(w: World, id: int, env: Env): Stepped {
    if id !in w.transfer.files then Stepped(w, Some(Protocol))
    else
      var pending := w.transfer.files[id];
      if pending.received != pending.expectedSize then Stepped(w, Some(Protocol))
      else CommitFile(w.(transfer := w.transfer.(files := w.transfer.files - {id})), id, pending, env)
  }

  /** A file that arrives as one BYTES payload. The program does not look at `received` here. */
  function ReceiveFileBytes(w: World, id: int, content: bytes, env: Env): Stepped
    requires id in w.transfer.files
  {
    var pending := w.transfer.files[id];
    var removed := w.(transfer := w.transfer.(files := w.transfer.files - {id}));
    if |content| != pending.expectedSize then Stepped(removed, Some(Protocol))
    else
      var counted := removed.(transfer := removed.transfer.(receivedBytes := SaturatingAdd(w.transfer.receivedBytes, |content|)));
      var (after, ok) := AppendPart(counted, pending.partPath, content, env);
      if !ok then Stepped(after, Some(Io)) else CommitFile(after, id, pending, env)
  }

  function TextName(isUrl: bool, now: nat): string {
    "Quick Share " + Decimal(now) + if isUrl then ".url.txt" else ".txt"
  }

  function ReceiveText(w: World, id: int, content: bytes, env: Env): Stepped
    requires id in w.transfer.texts
  {
    var pending := w.transfer.texts[id];
    var removed := w.(transfer := w.transfer.(texts := w.transfer.texts - {id}));
    if |content| != pending.expectedSize then Stepped(removed, Some(Protocol))
    else
      var root := w.transfer.downloadDirectory;
      var path := UniqueDestination(w.disk, root, TextName(pending.isUrl, env.now), env.fallback);
      var target := WriteTarget(w.disk, path);
      var counted := removed.transfer.(receivedBytes := SaturatingAdd(w.transfer.receivedBytes, |content|));
      if env.fault.OpenFails? || target.None? then Stepped(removed.(transfer := counted), Some(Io))
      else if env.fault.WriteFails? then
        var broken := w.disk[target.value := Regular(Partial(content, env.fault.written))];
        Stepped(removed.(transfer := counted, disk := broken), Some(Io))
      else
        var commit := Commit(id, target.value, content, pending.expectedSize, path);
        Stepped(
          removed.(
            transfer := counted.(completed := counted.completed + [path]),
            disk := w.disk[target.value := Regular(content)],
            log := w.log + [commit]),
          None)
  }

  /** A completed byte payload: a file, a text, a listed preview, or something optional that is dropped. */
  function ReceiveBytes(w: World, id: int, content: bytes, env: Env): Stepped {
    if id in w.transfer.files then ReceiveFileBytes(w, id, content, env)
    else if id in w.transfer.texts then ReceiveText(w, id, content, env)
    else Stepped(w.(transfer := w.transfer.(previews := w.transfer.previews - {id})), None)
  }

  function ReceivePayload(w: World, t: PayloadTransfer, env: Env): Stepped {
    var payloadType := if t.header.Some? then t.header.value.payloadType else None;
    if payloadType == Some(PAYLOAD_FILE) then ReceiveFileChunk(w, t, env)
    else if payloadType == Some(PAYLOAD_BYTES) then
      var pushed := PushChunk(true, w.buffers, t);
      var after := w.(buffers := pushed.buffers);
      match pushed.result
      case Err(e) => Stepped(after, Some(Assembly(e)))
      case Ok(None) => Stepped(after, None)
      case Ok(Some(payload)) => ReceiveBytes(after, payload.0, payload.1, env)
    else Stepped(w, Some(Protocol))
  }

  /** One turn of the loop in `receive_all`; the acknowledgement it may send is `Replies(frame)`. */
  function Handle(w: World, frame: OfflineFrame, env: Env): Stepped {
    if frame.v1.None? then Stepped(w, Some(Protocol))
    else if IsPayload(frame) then
      if frame.v1.value.payloadTransfer.None? then Stepped(w, Some(Protocol))
      else ReceivePayload(w, frame.v1.value.payloadTransfer.value, env)
    else if IsDisconnection(frame) then Stepped(w, Some(Disconnected))
    else Stepped(w, None)
  }

  predicate Finished(t: Transfer) {
    t.files.Keys == {} && t.texts.Keys == {}
  }

  /** The loop of `receive_all` over what arrives; `rest` is left unread. A connection that ends early is an
      error of the framing layer. */
  datatype Outcome = Outcome(world: World, rest: seq<Arrival>, replies: seq<OfflineFrame>, error: Option<ReceiveError>)

  function ReceiveAll(w: World, arrivals: seq<Arrival>): (r: Outcome)
    ensures |r.rest| <= |arrivals|
    decreases |arrivals|
  {
    if Finished(w.transfer) then Outcome(w, arrivals, [], None)
    else if arrivals == [] then Outcome(w, [], [], Some(WireFraming))
    else
      var step := Handle(w, arrivals[0].frame, arrivals[0].env);
      if step.error.Some? then Outcome(step.world, arrivals[1..], [], step.error)
      else
        var more := ReceiveAll(step.world, arrivals[1..]);
        more.(replies := Replies(arrivals[0].frame) + more.replies)
  }

  /** `cleanup_parts`: remove the part file of every entry still in the map. */
  function CleanupParts(w: World): Disk {
    w.disk - PartPaths(w.transfer.files)
  }

  function PartPaths(files: map<int, PendingFile>): set<Path> {
    set id | id in files :: files[id].partPath
  }
}
