/** `PendingTransfer` of src/quick_share_receiver.rs:741-1101 as the object it is: its methods update maps,
    counters and the file system in place. Each is proved to do exactly what the functions of `Transfers` say,
    about which the properties are proved. */
module Receiving {
  import opened Prelude
  import opened WireMessages
  import opened Assembler
  import opened Paths
  import opened Transfers
  import opened Preparation
  import opened Containment

  class FileSystem {
    var disk: Disk

    constructor (disk: Disk)
      ensures this.disk == disk
    {
      this.disk := disk;
    }

    /** `write_all` on the open part file. */
    method Append(path: Path, body: bytes, fault: Fault) returns (ok: bool)
      modifies this
      ensures ok <==> !fault.WriteFails?
      ensures disk == AppendTo(old(disk), path, if ok then body else Partial(body, fault.written))
    {
      ok := !fault.WriteFails?;
      disk := AppendTo(disk, path, if ok then body else Partial(body, fault.written));
    }

    /** `fs::write`: follow the links, then open or create the file, empty it and write. */
    method WriteNew(path: Path, body: bytes, fault: Fault) returns (target: Option<Path>)
      modifies this
      ensures var end := WriteTarget(old(disk), path);
              if fault.OpenFails? || end.None? then target == None && disk == old(disk)
              else if fault.WriteFails? then target == None && disk == old(disk)[end.value := Regular(Partial(body, fault.written))]
              else target == end && disk == old(disk)[end.value := Regular(body)]
    {
      var end, links: nat := path, 0;
      while end in disk && disk[end].Symlink? && links < MAX_LINKS
        invariant 0 <= links <= MAX_LINKS
        invariant RealPath(disk, path) == Follow(disk, end, MAX_LINKS - links)
        decreases MAX_LINKS - links
      {
        end, links := disk[end].target, links + 1;
      }
      if fault.OpenFails? || (end in disk && !disk[end].Regular?) || (end !in disk && end != path && !HasFolder(disk, end)) {
        return None;
      }
      var written := if fault.WriteFails? then Partial(body, fault.written) else body;
      assert [] + written == written;
      disk := disk[end := Regular([])];
      disk := AppendTo(disk, end, written);
      target := if fault.WriteFails? then None else Some(end);
    }

    method RenameFile(source: Path, target: Path) returns (ok: bool)
      modifies this
      ensures ok == Rename(old(disk), source, target).Some?
      ensures disk == if ok then Rename(old(disk), source, target).value else old(disk)
    {
      ok := source in disk && !(target in disk && disk[target].Directory?);
      if ok {
        var node := disk[source];
        disk := disk - {source};
        disk := disk[target := node];
      }
    }

    /** `safe_parent_directory`. */
    method EnterParent(root: Path, parentFolder: Option<string>, unusable: set<Path>) returns (r: Result<Path, FolderError>)
      modifies this
      ensures (disk, r) == SafeParentDirectory(old(disk), root, parentFolder, unusable)
    {
      if parentFolder.None? || parentFolder.value == "" {
        return Ok(root);
      }
      var components := Split(parentFolder.value);
      var directory, i := root, 0;
      while i < |components|
        invariant 0 <= i <= |components|
        invariant EnterFolders(old(disk), root, components, unusable) == EnterFolders(disk, directory, components[i..], unusable)
      {
        var component := SanitizeComponent(components[i]);
        assert components[i..][0] == components[i] && components[i..][1..] == components[i + 1..];
        if component.None? {
          return Err(UnsafeFolder);
        }
        directory := directory + [component.value];
        if directory in unusable {
          return Err(UnusableFolder);
        }
        if directory in disk {
          if !disk[directory].Directory? {
            return Err(UnsafeFolder);
          }
        } else {
          disk := disk[directory := Directory];
        }
        i := i + 1;
      }
      assert components[i..] == [];
      r := Ok(directory);
    }
  }

  /** One decrypted stream: what arrives, with the failures its handling meets, and what is sent back. */
  class Connection {
    var incoming: seq<Arrival>
    var outgoing: seq<OfflineFrame>

    constructor (incoming: seq<Arrival>)
      ensures this.incoming == incoming && outgoing == []
    {
      this.incoming := incoming;
      outgoing := [];
    }
  }

  class PendingTransfer {
    var files: map<int, PendingFile>
    var texts: map<int, PendingText>
    var previews: set<int>
    const downloadDirectory: Path
    var completed: seq<Path>
    const totalBytes: nat
    var receivedBytes: nat
    ghost var log: seq<Commit>

    constructor (files: map<int, PendingFile>, texts: map<int, PendingText>, previews: set<int>, root: Path, total: nat)
      ensures AsTransfer() == Transfer(files, texts, previews, root, [], total, 0) && log == []
    {
      this.files, this.texts, this.previews := files, texts, previews;
      downloadDirectory, completed, totalBytes, receivedBytes, log := root, [], total, 0, [];
    }

    function AsTransfer(): Transfer
      reads this
    {
      Transfer(files, texts, previews, downloadDirectory, completed, totalBytes, receivedBytes)
    }

    ghost function In(fs: FileSystem, assembler: ReceiverAssembler): World
      reads this, fs, assembler
    {
      World(AsTransfer(), assembler.buffers, fs.disk, log)
    }

    /** `sync_all`, `rename` and the entry in `completed`; `pending` has been removed from `files`. */
    method Commit(fs: FileSystem, ghost assembler: ReceiverAssembler, id: int, pending: PendingFile, env: Env)
      returns (error: Option<ReceiveError>)
      modifies this, fs
      ensures Stepped(In(fs, assembler), error) == CommitFile(old(In(fs, assembler)), id, pending, env)
    {
      if env.fault.SyncFails? || env.fault.RenameFails? {
        return Some(Io);
      }
      ghost var content := ContentAt(fs.disk, pending.partPath);
      var ok := fs.RenameFile(pending.partPath, pending.finalPath);
      if !ok {
        return Some(Io);
      }
      completed := completed + [pending.finalPath];
      log := log + [Transfers.Commit(id, pending.finalPath, content, pending.expectedSize)];
      error := None;
    }

    method TakeFileChunk(fs: FileSystem, ghost assembler: ReceiverAssembler, t: PayloadTransfer, env: Env)
      returns (error: Option<ReceiveError>)
      modifies this, fs
      ensures Stepped(In(fs, assembler), error) == ReceiveFileChunk(old(In(fs, assembler)), t, env)
    {
      if t.header.None? || t.header.value.id.None? || t.chunk.None? {
        return Some(Protocol);
      }
      var id, chunk := t.header.value.id.value, t.chunk.value;
      if id !in files {
        return Some(Protocol);
      }
      if chunk.offset != Some(AsI64(files[id].received)) {
        return Some(Protocol);
      }
      if chunk.body.Some? {
        var next := files[id].received + |chunk.body.value|;
        if next > MAX_U64 || next > files[id].expectedSize {
          return Some(Protocol);
        }
        var ok := fs.Append(files[id].partPath, chunk.body.value, env.fault);
        if !ok {
          return Some(Io);
        }
        files := files[id := files[id].(received := next)];
        receivedBytes := SaturatingAdd(receivedBytes, |chunk.body.value|);
      }
      if LowBit(GetOr(chunk.flags, 0)) {
        if files[id].received != files[id].expectedSize {
          return Some(Protocol);
        }
        var pending := files[id];
        files := files - {id};
        error := Commit(fs, assembler, id, pending, env);
      } else {
        error := None;
      }
    }

    method TakeFileBytes(fs: FileSystem, ghost assembler: ReceiverAssembler, id: int, content: bytes, env: Env)
      returns (error: Option<ReceiveError>)
      requires id in files
      modifies this, fs
      ensures Stepped(In(fs, assembler), error) == ReceiveFileBytes(old(In(fs, assembler)), id, content, env)
    {
      var pending := files[id];
      files := files - {id};
      if |content| != pending.expectedSize {
        return Some(Protocol);
      }
      receivedBytes := SaturatingAdd(receivedBytes, |content|);
      var ok := fs.Append(pending.partPath, content, env.fault);
      if !ok {
        return Some(Io);
      }
      error := Commit(fs, assembler, id, pending, env);
    }

    method TakeText(fs: FileSystem, ghost assembler: ReceiverAssembler, id: int, content: bytes, env: Env)
      returns (error: Option<ReceiveError>)
      requires id in texts
      modifies this, fs
      ensures Stepped(In(fs, assembler), error) == ReceiveText(old(In(fs, assembler)), id, content, env)
    {
      var pending := texts[id];
      texts := texts - {id};
      if |content| != pending.expectedSize {
        return Some(Protocol);
      }
      receivedBytes := SaturatingAdd(receivedBytes, |content|);
      var path := FindUniqueDestination(fs.disk, downloadDirectory, TextName(pending.isUrl, env.now), env.fallback);
      var target := fs.WriteNew(path, content, env.fault);
      if target.None? {
        return Some(Io);
      }
      completed := completed + [path];
      log := log + [Transfers.Commit(id, target.value, content, pending.expectedSize, path)];
      error := None;
    }

    method TakePayload(fs: FileSystem, assembler: ReceiverAssembler, t: PayloadTransfer, env: Env)
      returns (error: Option<ReceiveError>)
      modifies this, fs, assembler
      ensures Stepped(In(fs, assembler), error) == ReceivePayload(old(In(fs, assembler)), t, env)
    {
      var payloadType := if t.header.Some? then t.header.value.payloadType else None;
      if payloadType == Some(PAYLOAD_FILE) {
        error := TakeFileChunk(fs, assembler, t, env);
      } else if payloadType == Some(PAYLOAD_BYTES) {
        var pushed := assembler.Push(t);
        if pushed.Err? {
          return Some(Assembly(pushed.error));
        }
        if pushed.value.None? {
          return None;
        }
        var (id, content) := pushed.value.value;
        if id in files {
          error := TakeFileBytes(fs, assembler, id, content, env);
        } else if id in texts {
          error := TakeText(fs, assembler, id, content, env);
        } else {
          previews := previews - {id};
          error := None;
        }
      } else {
        error := Some(Protocol);
      }
    }

    /** The body of the loop in `receive_all`, once a frame has been read. */
    method TakeFrame(fs: FileSystem, connection: Connection, assembler: ReceiverAssembler, frame: OfflineFrame, env: Env)
      returns (error: Option<ReceiveError>)
      modifies this, fs, connection`outgoing, assembler
      ensures Stepped(In(fs, assembler), error) == Handle(old(In(fs, assembler)), frame, env)
      ensures connection.outgoing == old(connection.outgoing) + if error.None? then Replies(frame) else []
    {
      hide ReceivePayload;
      if frame.v1.None? {
        return Some(Protocol);
      }
      if IsPayload(frame) {
        if frame.v1.value.payloadTransfer.None? {
          return Some(Protocol);
        }
        error := TakePayload(fs, assembler, frame.v1.value.payloadTransfer.value, env);
      } else if IsKeepAlive(frame) {
        if WantsAck(frame) {
          connection.outgoing := connection.outgoing + [AckFor(frame)];
        }
        error := None;
      } else if IsDisconnection(frame) {
        error := Some(Disconnected);
      } else {
        error := None;
      }
    }

    /** `receive_all`: read, answer and apply frames until nothing is pending, then hand over `completed`. */
    method Run(fs: FileSystem, connection: Connection, assembler: ReceiverAssembler)
      returns (r: Result<seq<Path>, ReceiveError>)
      modifies this, fs, connection, assembler
      ensures var out := ReceiveAll(old(In(fs, assembler)), old(connection.incoming));
              && connection.incoming == out.rest && connection.outgoing == old(connection.outgoing) + out.replies
              && match out.error
                 case Some(e) => r == Err(e) && In(fs, assembler) == out.world
                 case None =>
                   && r == Ok(out.world.transfer.completed)
                   && In(fs, assembler) == out.world.(transfer := out.world.transfer.(completed := []))
    {
      hide Handle, Replies;
      ghost var out := ReceiveAll(In(fs, assembler), connection.incoming);
      while files.Keys != {} || texts.Keys != {}
        invariant var more := ReceiveAll(In(fs, assembler), connection.incoming);
                  && out.world == more.world && out.rest == more.rest && out.error == more.error
                  && old(connection.outgoing) + out.replies == connection.outgoing + more.replies
        decreases |connection.incoming|
      {
        if connection.incoming == [] {
          return Err(WireFraming);
        }
        ghost var before, arrivals, sent := In(fs, assembler), connection.incoming, connection.outgoing;
        var arrival := connection.incoming[0];
        connection.incoming := connection.incoming[1..];
        var error := TakeFrame(fs, connection, assembler, arrival.frame, arrival.env);
        if error.Some? {
          return Err(error.value);
        }
        OneTurn(before, arrivals, In(fs, assembler));
        ghost var more := ReceiveAll(In(fs, assembler), connection.incoming).replies;
        assert sent + (Replies(arrival.frame) + more) == connection.outgoing + more;
      }
      r := Ok(completed);
      completed := [];
    }

    /** `cleanup_parts`: best effort, one file at a time. */
    method Cleanup(fs: FileSystem, ghost assembler: ReceiverAssembler)
      modifies fs
      ensures fs.disk == CleanupParts(old(In(fs, assembler)))
    {
      var remaining := files.Keys;
      ghost var removed: set<Path> := {};
      while remaining != {}
        invariant remaining <= files.Keys
        invariant removed == set id | id in files && id !in remaining :: files[id].partPath
        invariant fs.disk == old(fs.disk) - removed
        decreases remaining
      {
        SomeMember(remaining);
        var id :| id in remaining;
        remaining := remaining - {id};
        fs.disk := fs.disk - {files[id].partPath};
        removed := removed + {files[id].partPath};
      }
      assert removed == PartPaths(files);
    }
  }

  lemma OneTurn(w: World, arrivals: seq<Arrival>, next: World)
    requires !Finished(w.transfer) && arrivals != []
    requires Handle(w, arrivals[0].frame, arrivals[0].env) == Stepped(next, None)
    ensures var more := ReceiveAll(next, arrivals[1..]);
            ReceiveAll(w, arrivals) == more.(replies := Replies(arrivals[0].frame) + more.replies)
  {
    hide Handle, Replies;
  }

  lemma SomeMember(s: set<int>)
    ensures s == {} || exists k :: k in s
  {
    if forall k :: k !in s {
      assert s == {};
    }
  }

  /** One turn of the first loop of `prepare`. */
  method AddFile(
    fs: FileSystem, files: map<int, PendingFile>, total: nat, root: Path, metadata: FileMetadata, processId: nat, choice: Choice)
    returns (error: Option<ReceiveError>, id: int, pending: PendingFile)
    modifies fs
    ensures var p := Preparing(old(fs.disk), files, map[], total);
            (Preparing(
               fs.disk,
               if error.None? then files[id := pending] else files,
               map[],
               if error.None? then total + pending.expectedSize else total), error)
            == PrepareFile(p, root, metadata, processId, choice)
  {
    id, pending := 0, PendingFile(0, 0, [], []);
    if metadata.payloadId.None? || !ValidSize(metadata.size) {
      return Some(UnsafeMetadata), id, pending;
    }
    if total + metadata.size.value > MAX_U64 {
      return Some(TransferTooLarge), id, pending;
    }
    if metadata.name.None? || SanitizeFileName(metadata.name.value).None? {
      return Some(UnsafeMetadata), id, pending;
    }
    var parent := fs.EnterParent(root, metadata.parentFolder, choice.unusable);
    if parent.Err? {
      return Some(FolderFails(parent.error)), id, pending;
    }
    var finalPath := FindUniqueDestination(fs.disk, parent.value, SanitizeFileName(metadata.name.value).value, choice.fallback);
    var partPath := root + [PartName(processId, choice.part)];
    if partPath in fs.disk || choice.openFails {
      return Some(Io), id, pending;
    }
    fs.disk := fs.disk[partPath := Regular([])];
    if metadata.payloadId.value in files {
      return Some(UnsafeMetadata), id, pending;
    }
    return None, metadata.payloadId.value, PendingFile(metadata.size.value, 0, finalPath, partPath);
  }

  method PrepareTransfer(introduction: Introduction, root: Path, fs: FileSystem, processId: nat, choices: seq<Choice>)
    returns (r: Result<PendingTransfer, ReceiveError>)
    requires |choices| == |introduction.files|
    modifies fs
    ensures var prepared := Prepare(introduction, root, old(fs.disk), processId, choices);
            && fs.disk == prepared.disk
            && match prepared.result
               case Err(e) => r == Err(e)
               case Ok(t) => r.Ok? && fresh(r.value) && r.value.AsTransfer() == t && r.value.log == []
  {
    hide PrepareFile, PrepareText;
    if introduction.files == [] && introduction.texts == [] {
      return Err(UnsafeMetadata);
    }
    var p := Preparing(fs.disk, map[], map[], 0);
    var i := 0;
    while i < |introduction.files|
      invariant 0 <= i <= |introduction.files| && p.disk == fs.disk && p.texts == map[]
      invariant PrepareFiles(Preparing(old(fs.disk), map[], map[], 0), root, introduction.files, processId, choices)
             == PrepareFiles(p, root, introduction.files[i..], processId, choices[i..])
    {
      FilesStep(p, root, introduction.files, processId, choices, i);
      var error, id, pending := AddFile(fs, p.files, p.total, root, introduction.files[i], processId, choices[i]);
      if error.Some? {
        return Err(error.value);
      }
      p := Preparing(fs.disk, p.files[id := pending], map[], p.total + pending.expectedSize);
      i := i + 1;
    }
    assert introduction.files[i..] == [];
    ghost var afterFiles := p;
    i := 0;
    while i < |introduction.texts|
      invariant 0 <= i <= |introduction.texts| && p.disk == fs.disk && p.files == afterFiles.files
      invariant PrepareTexts(afterFiles, introduction.texts) == PrepareTexts(p, introduction.texts[i..])
    {
      TextsStep(p, introduction.texts, i);
      var (next, error) := PrepareText(p, introduction.texts[i]);
      if error.Some? {
        return Err(error.value);
      }
      p := next;
      i := i + 1;
    }
    assert introduction.texts[i..] == [];
    if p.total > MAX_TOTAL_TRANSFER_BYTES {
      return Err(TransferTooLarge);
    }
    var t := new PendingTransfer(p.files, p.texts, (set id | id in introduction.previews), root, p.total);
    r := Ok(t);
  }

  /** From the user's acceptance to the end of the connection: prepare, receive everything, and on any error
      remove the part files still listed. The answer and the final Disconnection are `Session`'s. */
  method Accept(
    introduction: Introduction, root: Path, fs: FileSystem, connection: Connection, assembler: ReceiverAssembler,
    processId: nat, choices: seq<Choice>)
    returns (r: Result<seq<Path>, ReceiveError>)
    requires |choices| == |introduction.files|
    modifies fs, connection, assembler
    ensures var prepared := Prepare(introduction, root, old(fs.disk), processId, choices);
            match prepared.result
            case Err(e) => r == Err(e) && fs.disk == prepared.disk && connection.incoming == old(connection.incoming)
            case Ok(t) =>
              var out := ReceiveAll(StartOf(t, prepared.disk, old(assembler.buffers)), old(connection.incoming));
              && connection.incoming == out.rest && connection.outgoing == old(connection.outgoing) + out.replies
              && match out.error
                 case Some(e) => r == Err(e) && fs.disk == CleanupParts(out.world)
                 case None => r == Ok(out.world.transfer.completed) && fs.disk == out.world.disk
    ensures introduction.texts == [] || NoLinkOut(root, old(fs.disk)) ==>
              && OutsideSame(root, old(fs.disk), fs.disk)
              && (r.Ok? ==> forall k :: 0 <= k < |r.value| ==> Below(root, r.value[k]))
  {
    hide Prepare, ReceiveAll, CleanupParts, OutsideSame, Below, Within, NoLinkOut;
    NothingOutside(introduction, root, fs.disk, processId, choices, assembler.buffers, connection.incoming);
    var prepared := PrepareTransfer(introduction, root, fs, processId, choices);
    if prepared.Err? {
      return Err(prepared.error);
    }
    var pending := prepared.value;
    assert pending.In(fs, assembler) == StartOf(pending.AsTransfer(), fs.disk, assembler.buffers);
    r := pending.Run(fs, connection, assembler);
    if r.Err? {
      pending.Cleanup(fs, assembler);
    }
  }

  lemma FilesStep(p: Preparing, root: Path, files: seq<FileMetadata>, processId: nat, choices: seq<Choice>, i: nat)
    requires |choices| == |files| && i < |files|
    ensures var (next, error) := PrepareFile(p, root, files[i], processId, choices[i]);
            PrepareFiles(p, root, files[i..], processId, choices[i..])
            == if error.Some? then (next, error) else PrepareFiles(next, root, files[i + 1..], processId, choices[i + 1..])
  {
    assert files[i..][0] == files[i] && files[i..][1..] == files[i + 1..];
    assert choices[i..][0] == choices[i] && choices[i..][1..] == choices[i + 1..];
  }

  /** A text only adds to the table of texts. */
  lemma TextsStep(p: Preparing, texts: seq<TextMetadata>, i: nat)
    requires i < |texts|
    ensures var (next, error) := PrepareText(p, texts[i]);
            && next.disk == p.disk && next.files == p.files
            && PrepareTexts(p, texts[i..]) == if error.Some? then (next, error) else PrepareTexts(next, texts[i + 1..])
  {
    assert texts[i..][0] == texts[i] && texts[i..][1..] == texts[i + 1..];
  }
}
