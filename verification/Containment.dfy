/** Nothing a peer sends is written outside the download directory, unless a link that already stands there leads a
    text out of it: every path that `prepare`, `receive_text` and the commits choose is that directory followed by
    ordinary components, but `fs::write` follows links. */
module Containment {
  import opened Prelude
  import opened WireMessages
  import opened Assembler
  import opened Paths
  import opened Transfers
  import opened TransferInvariant
  import opened Preparation

  predicate Within(root: Path, p: Path) {
    root < p
  }

  /** The two disks agree on every path that is not within `root`, `root` itself included. */
  ghost predicate OutsideSame(root: Path, a: Disk, b: Disk) {
    forall p :: !Within(root, p) ==> (p in a <==> p in b) && (p in a ==> a[p] == b[p])
  }

  /** No link that stands directly in `root` leads out of it. */
  ghost predicate NoLinkOut(root: Path, disk: Disk) {
    forall name :: IsLink(disk, root + [name]) ==>
      var end := RealPath(disk, root + [name]); end.Some? ==> Within(root, end.value)
  }

  ghost predicate TableBelow(root: Path, files: map<int, PendingFile>) {
    forall id :: id in files ==> Below(root, files[id].finalPath) && Below(root, files[id].partPath)
  }

  /** Everything the transfer holds or hands over lies below its directory, everything committed within it, no part
      file is a link, and the disk outside is what it was. */
  ghost predicate Contained(w: World, before: Disk) {
    var root := w.transfer.downloadDirectory;
    && TableBelow(root, w.transfer.files)
    && (forall id :: id in w.transfer.files ==> !IsLink(w.disk, w.transfer.files[id].partPath))
    && (forall k :: 0 <= k < |w.log| ==> Within(root, w.log[k].path) && Below(root, w.log[k].shown))
    && (forall k :: 0 <= k < |w.transfer.completed| ==> Below(root, w.transfer.completed[k]))
    && OutsideSame(root, before, w.disk) && NoNewLinks(before, w.disk)
  }

  /** No text is waited for, or no link leads out of the directory. */
  ghost predicate Guarded(w: World, before: Disk) {
    w.transfer.texts == map[] || NoLinkOut(w.transfer.downloadDirectory, before)
  }

  // ------------------------------------------------------------------
  // Links

  lemma {:induction false} FollowAlike(root: Path, a: Disk, b: Disk, p: Path, links: nat)
    requires OutsideSame(root, a, b) && NoNewLinks(a, b)
    ensures var end := Follow(b, p, links);
            end == Follow(a, p, links) || (end.Some? && Within(root, end.value))
    decreases links
  {
    if IsLink(b, p) && links > 0 {
      FollowAlike(root, a, b, b[p].target, links - 1);
    }
  }

  /** What stays inside leaves no new way out. */
  lemma StillNoLinkOut(root: Path, a: Disk, b: Disk)
    requires NoLinkOut(root, a) && OutsideSame(root, a, b) && NoNewLinks(a, b)
    ensures NoLinkOut(root, b)
  {
    forall name | IsLink(b, root + [name])
      ensures var end := RealPath(b, root + [name]); end.Some? ==> Within(root, end.value)
    {
      FollowAlike(root, a, b, root + [name], MAX_LINKS);
    }
  }

  // ------------------------------------------------------------------
  // prepare

  lemma OneBelow(root: Path, directory: Path, name: string)
    requires (directory == root || Below(root, directory)) && IsComponent(name)
    ensures Below(root, directory + [name])
  {
  }

  lemma PartNameIsComponent(processId: nat, random: nat)
    ensures IsComponent(PartName(processId, random))
  {
    var a, b := Decimal(processId), Decimal(random);
    var s := PartName(processId, random);
    assert s == ".hirodrop-" + a + "-" + b + ".part";
    assert s[1] == 'h' && !IsWhitespace('h') && |s| > 2;
    assert forall i :: 0 <= i < |a| ==> !IsForbidden(a[i]);
    assert forall i :: 0 <= i < |b| ==> !IsForbidden(b[i]);
    hide Decimal;
    Unforbidden(".hirodrop-", a);
    Unforbidden(".hirodrop-" + a, "-");
    Unforbidden(".hirodrop-" + a + "-", b);
    Unforbidden(".hirodrop-" + a + "-" + b, ".part");
  }

  lemma Unforbidden(s: string, t: string)
    requires forall i :: 0 <= i < |s| ==> !IsForbidden(s[i])
    requires forall i :: 0 <= i < |t| ==> !IsForbidden(t[i])
    ensures forall i :: 0 <= i < |s + t| ==> !IsForbidden((s + t)[i])
  {
    hide IsForbidden;
  }

  lemma DestinationBelow(disk: Disk, root: Path, directory: Path, name: string, random: nat)
    requires (directory == root || Below(root, directory)) && IsComponent(name)
    ensures Below(root, UniqueDestination(disk, directory, name, random))
  {
    var r := UniqueDestination(disk, directory, name, random);
    DestinationShape(disk, directory, name, random);
    hide UniqueDestination;
    assert r == directory + [r[|directory|]];
    OneBelow(root, directory, r[|directory|]);
  }

  lemma ParentBelow(disk: Disk, root: Path, parentFolder: Option<string>, unusable: set<Path>)
    ensures var (after, parent) := SafeParentDirectory(disk, root, parentFolder, unusable);
            && OutsideSame(root, disk, after) && NoNewLinks(disk, after)
            && (parent.Ok? ==> parent.value == root || Below(root, parent.value))
  {
    if parentFolder.Some? && parentFolder.value != "" {
      EnteredBelow(disk, root, root, Split(parentFolder.value), unusable);
    }
  }

  lemma SetInside(root: Path, disk: Disk, p: Path, node: Node)
    requires Within(root, p) && !node.Symlink?
    ensures OutsideSame(root, disk, disk[p := node]) && NoNewLinks(disk, disk[p := node])
  {
  }

  lemma BelowIsWithin(root: Path, p: Path)
    requires Below(root, p)
    ensures Within(root, p)
  {
  }

  lemma OutsideTwice(root: Path, a: Disk, b: Disk, c: Disk)
    requires OutsideSame(root, a, b) && OutsideSame(root, b, c)
    ensures OutsideSame(root, a, c) && OutsideSame(root, a, a)
  {
    hide Within;
  }

  ghost predicate PartsInside(root: Path, files: map<int, PendingFile>, disk: Disk) {
    TableBelow(root, files) && forall id :: id in files ==> !IsLink(disk, files[id].partPath)
  }

  lemma PrepareFileContained(p: Preparing, root: Path, metadata: FileMetadata, processId: nat, choice: Choice)
    requires PartsInside(root, p.files, p.disk)
    ensures var next := PrepareFile(p, root, metadata, processId, choice).0;
            PartsInside(root, next.files, next.disk) && OutsideSame(root, p.disk, next.disk) && NoNewLinks(p.disk, next.disk)
  {
    hide Below, Within, SafeParentDirectory, UniqueDestination, SanitizeFileName, PartName, IsComponent, OutsideSame;
    var (disk, parent) := SafeParentDirectory(p.disk, root, metadata.parentFolder, choice.unusable);
    var partPath := root + [PartName(processId, choice.part)];
    ParentBelow(p.disk, root, metadata.parentFolder, choice.unusable);
    PartNameIsComponent(processId, choice.part);
    OneBelow(root, root, PartName(processId, choice.part));
    BelowIsWithin(root, partPath);
    SetInside(root, disk, partPath, Regular([]));
    OutsideTwice(root, p.disk, disk, disk[partPath := Regular([])]);
    if metadata.name.Some? && SanitizeFileName(metadata.name.value).Some? && parent.Ok? {
      FileNameIsComponent(metadata.name.value);
      DestinationBelow(disk, root, parent.value, SanitizeFileName(metadata.name.value).value, choice.fallback);
    }
  }

  lemma {:induction false} PrepareFilesContained(p: Preparing, root: Path, files: seq<FileMetadata>, processId: nat, choices: seq<Choice>)
    requires |choices| == |files| && PartsInside(root, p.files, p.disk)
    ensures var next := PrepareFiles(p, root, files, processId, choices).0;
            PartsInside(root, next.files, next.disk) && OutsideSame(root, p.disk, next.disk) && NoNewLinks(p.disk, next.disk)
    decreases |files|
  {
    hide PrepareFile, Within, PartsInside;
    if files != [] {
      var next := PrepareFile(p, root, files[0], processId, choices[0]).0;
      PrepareFileContained(p, root, files[0], processId, choices[0]);
      PrepareFilesContained(next, root, files[1..], processId, choices[1..]);
    }
  }

  lemma {:induction false} PrepareTextsKeepFiles(p: Preparing, texts: seq<TextMetadata>)
    ensures PrepareTexts(p, texts).0.files == p.files && PrepareTexts(p, texts).0.disk == p.disk
    decreases |texts|
  {
    if texts != [] {
      PrepareTextsKeepFiles(PrepareText(p, texts[0]).0, texts[1..]);
    }
  }

  /** `prepare`, whether it succeeds or not, touches nothing outside; and every destination and every part file it
      sets down lies below the download directory. */
  lemma PrepareContained(
    introduction: Introduction, root: Path, disk: Disk, processId: nat, choices: seq<Choice>, buffers: Buffers)
    requires |choices| == |introduction.files|
    ensures var prepared := Prepare(introduction, root, disk, processId, choices);
            && OutsideSame(root, disk, prepared.disk)
            && (prepared.result.Ok? ==>
                  && prepared.result.value.downloadDirectory == root
                  && TableBelow(root, prepared.result.value.files)
                  && Contained(StartOf(prepared.result.value, prepared.disk, buffers), disk))
  {
    hide PrepareFiles, PrepareTexts, Below;
    var p0 := Preparing(disk, map[], map[], 0);
    PrepareFilesContained(p0, root, introduction.files, processId, choices);
    PrepareTextsKeepFiles(PrepareFiles(p0, root, introduction.files, processId, choices).0, introduction.texts);
  }

  // ------------------------------------------------------------------
  // Frames

  /** One step that keeps things inside. */
  ghost predicate StaysInside(w: World, before: Disk, after: World) {
    && Contained(after, before) && Guarded(after, before)
    && after.transfer.downloadDirectory == w.transfer.downloadDirectory
  }

  lemma AppendContained(w: World, before: Disk, path: Path, body: bytes, env: Env)
    requires OutsideSame(w.transfer.downloadDirectory, before, w.disk) && NoNewLinks(before, w.disk)
    requires Below(w.transfer.downloadDirectory, path)
    ensures var after := AppendPart(w, path, body, env).0;
            && OutsideSame(w.transfer.downloadDirectory, before, after.disk)
            && NoNewLinks(before, after.disk) && NoNewLinks(w.disk, after.disk)
            && after.transfer == w.transfer && after.log == w.log
  {
    BelowIsWithin(w.transfer.downloadDirectory, path);
    hide Below, Within, ContentAt;
  }

  lemma WriteContained(w: World, before: Disk, id: int, body: bytes, env: Env)
    requires Contained(w, before) && Guarded(w, before) && id in w.transfer.files
    ensures StaysInside(w, before, WriteChunk(w, id, body, env).world)
  {
    hide Below, Within, AppendPart, NoLinkOut;
    AppendContained(w, before, w.transfer.files[id].partPath, body, env);
  }

  /** Committing an entry that has left the map already. */
  lemma CommitContained(w: World, before: Disk, id: int, pending: PendingFile, env: Env)
    requires var root := w.transfer.downloadDirectory;
             && Contained(w, before) && Guarded(w, before)
             && Below(root, pending.finalPath) && Below(root, pending.partPath) && !IsLink(w.disk, pending.partPath)
    ensures StaysInside(w, before, CommitFile(w, id, pending, env).world)
  {
    BelowIsWithin(w.transfer.downloadDirectory, pending.finalPath);
    BelowIsWithin(w.transfer.downloadDirectory, pending.partPath);
    hide Below, Within, NoLinkOut, ContentAt;
  }

  lemma FinishContained(w: World, before: Disk, id: int, env: Env)
    requires Contained(w, before) && Guarded(w, before)
    ensures StaysInside(w, before, FinishChunks(w, id, env).world)
  {
    hide Below, Within, NoLinkOut, CommitFile;
    if id in w.transfer.files {
      CommitContained(w.(transfer := w.transfer.(files := w.transfer.files - {id})), before, id, w.transfer.files[id], env);
    }
  }

  lemma FileChunkContained(w: World, before: Disk, t: PayloadTransfer, env: Env)
    requires Contained(w, before) && Guarded(w, before)
    ensures StaysInside(w, before, ReceiveFileChunk(w, t, env).world)
  {
    hide Contained, Guarded, WriteChunk, FinishChunks;
    if t.header.Some? && t.header.value.id.Some? && t.chunk.Some? && t.header.value.id.value in w.transfer.files {
      var id := t.header.value.id.value;
      var mid := w;
      if t.chunk.value.body.Some? {
        WriteContained(w, before, id, t.chunk.value.body.value, env);
        mid := WriteChunk(w, id, t.chunk.value.body.value, env).world;
      }
      FinishContained(mid, before, id, env);
    }
  }

  lemma FileBytesContained(w: World, before: Disk, id: int, content: bytes, env: Env)
    requires Contained(w, before) && Guarded(w, before) && id in w.transfer.files
    ensures StaysInside(w, before, ReceiveFileBytes(w, id, content, env).world)
  {
    hide Below, Within, NoLinkOut, CommitFile, AppendPart;
    var pending := w.transfer.files[id];
    var counted := w.(transfer := w.transfer.(
      files := w.transfer.files - {id}, receivedBytes := SaturatingAdd(w.transfer.receivedBytes, |content|)));
    AppendContained(counted, before, pending.partPath, content, env);
    CommitContained(AppendPart(counted, pending.partPath, content, env).0, before, id, pending, env);
  }

  /** The name picked for a text lies below the directory, and if no link leads out, the bytes go inside too. */
  lemma TextStaysInside(w: World, before: Disk, isUrl: bool, env: Env)
    requires Contained(w, before)
    ensures var root, path := w.transfer.downloadDirectory, TextPath(w, isUrl, env);
            && Below(root, path)
            && (NoLinkOut(root, before) ==>
                  var target := WriteTarget(w.disk, path); target.Some? ==> Within(root, target.value))
  {
    var root, path := w.transfer.downloadDirectory, TextPath(w, isUrl, env);
    TextNameIsComponent(isUrl, env.now);
    DestinationBelow(w.disk, root, root, TextName(isUrl, env.now), env.fallback);
    DestinationShape(w.disk, root, TextName(isUrl, env.now), env.fallback);
    hide UniqueDestination, TextName, IsComponent;
    BelowIsWithin(root, path);
    if NoLinkOut(root, before) {
      StillNoLinkOut(root, before, w.disk);
      assert path == root + [path[|root|]];
    }
  }

  /** What a text can do to the world: nothing on the disk, or bytes at its target, with a commit or without. */
  lemma TextOutcome(w: World, id: int, content: bytes, env: Env)
    requires id in w.transfer.texts
    ensures var after, path := ReceiveText(w, id, content, env).world, TextPath(w, w.transfer.texts[id].isUrl, env);
            var target := WriteTarget(w.disk, path);
            && after.transfer.files == w.transfer.files && after.transfer.downloadDirectory == w.transfer.downloadDirectory
            && ((after.log == w.log && after.transfer.completed == w.transfer.completed)
                || (target.Some? && after.transfer.completed == w.transfer.completed + [path]
                    && after.log == w.log + [Commit(id, target.value, content, w.transfer.texts[id].expectedSize, path)]))
            && (after.disk == w.disk
                || (target.Some? && exists written :: after.disk == w.disk[target.value := Regular(written)]))
  {
    hide UniqueDestination, WriteTarget;
  }

  lemma DiskStaysInside(w: World, before: Disk, id: int, content: bytes, env: Env)
    requires Contained(w, before) && NoLinkOut(w.transfer.downloadDirectory, before) && id in w.transfer.texts
    ensures var after := ReceiveText(w, id, content, env).world;
            && OutsideSame(w.transfer.downloadDirectory, before, after.disk)
            && NoNewLinks(before, after.disk) && NoNewLinks(w.disk, after.disk)
  {
    hide Below, Within, TextPath, WriteTarget, NoLinkOut, ReceiveText, TableBelow;
    var isUrl := w.transfer.texts[id].isUrl;
    TextStaysInside(w, before, isUrl, env);
    TextOutcome(w, id, content, env);
    var target, after := WriteTarget(w.disk, TextPath(w, isUrl, env)), ReceiveText(w, id, content, env).world;
    if after.disk != w.disk {
      var written :| after.disk == w.disk[target.value := Regular(written)];
      SetInside(w.transfer.downloadDirectory, w.disk, target.value, Regular(written));
    }
  }

  lemma FewerTexts(w: World, id: int, content: bytes, env: Env)
    requires id in w.transfer.texts
    ensures ReceiveText(w, id, content, env).world.transfer.texts == w.transfer.texts - {id}
  {
    hide UniqueDestination, WriteTarget;
  }

  lemma TextContained(w: World, before: Disk, id: int, content: bytes, env: Env)
    requires Contained(w, before) && Guarded(w, before) && id in w.transfer.texts
    ensures StaysInside(w, before, ReceiveText(w, id, content, env).world)
  {
    hide Below, Within, TextPath, WriteTarget, NoLinkOut, ReceiveText, OutsideSame;
    assert NoLinkOut(w.transfer.downloadDirectory, before);
    DiskStaysInside(w, before, id, content, env);
    TextStaysInside(w, before, w.transfer.texts[id].isUrl, env);
    TextOutcome(w, id, content, env);
  }

  /** Every frame, whether it succeeds or fails, with any failure of the file system. */
  lemma HandleContained(w: World, before: Disk, frame: OfflineFrame, env: Env)
    requires Contained(w, before) && Guarded(w, before)
    ensures StaysInside(w, before, Handle(w, frame, env).world)
  {
    hide Below, Within, NoLinkOut, ReceiveFileChunk, PushChunk, ReceiveFileBytes, ReceiveText;
    if IsPayload(frame) && frame.v1.value.payloadTransfer.Some? {
      var t := frame.v1.value.payloadTransfer.value;
      FileChunkContained(w, before, t, env);
      var pushed := PushChunk(true, w.buffers, t);
      var mid := w.(buffers := pushed.buffers);
      assert Contained(mid, before) && Guarded(mid, before);
      if pushed.result.Ok? && pushed.result.value.Some? {
        var (id, content) := pushed.result.value.value;
        if id in w.transfer.files {
          FileBytesContained(mid, before, id, content, env);
        } else if id in w.transfer.texts {
          TextContained(mid, before, id, content, env);
        }
      }
    }
  }

  /** Whole runs of `receive_all`, however they end. */
  lemma {:induction false} ReceiveAllContained(w: World, before: Disk, arrivals: seq<Arrival>)
    requires Contained(w, before) && Guarded(w, before)
    ensures var end := ReceiveAll(w, arrivals).world;
            StaysInside(w, before, end) && OutsideSame(w.transfer.downloadDirectory, before, CleanupParts(end))
    decreases |arrivals|
  {
    hide Handle, Contained, Guarded, CleanupParts;
    CleanupContained(w, before);
    if !Finished(w.transfer) && arrivals != [] {
      var step := Handle(w, arrivals[0].frame, arrivals[0].env);
      HandleContained(w, before, arrivals[0].frame, arrivals[0].env);
      CleanupContained(step.world, before);
      ReceiveAllContained(step.world, before, arrivals[1..]);
    }
  }

  lemma CleanupContained(w: World, before: Disk)
    requires Contained(w, before)
    ensures OutsideSame(w.transfer.downloadDirectory, before, CleanupParts(w))
  {
    forall p | p in PartPaths(w.transfer.files)
      ensures Within(w.transfer.downloadDirectory, p)
    {
      var id :| id in w.transfer.files && w.transfer.files[id].partPath == p;
      BelowIsWithin(w.transfer.downloadDirectory, p);
    }
    hide Below, Within, PartPaths;
  }

  /** Containment. Whatever the introduction says and whatever frames arrive, with any random numbers, clock and
      file-system failures: every destination, part file and path handed over is the download directory followed by
      ordinary components. On the disk `prepare` makes, changes and removes nothing outside that directory, and
      neither does a run, successful or not, with its cleanup, if no text is announced or no link that stands in
      the download directory leads out of it. */
  lemma NothingOutside(
    introduction: Introduction, root: Path, disk: Disk, processId: nat, choices: seq<Choice>, buffers: Buffers, arrivals: seq<Arrival>)
    requires |choices| == |introduction.files|
    ensures var prepared := Prepare(introduction, root, disk, processId, choices);
            && OutsideSame(root, disk, prepared.disk)
            && (prepared.result.Ok? ==>
                  var t := prepared.result.value;
                  forall id :: id in t.files ==> Below(root, t.files[id].finalPath) && Below(root, t.files[id].partPath))
            && (prepared.result.Ok? && (introduction.texts == [] || NoLinkOut(root, disk)) ==>
                  var end := ReceiveAll(StartOf(prepared.result.value, prepared.disk, buffers), arrivals).world;
                  && (forall k :: 0 <= k < |end.log| ==> Within(root, end.log[k].path))
                  && (forall k :: 0 <= k < |end.transfer.completed| ==> Below(root, end.transfer.completed[k]))
                  && OutsideSame(root, disk, end.disk) && OutsideSame(root, disk, CleanupParts(end)))
  {
    PrepareContained(introduction, root, disk, processId, choices, buffers);
    NoTextsAnnounced(introduction, root, disk, processId, choices);
    hide Below, Within, Prepare, ReceiveAll, CleanupParts, OutsideSame, NoLinkOut;
    var prepared := Prepare(introduction, root, disk, processId, choices);
    if prepared.result.Ok? && (introduction.texts == [] || NoLinkOut(root, disk)) {
      ReceiveAllContained(StartOf(prepared.result.value, prepared.disk, buffers), disk, arrivals);
    }
  }

  lemma NoTextsAnnounced(introduction: Introduction, root: Path, disk: Disk, processId: nat, choices: seq<Choice>)
    requires |choices| == |introduction.files|
    ensures var prepared := Prepare(introduction, root, disk, processId, choices);
            prepared.result.Ok? && introduction.texts == [] ==> prepared.result.value.texts == map[]
  {
    FilesAddNoTexts(Preparing(disk, map[], map[], 0), root, introduction.files, processId, choices);
    hide PrepareFiles;
  }

  lemma {:induction false} FilesAddNoTexts(p: Preparing, root: Path, files: seq<FileMetadata>, processId: nat, choices: seq<Choice>)
    requires |choices| == |files|
    ensures PrepareFiles(p, root, files, processId, choices).0.texts == p.texts
    decreases |files|
  {
    hide SafeParentDirectory, UniqueDestination, SanitizeFileName, PartName;
    if files != [] {
      FilesAddNoTexts(PrepareFile(p, root, files[0], processId, choices[0]).0, root, files[1..], processId, choices[1..]);
    }
  }

  // ------------------------------------------------------------------
  // Out of the directory

  /** Exactly when a text stays inside: whether it succeeds or fails, the step leaves the disk outside as it was if and
      only if it changes nothing or its bytes go inside; and one that succeeds changes nothing exactly when its file
      held these very bytes already. */
  lemma TextStaysInsideIff(w: World, id: int, content: bytes, env: Env)
    requires id in w.transfer.texts
    ensures var root, target := w.transfer.downloadDirectory, WriteTarget(w.disk, TextPath(w, w.transfer.texts[id].isUrl, env));
            var step := ReceiveText(w, id, content, env);
            && (OutsideSame(root, w.disk, step.world.disk) <==>
                  step.world.disk == w.disk || (target.Some? && Within(root, target.value)))
            && (step.error.None? ==>
                  && target.Some?
                  && (step.world.disk == w.disk <==> target.value in w.disk && w.disk[target.value] == Regular(content)))
  {
    hide TextPath, WriteTarget, Within, ReceiveText;
    TextOutcome(w, id, content, env);
    if ReceiveText(w, id, content, env).error.None? {
      TextWrites(w, id, content, env);
    }
    var target := WriteTarget(w.disk, TextPath(w, w.transfer.texts[id].isUrl, env));
    var after := ReceiveText(w, id, content, env).world.disk;
    if after != w.disk {
      var written :| after == w.disk[target.value := Regular(written)];
      assert target.value in after && (target.value in w.disk ==> w.disk[target.value] != after[target.value]);
    }
  }

  lemma TextWrites(w: World, id: int, content: bytes, env: Env)
    requires id in w.transfer.texts && ReceiveText(w, id, content, env).error.None?
    ensures var target := WriteTarget(w.disk, TextPath(w, w.transfer.texts[id].isUrl, env));
            target.Some? && ReceiveText(w, id, content, env).world.disk == w.disk[target.value := Regular(content)]
  {
    hide UniqueDestination, WriteTarget;
  }

  /** And the bytes go outside exactly when a link stands at the name picked and leads there. */
  lemma OnlyLinksLeadOut(w: World, isUrl: bool, env: Env)
    requires WriteTarget(w.disk, TextPath(w, isUrl, env)).Some?
    ensures var root, path := w.transfer.downloadDirectory, TextPath(w, isUrl, env);
            !Within(root, WriteTarget(w.disk, path).value) <==>
            IsLink(w.disk, path) && !Within(root, RealPath(w.disk, path).value)
  {
    var root, path := w.transfer.downloadDirectory, TextPath(w, isUrl, env);
    TextNameIsComponent(isUrl, env.now);
    DestinationShape(w.disk, root, TextName(isUrl, env.now), env.fallback);
    hide UniqueDestination, TextName, IsComponent;
  }

  /** Such a disk: in the download directory stands a link, to a file that is not there, with the very name the
      text will get. The text is received without error and its byte is in the new file outside. */
  lemma TextFollowsLink(x: byte)
    ensures var link, outside := ["d", TextName(false, 5)], ["e", "note"];
            var disk := map[["d"] := Directory, ["e"] := Directory, link := Symlink(outside)];
            var w := World(Transfer(map[], map[7 := PendingText(1, false)], {}, ["d"], [], 1, 0), map[], disk, []);
            var step := ReceiveText(w, 7, [x], Env(NoFault, 5, 0));
            && step.error.None? && step.world.transfer.completed == [link]
            && step.world.disk == disk[outside := Regular([x])]
            && !OutsideSame(["d"], disk, step.world.disk)
  {
    hide TextName;
    var link, outside := ["d", TextName(false, 5)], ["e", "note"];
    var disk := map[["d"] := Directory, ["e"] := Directory, link := Symlink(outside)];
    assert ["d"] + [TextName(false, 5)] == link && link[0] == "d" && outside[0] == "e";
    assert outside[..1] == ["e"] && outside !in disk;
    assert Follow(disk, outside, 39) == Some(outside);
    assert RealPath(disk, link) == Some(outside);
    assert WriteTarget(disk, link) == Some(outside);
    assert !Exists(disk, link);
    assert !Within(["d"], outside);
  }
}
