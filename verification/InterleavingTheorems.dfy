/** Any two interleavings of the same payload streams end alike. */
module InterleavingTheorems {
  import opened Prelude
  import opened WireMessages
  import opened Assembler
  import opened Paths
  import opened Transfers
  import opened TransferInvariant
  import opened Fidelity
  import opened Interleaving

  /** Every arrival carries a payload frame. */
  predicate Carriers(arrivals: seq<Arrival>) {
    forall i :: 0 <= i < |arrivals| ==> IsPayload(arrivals[i].frame) && arrivals[i].frame.v1.value.payloadTransfer.Some?
  }

  ghost predicate AllTame(w: World, arrivals: seq<Arrival>) {
    && Carriers(arrivals)
    && forall i :: 0 <= i < |arrivals| ==> Tame(w.transfer.downloadDirectory, w.disk, arrivals[i])
  }

  function Chunks(arrivals: seq<Arrival>): (r: seq<PayloadTransfer>)
    requires Carriers(arrivals)
    ensures |r| == |arrivals| && forall i :: 0 <= i < |r| ==> r[i] == ChunkOf(arrivals[i])
  {
    if arrivals == [] then [] else [ChunkOf(arrivals[0])] + Chunks(arrivals[1..])
  }

  /** Every frame handled, pending payloads or not. */
  function Process(w: World, arrivals: seq<Arrival>): Stepped
    decreases |arrivals|
  {
    if arrivals == [] then Stepped(w, None)
    else
      var step := Handle(w, arrivals[0].frame, arrivals[0].env);
      if step.error.Some? then step else Process(step.world, arrivals[1..])
  }

  // ------------------------------------------------------------------
  // What a step keeps

  /** Directories stay and none appears, no link appears, only the part files vanish, and no payload becomes pending. */
  ghost predicate Narrows(w: World, next: World) {
    && next.transfer.downloadDirectory == w.transfer.downloadDirectory
    && next.transfer.files.Keys <= w.transfer.files.Keys && next.transfer.texts.Keys <= w.transfer.texts.Keys
    && (forall p :: IsDirectory(next.disk, p) <==> IsDirectory(w.disk, p))
    && NoNewLinks(w.disk, next.disk)
    && (forall p :: p in w.disk && p !in next.disk ==> p in PartPaths(w.transfer.files))
  }

  lemma WrittenNarrows(w: World, id: int, body: Option<bytes>)
    requires Sound(w) && id in w.transfer.files
    ensures Narrows(w, Written(w, id, body))
    ensures PartPaths(Written(w, id, body).transfer.files) == PartPaths(w.transfer.files)
    ensures Written(w, id, body).disk.Keys == w.disk.Keys
  {
    hide Accounts, LogSound, ContentAt;
    SamePartPaths(w.transfer.files, Written(w, id, body).transfer.files);
  }

  lemma SamePartPaths(a: map<int, PendingFile>, b: map<int, PendingFile>)
    requires a.Keys == b.Keys && forall id :: id in a ==> a[id].partPath == b[id].partPath
    ensures PartPaths(a) == PartPaths(b)
  {
    assert forall id :: id in a ==> a[id].partPath in PartPaths(b) && b[id].partPath in PartPaths(a);
  }

  lemma CommitNarrows(w: World, id: int, extra: bytes)
    requires Sound(w) && id in w.transfer.files && Clear(w, id)
    ensures Narrows(w, CommitWith(w, id, extra))
  {
    hide Accounts, LogSound, ContentAt;
    assert w.transfer.files[id].partPath in PartPaths(w.transfer.files);
  }

  lemma TextNarrows(w: World, id: int, content: bytes, path: Path, target: Path)
    requires id in w.transfer.texts && !IsDirectory(w.disk, target)
    ensures Narrows(w, TextAt(w, id, content, path, target))
  {
    hide PartPaths;
  }

  lemma FileChunkNarrows(w: World, t: PayloadTransfer, env: Env, id: int)
    requires Sound(w) && HeaderId(t) == Some(id) && env.fault == NoFault && ReceiveFileChunk(w, t, env).error.None?
    ensures Narrows(w, ReceiveFileChunk(w, t, env).world)
  {
    hide Sound, ReceiveFileChunk, FinishChunks, CommitWith, WriteWith, PartPaths, Clear;
    FileChunkIs(w, t, env, id);
    var body := t.chunk.value.body;
    var mid := Written(w, id, body);
    WrittenNarrows(w, id, body);
    if body.Some? {
      WriteIsSound(w, id, body.value);
    }
    if LowBit(GetOr(t.chunk.value.flags, 0)) {
      WriteKeepsPending(w, id, body);
      CommitOfWhole(mid, id, env);
      CommitNarrows(mid, id, []);
    }
  }

  lemma WriteKeepsPending(w: World, id: int, body: Option<bytes>)
    requires id in w.transfer.files
    ensures id in Written(w, id, body).transfer.files
  {
  }

  lemma BytesNarrow(w: World, id: int, content: bytes, env: Env)
    requires Sound(w) && env.fault == NoFault && TextsLand(w.transfer.downloadDirectory, w.disk, env)
    requires ReceiveBytes(w, id, content, env).error.None?
    ensures Narrows(w, ReceiveBytes(w, id, content, env).world)
  {
    hide Sound, ReceiveFileBytes, ReceiveText, TextPath, WriteTarget, TextsLand, CommitWith, TextAt, Clear;
    if id in w.transfer.files {
      WholeFileErrors(w, id, content, env);
      FileBytesIsCommit(w, id, content, env);
      CommitNarrows(w, id, content);
    } else if id in w.transfer.texts {
      TextIs(w, id, content, env);
      var path := TextPath(w, w.transfer.texts[id].isUrl, env);
      TextNarrows(w, id, content, path, WriteTarget(w.disk, path).value);
    }
  }

  lemma HandleNarrows(w: World, a: Arrival)
    requires Sound(w) && Tame(w.transfer.downloadDirectory, w.disk, a) && Handle(w, a.frame, a.env).error.None?
    ensures Narrows(w, Handle(w, a.frame, a.env).world)
  {
    hide Sound, ReceiveFileChunk, ReceiveBytes, PushChunk, TextsLand, PartPaths;
    var t := ChunkOf(a);
    if t.header.value.payloadType == Some(PAYLOAD_FILE) {
      FileChunkNarrows(w, t, a.env, HeaderId(t).value);
    } else {
      var pushed := PushChunk(true, w.buffers, t);
      BuffersIrrelevant(w, pushed.buffers);
      if pushed.result.value.Some? {
        BytesNarrow(w.(buffers := pushed.buffers), pushed.result.value.value.0, pushed.result.value.value.1, a.env);
      }
    }
  }

  /** Links that end well go on doing so: a link they lead through may have become a file, and what they end at is
      no part file. */
  lemma {:induction false} StillEndsWell(a: Disk, b: Disk, gone: set<Path>, p: Path, links: nat)
    requires NoNewLinks(a, b) && (forall q :: IsDirectory(b, q) <==> IsDirectory(a, q))
    requires forall q :: q in a && q !in b ==> q in gone
    requires forall q :: q in gone ==> !IsLink(a, q)
    requires Follow(a, p, links).Some? && !IsDirectory(a, Follow(a, p, links).value)
    ensures var end := Follow(b, p, links);
            end.Some? && !IsDirectory(b, end.value) && (end == Follow(a, p, links) || end.value in b)
    decreases links
  {
    if IsLink(b, p) {
      StillEndsWell(a, b, gone, b[p].target, links - 1);
    }
  }

  lemma StillLands(w: World, next: World, p: Path)
    requires PartsSound(w) && Narrows(w, next) && IsLink(next.disk, p) && WriteTarget(w.disk, p).Some?
    ensures WriteTarget(next.disk, p).Some?
  {
    var a, b, gone := w.disk, next.disk, PartPaths(w.transfer.files);
    assert forall q :: q in gone ==> !IsLink(a, q) && forall l :: IsLink(a, l) ==> a[l].target != q;
    EndIsSelfOrTarget(a, p, MAX_LINKS);
    hide PartsSound, Follow, PartPaths;
    assert NoNewLinks(a, b) && IsLink(a, p);
    StillEndsWell(a, b, gone, p, MAX_LINKS);
  }

  lemma StillTame(w: World, next: World, a: Arrival)
    requires PartsSound(w) && Narrows(w, next) && Tame(w.transfer.downloadDirectory, w.disk, a)
    ensures Tame(next.transfer.downloadDirectory, next.disk, a)
  {
    hide WriteTarget, PartsSound, PartPaths, Decimal;
    var root := w.transfer.downloadDirectory;
    forall name | IsLink(next.disk, root + [name])
      ensures WriteTarget(next.disk, root + [name]).Some?
    {
      assert IsLink(w.disk, root + [name]);
      StillLands(w, next, root + [name]);
    }
  }

  lemma StepKeepsTame(wasFile: set<int>, w: World, arrivals: seq<Arrival>)
    requires arrivals != [] && Sound(w) && Offered(wasFile, w.transfer) && AllTame(w, arrivals)
    requires Handle(w, arrivals[0].frame, arrivals[0].env).error.None?
    ensures var next := Handle(w, arrivals[0].frame, arrivals[0].env).world;
            Sound(next) && Offered(wasFile, next.transfer) && AllTame(next, arrivals[1..])
  {
    HandleSound(w, arrivals[0].frame, arrivals[0].env);
    HandleNarrows(w, arrivals[0]);
    SoundParts(w);
    hide Sound, Handle, Tame, PartsSound;
    var next := Handle(w, arrivals[0].frame, arrivals[0].env).world;
    forall i | 1 <= i < |arrivals|
      ensures Tame(next.transfer.downloadDirectory, next.disk, arrivals[i])
    {
      StillTame(w, next, arrivals[i]);
    }
  }

  // ------------------------------------------------------------------
  // Projection

  /** What the chunks of `id` alone make of its part of the world. */
  function OwnRun(wasFile: set<int>, w: World, id: int, arrivals: seq<Arrival>): Option<Cell>
    requires Carriers(arrivals)
  {
    RunCell(View(wasFile, w, id), For(id, Chunks(arrivals)))
  }

  lemma OwnRunStep(wasFile: set<int>, w: World, j: int, arrivals: seq<Arrival>)
    requires arrivals != [] && Sound(w) && Offered(wasFile, w.transfer) && AllTame(w, arrivals)
    ensures var step := Handle(w, arrivals[0].frame, arrivals[0].env);
            if step.error.Some? then j == HeaderId(ChunkOf(arrivals[0])).value ==> OwnRun(wasFile, w, j, arrivals).None?
            else OwnRun(wasFile, w, j, arrivals) == OwnRun(wasFile, step.world, j, arrivals[1..])
  {
    HandleViews(wasFile, w, arrivals[0], j);
    ForStep(j, Chunks(arrivals));
    assert Chunks(arrivals)[1..] == Chunks(arrivals[1..]);
    hide Sound, Handle, View, CellStep, For, Tame, TextsLand, HeaderId;
  }

  /** A run succeeds exactly when the chunks of every single id succeed alone, and then every id ends as its
      own chunks make it end. */
  lemma {:induction false} RunProjects(wasFile: set<int>, w: World, arrivals: seq<Arrival>)
    requires Sound(w) && Offered(wasFile, w.transfer) && AllTame(w, arrivals)
    ensures var end := Process(w, arrivals);
            && (end.error.None? <==> forall id: int :: OwnRun(wasFile, w, id, arrivals).Some?)
            && (end.error.None? ==>
                  && Sound(end.world)
                  && forall id: int :: OwnRun(wasFile, w, id, arrivals) == Some(View(wasFile, end.world, id)))
    decreases |arrivals|
  {
    hide Sound, Handle, View, Offered, Tame, HeaderId;
    if arrivals == [] {
      assert forall id: int :: OwnRun(wasFile, w, id, arrivals) == Some(View(wasFile, w, id));
    } else {
      var step := Handle(w, arrivals[0].frame, arrivals[0].env);
      if step.error.Some? {
        FirstFails(wasFile, w, arrivals);
      } else {
        StepKeepsTame(wasFile, w, arrivals);
        forall id: int
          ensures OwnRun(wasFile, w, id, arrivals) == OwnRun(wasFile, step.world, id, arrivals[1..])
        {
          OwnRunStep(wasFile, w, id, arrivals);
        }
        RunProjects(wasFile, step.world, arrivals[1..]);
        hide OwnRun;
      }
    }
  }

  lemma FirstFails(wasFile: set<int>, w: World, arrivals: seq<Arrival>)
    requires arrivals != [] && Sound(w) && Offered(wasFile, w.transfer) && AllTame(w, arrivals)
    requires Handle(w, arrivals[0].frame, arrivals[0].env).error.Some?
    ensures exists id: int :: OwnRun(wasFile, w, id, arrivals).None?
  {
    var id := HeaderId(ChunkOf(arrivals[0])).value;
    OwnRunStep(wasFile, w, id, arrivals);
    assert OwnRun(wasFile, w, id, arrivals).None?;
  }

  // ------------------------------------------------------------------
  // receive_all stops at the first moment nothing is pending; nothing is lost by that

  lemma {:induction false} NothingMoreHappens(w: World, arrivals: seq<Arrival>)
    requires Finished(w.transfer) && AllTame(w, arrivals) && Process(w, arrivals).error.None?
    ensures var end := Process(w, arrivals).world;
            end.log == w.log && end.transfer.receivedBytes == w.transfer.receivedBytes && Finished(end.transfer)
    decreases |arrivals|
  {
    if arrivals != [] {
      FinishedStep(w, arrivals[0]);
      var next := Handle(w, arrivals[0].frame, arrivals[0].env).world;
      hide Handle, Tame;
      NothingMoreHappens(next, arrivals[1..]);
    }
  }

  lemma FinishedStep(w: World, a: Arrival)
    requires Finished(w.transfer) && Tame(w.transfer.downloadDirectory, w.disk, a) && Handle(w, a.frame, a.env).error.None?
    ensures var next := Handle(w, a.frame, a.env).world;
            && next.log == w.log && next.disk == w.disk && Finished(next.transfer)
            && next.transfer.receivedBytes == w.transfer.receivedBytes
            && next.transfer.downloadDirectory == w.transfer.downloadDirectory
  {
    hide PushChunk, TextsLand;
    assert forall id :: id !in w.transfer.files && id !in w.transfer.texts by {
      assert w.transfer.files.Keys == {} && w.transfer.texts.Keys == {};
    }
  }

  lemma {:induction false} ReceiveAllIsProcess(wasFile: set<int>, w: World, arrivals: seq<Arrival>)
    requires Sound(w) && Offered(wasFile, w.transfer) && AllTame(w, arrivals)
    requires Process(w, arrivals).error.None? && Finished(Process(w, arrivals).world.transfer)
    ensures var out, end := ReceiveAll(w, arrivals), Process(w, arrivals).world;
            && out.error.None? && out.world.log == end.log
            && out.world.transfer.receivedBytes == end.transfer.receivedBytes
    decreases |arrivals|
  {
    hide Sound, Handle, Tame;
    if Finished(w.transfer) {
      NothingMoreHappens(w, arrivals);
    } else {
      StepKeepsTame(wasFile, w, arrivals);
      ReceiveAllIsProcess(wasFile, Handle(w, arrivals[0].frame, arrivals[0].env).world, arrivals[1..]);
    }
  }

  // ------------------------------------------------------------------
  // Totals

  predicate SameKept(wasFile: set<int>, a: seq<Commit>, b: seq<Commit>, id: int) {
    KeptFor(id in wasFile, id, a) == KeptFor(id in wasFile, id, b)
  }

  /** A history without the last commit of `id`. */
  function Without(log: seq<Commit>, id: int): seq<Commit> {
    if log == [] then []
    else if log[|log| - 1].id == id then log[..|log| - 1]
    else Without(log[..|log| - 1], id) + [log[|log| - 1]]
  }

  lemma SizePush(log: seq<Commit>, c: Commit)
    ensures LogSize(log + [c]) == LogSize(log) + |c.content|
  {
    assert (log + [c])[..|log|] == log;
  }

  lemma {:induction false} WithoutKept(log: seq<Commit>, id: int, isFile: bool)
    requires KeptFor(isFile, id, log) != []
    ensures var kept := KeptFor(isFile, id, log);
            && KeptFor(isFile, id, Without(log, id)) == kept[..|kept| - 1]
            && LogSize(Without(log, id)) + |kept[|kept| - 1].content| == LogSize(log)
            && |Without(log, id)| < |log|
  {
    assert KeptFor(isFile, id, []) == [];
    hide KeptFor, LogSize;
    var front, last := log[..|log| - 1], log[|log| - 1];
    assert log == front + [last];
    KeptForPush(isFile, id, front, last);
    SizePush(front, last);
    if last.id != id {
      assert Without(log, id) == Without(front, id) + [last];
      WithoutKept(front, id, isFile);
      SizePush(Without(front, id), last);
      KeptForPush(isFile, id, Without(front, id), last);
      hide Without;
    } else {
      assert Without(log, id) == front;
    }
  }

  lemma {:induction false} WithoutOthers(log: seq<Commit>, id: int, j: int, isFile: bool)
    requires j != id
    ensures KeptFor(isFile, j, Without(log, id)) == KeptFor(isFile, j, log)
  {
    if log != [] && log[|log| - 1].id != id {
      var front, last := log[..|log| - 1], log[|log| - 1];
      WithoutOthers(front, id, j, isFile);
      KeptForPush(isFile, j, Without(front, id), last);
    }
  }

  lemma SomethingKept(wasFile: set<int>, log: seq<Commit>)
    ensures log == [] || exists id: int :: KeptFor(id in wasFile, id, log) != []
  {
    if log != [] {
      assert KeptFor(log[|log| - 1].id in wasFile, log[|log| - 1].id, log) != [];
    }
  }

  /** Histories in which every id has the same commits have the same total size. */
  lemma {:induction false} SameTotals(wasFile: set<int>, a: seq<Commit>, b: seq<Commit>)
    requires forall id: int :: SameKept(wasFile, a, b, id)
    ensures LogSize(a) == LogSize(b)
    decreases |a|
  {
    if a == [] {
      forall id: int
        ensures KeptFor(id in wasFile, id, b) == []
      {
        assert SameKept(wasFile, a, b, id);
      }
      SomethingKept(wasFile, b);
    } else {
      var id := a[|a| - 1].id;
      var isFile := id in wasFile;
      assert SameKept(wasFile, a, b, id);
      WithoutKept(a, id, isFile);
      WithoutKept(b, id, isFile);
      forall j: int
        ensures SameKept(wasFile, Without(a, id), Without(b, id), j)
      {
        assert SameKept(wasFile, a, b, j);
        if j != id {
          WithoutOthers(a, id, j, j in wasFile);
          WithoutOthers(b, id, j, j in wasFile);
        }
      }
      SameTotals(wasFile, Without(a, id), Without(b, id));
    }
  }

  // ------------------------------------------------------------------
  // The theorem

  /** The chunks of every id, alone, bring that id to its end without error. */
  ghost predicate StreamsComplete(wasFile: set<int>, w: World, arrivals: seq<Arrival>)
    requires AllTame(w, arrivals)
  {
    forall id: int ::
      var end := OwnRun(wasFile, w, id, arrivals);
      end.Some? && end.value.file.None? && end.value.text.None?
  }

  ghost predicate SameStreams(a: seq<Arrival>, b: seq<Arrival>)
    requires Carriers(a) && Carriers(b)
  {
    forall id: int :: For(id, Chunks(a)) == For(id, Chunks(b))
  }

  lemma FinishedByViews(wasFile: set<int>, w: World)
    ensures Finished(w.transfer) <==> forall id: int :: View(wasFile, w, id).file.None? && View(wasFile, w, id).text.None?
  {
    hide KeptFor, Only, Clear;
    if forall id: int :: View(wasFile, w, id).file.None? && View(wasFile, w, id).text.None? {
      forall id: int
        ensures id !in w.transfer.files.Keys && id !in w.transfer.texts.Keys
      {
        assert View(wasFile, w, id).file.None? && View(wasFile, w, id).text.None?;
      }
      assert w.transfer.files.Keys == {} && w.transfer.texts.Keys == {};
    }
    if Finished(w.transfer) {
      assert forall id :: id !in w.transfer.files.Keys && id !in w.transfer.texts.Keys;
    }
  }

  /** A mixed stream completes the transfer exactly when every id's own stream completes that id. */
  lemma CompletesIff(wasFile: set<int>, w: World, arrivals: seq<Arrival>)
    requires Sound(w) && Offered(wasFile, w.transfer) && AllTame(w, arrivals)
    ensures StreamsComplete(wasFile, w, arrivals) <==>
            Process(w, arrivals).error.None? && Finished(Process(w, arrivals).world.transfer)
  {
    RunProjects(wasFile, w, arrivals);
    hide Sound, Process, View, OwnRun, Tame, Finished;
    var end := Process(w, arrivals);
    FinishedByViews(wasFile, end.world);
    if end.error.None? {
      assert forall id: int :: OwnRun(wasFile, w, id, arrivals) == Some(View(wasFile, end.world, id));
    }
  }

  lemma EndOf(wasFile: set<int>, w: World, arrivals: seq<Arrival>)
    requires Sound(w) && Offered(wasFile, w.transfer) && AllTame(w, arrivals) && StreamsComplete(wasFile, w, arrivals)
    ensures var out := ReceiveAll(w, arrivals);
            && out.error.None? && Sound(out.world) && Finished(out.world.transfer)
            && out.world.transfer.receivedBytes == LogSize(out.world.log)
            && forall id: int :: OwnRun(wasFile, w, id, arrivals).Some?
                                 && KeptFor(id in wasFile, id, out.world.log) == OwnRun(wasFile, w, id, arrivals).value.kept
  {
    CompletesIff(wasFile, w, arrivals);
    ReceiveAllIsProcess(wasFile, w, arrivals);
    ReceiveAllSound(w, arrivals);
    RunProjects(wasFile, w, arrivals);
    NothingPendingTotal(ReceiveAll(w, arrivals).world);
    hide Sound, Process, OwnRun, Tame, ReceiveAll, KeptFor, LogSize, StreamsComplete;
    var end := Process(w, arrivals).world;
    forall id: int
      ensures OwnRun(wasFile, w, id, arrivals).Some?
      ensures KeptFor(id in wasFile, id, end.log) == OwnRun(wasFile, w, id, arrivals).value.kept
    {
      assert OwnRun(wasFile, w, id, arrivals) == Some(View(wasFile, end, id));
    }
  }

  lemma NothingPendingTotal(w: World)
    requires Sound(w) && Finished(w.transfer)
    ensures w.transfer.receivedBytes == LogSize(w.log)
  {
    assert ReceivedOf(w.transfer.files) == map[];
  }

  /** Interleaving independence. Two runs that carry, for every payload id, the same chunks in the same order --
      in whatever way the ids are interleaved -- both succeed if one id after the other would; they commit the
      same contents for every id, at the same destination for every file, and count the same bytes. */
  lemma {:induction false} InterleavingIndependence(w: World, a: seq<Arrival>, b: seq<Arrival>)
    requires Sound(w) && AllTame(w, a) && AllTame(w, b) && SameStreams(a, b)
    requires StreamsComplete(w.transfer.files.Keys, w, a)
    ensures var first, second := ReceiveAll(w, a), ReceiveAll(w, b);
            && first.error.None? && second.error.None?
            && (forall id: int :: SameKept(w.transfer.files.Keys, first.world.log, second.world.log, id))
            && first.world.transfer.receivedBytes == second.world.transfer.receivedBytes
  {
    var wasFile := w.transfer.files.Keys;
    CompleteAlike(wasFile, w, a, b);
    assert Offered(wasFile, w.transfer);
    hide Sound, ReceiveAll, Tame, KeptFor, LogSize, OwnRun;
    EndOf(wasFile, w, a);
    EndOf(wasFile, w, b);
    forall id: int
      ensures SameKept(wasFile, ReceiveAll(w, a).world.log, ReceiveAll(w, b).world.log, id)
    {
    }
    SameTotals(wasFile, ReceiveAll(w, a).world.log, ReceiveAll(w, b).world.log);
  }

  lemma CompleteAlike(wasFile: set<int>, w: World, a: seq<Arrival>, b: seq<Arrival>)
    requires AllTame(w, a) && AllTame(w, b) && SameStreams(a, b)
    ensures forall id: int :: OwnRun(wasFile, w, id, a) == OwnRun(wasFile, w, id, b)
    ensures StreamsComplete(wasFile, w, a) <==> StreamsComplete(wasFile, w, b)
  {
    forall id: int
      ensures OwnRun(wasFile, w, id, a) == OwnRun(wasFile, w, id, b)
    {
      assert For(id, Chunks(a)) == For(id, Chunks(b));
    }
    hide OwnRun;
  }

  predicate IsFileChunk(t: PayloadTransfer) {
    t.header.Some? && t.header.value.payloadType == Some(PAYLOAD_FILE)
  }

  lemma NoMoreFileChunks(c: Cell, ts: seq<PayloadTransfer>)
    requires c.file.None? && (forall i :: 0 <= i < |ts| ==> IsFileChunk(ts[i])) && RunCell(c, ts).Some?
    ensures ts == []
  {
  }

  /** What a complete stream of file chunks commits: what the part file held, and then its bodies in order. */
  lemma {:induction false} FileStreamContent(c: Cell, ts: seq<PayloadTransfer>)
    requires c.file.Some? && (forall i :: 0 <= i < |ts| ==> IsFileChunk(ts[i]))
    requires RunCell(c, ts).Some? && RunCell(c, ts).value.file.None?
    ensures var f := c.file.value;
            && RunCell(c, ts).value ==
               c.(file := None, kept := c.kept + [Kept(Some(f.finalPath), f.content + Bodies(ts), f.expectedSize)])
            && |f.content + Bodies(ts)| == f.expectedSize
    decreases |ts|
  {
    var f := c.file.value;
    var next := CellStep(c, ts[0]).value;
    var content := f.content + GetOr(ts[0].chunk.value.body, []);
    if next.file.Some? {
      FileStreamContent(next, ts[1..]);
      assert f.content + Bodies(ts) == content + Bodies(ts[1..]);
    } else {
      NoMoreFileChunks(next, ts[1..]);
      assert Bodies(ts[1..]) == [];
      assert f.content + Bodies(ts) == content;
    }
  }
}
