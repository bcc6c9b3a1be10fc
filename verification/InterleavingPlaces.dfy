/** Whatever the interleaving, every offered file ends with the same bytes at its place, unless that place is shared. */
module InterleavingPlaces {
  import opened Prelude
  import opened WireMessages
  import opened Assembler
  import opened Paths
  import opened Transfers
  import opened TransferInvariant
  import opened Interleaving
  import opened InterleavingTheorems

  // ------------------------------------------------------------------
  // Where commits go

  /** A path at which `receive_text` may put a text. */
  ghost predicate TextPlace(root: Path, path: Path) {
    exists isUrl: bool, now: nat, n: nat ::
      path in [root + [TextName(isUrl, now)], root + [Numbered(TextName(isUrl, now), n)], root + ["hirodrop-" + Decimal(n)]]
  }

  lemma TextGoesToItsPlace(disk: Disk, root: Path, isUrl: bool, now: nat, random: nat)
    ensures TextPlace(root, UniqueDestination(disk, root, TextName(isUrl, now), random))
  {
    var free := FirstFree(disk, root, TextName(isUrl, now), 1);
    var n := if free.Some? then free.value else random;
    hide TextName, Numbered, Decimal, FirstFree;
    assert UniqueDestination(disk, root, TextName(isUrl, now), random)
      in [root + [TextName(isUrl, now)], root + [Numbered(TextName(isUrl, now), n)], root + ["hirodrop-" + Decimal(n)]];
  }

  /** Some link on the disk leads to `path`. */
  ghost predicate LedTo(disk: Disk, path: Path) {
    exists l :: IsLink(disk, l) && disk[l].target == path
  }

  /** A text is shown at a place for texts and written there, or where a link leads. */
  ghost predicate TextWritten(root: Path, disk: Disk, c: Commit) {
    TextPlace(root, c.shown) && (c.path == c.shown || LedTo(disk, c.path))
  }

  /** The step commits a pending file at its destination, or writes a text. */
  ghost predicate Commits(w: World, next: World, c: Commit) {
    && next.log == w.log + [c]
    && ((c.id in w.transfer.files && c.path == w.transfer.files[c.id].finalPath
         && next.transfer.files.Keys == w.transfer.files.Keys - {c.id})
        || (c.id in w.transfer.texts && TextWritten(w.transfer.downloadDirectory, w.disk, c)
            && next.transfer.files.Keys == w.transfer.files.Keys))
  }

  ghost predicate Advances(w: World, next: World) {
    && next.transfer.downloadDirectory == w.transfer.downloadDirectory
    && (forall id :: id in next.transfer.files ==>
          id in w.transfer.files && next.transfer.files[id].finalPath == w.transfer.files[id].finalPath)
    && next.transfer.texts.Keys <= w.transfer.texts.Keys && NoNewLinks(w.disk, next.disk)
    && ((next.log == w.log && next.transfer.files.Keys == w.transfer.files.Keys) || exists c :: Commits(w, next, c))
  }

  lemma CommitAdvances(w: World, id: int, env: Env)
    requires PartsSound(w) && id in w.transfer.files && FinishChunks(w, id, env).error.None?
    ensures Advances(w, FinishChunks(w, id, env).world)
  {
    hide LogPaths, TextWritten;
    assert !IsLink(w.disk, w.transfer.files[id].partPath);
    hide PartsSound, ContentAt;
    var next := FinishChunks(w, id, env).world;
    assert Commits(w, next, next.log[|w.log|]);
  }

  lemma ChunkAdvances(w: World, t: PayloadTransfer, env: Env)
    requires Sound(w) && ReceiveFileChunk(w, t, env).error.None?
    ensures Advances(w, ReceiveFileChunk(w, t, env).world)
  {
    hide FinishChunks, Advances, Sound, PartsSound;
    var id, chunk := t.header.value.id.value, t.chunk.value;
    var mid := if chunk.body.Some? then WriteChunk(w, id, chunk.body.value, env).world else w;
    WrittenAdvances(w, id, chunk.body, env);
    if chunk.body.Some? {
      WriteChunkSound(w, id, chunk.body.value, env);
    }
    SoundParts(mid);
    hide WriteChunk;
    if LowBit(GetOr(chunk.flags, 0)) {
      CommitAdvances(mid, id, env);
      AdvancesTwice(w, mid, FinishChunks(mid, id, env).world);
    }
  }

  lemma WrittenAdvances(w: World, id: int, body: Option<bytes>, env: Env)
    requires id in w.transfer.files
    ensures var mid := if body.Some? then WriteChunk(w, id, body.value, env).world else w;
            && Advances(w, mid) && mid.log == w.log && mid.transfer.files.Keys == w.transfer.files.Keys
            && mid.transfer.texts == w.transfer.texts && mid.transfer.files[id].finalPath == w.transfer.files[id].finalPath
  {
  }

  lemma AdvancesTwice(w: World, mid: World, next: World)
    requires Advances(w, mid) && Advances(mid, next) && mid.log == w.log && mid.transfer.files.Keys == w.transfer.files.Keys
    requires mid.transfer.texts == w.transfer.texts
    ensures Advances(w, next)
  {
    hide TextPlace;
    if c :| Commits(mid, next, c) {
      assert LedTo(mid.disk, c.path) ==> LedTo(w.disk, c.path);
      assert Commits(w, next, c);
    }
  }

  lemma FileBytesAdvance(w: World, id: int, content: bytes, env: Env)
    requires PartsSound(w) && id in w.transfer.files && ReceiveFileBytes(w, id, content, env).error.None?
    ensures Advances(w, ReceiveFileBytes(w, id, content, env).world)
  {
    hide TextWritten, PartsSound, ContentAt;
    var next := ReceiveFileBytes(w, id, content, env).world;
    assert Commits(w, next, next.log[|w.log|]);
  }

  lemma TextAdvances(w: World, id: int, content: bytes, env: Env)
    requires id in w.transfer.texts && ReceiveText(w, id, content, env).error.None?
    ensures Advances(w, ReceiveText(w, id, content, env).world)
  {
    hide UniqueDestination, TextPlace, TextName, WriteTarget, IsLink;
    var path := TextPath(w, w.transfer.texts[id].isUrl, env);
    TextGoesToItsPlace(w.disk, w.transfer.downloadDirectory, w.transfer.texts[id].isUrl, env.now, env.fallback);
    WrittenWhereLed(w.disk, path);
    var next := ReceiveText(w, id, content, env).world;
    assert next.log == w.log + [Commit(id, WriteTarget(w.disk, path).value, content, w.transfer.texts[id].expectedSize, path)];
    NoLinkMade(w.disk, WriteTarget(w.disk, path).value, content);
    assert Commits(w, next, next.log[|w.log|]);
  }

  lemma NoLinkMade(disk: Disk, p: Path, content: bytes)
    ensures NoNewLinks(disk, disk[p := Regular(content)])
  {
  }

  lemma WrittenWhereLed(disk: Disk, path: Path)
    ensures var target := WriteTarget(disk, path);
            target.Some? ==> target.value == path || LedTo(disk, target.value)
  {
    EndIsSelfOrTarget(disk, path, MAX_LINKS);
  }

  lemma HandleAdvances(w: World, frame: OfflineFrame, env: Env)
    requires Sound(w) && Handle(w, frame, env).error.None?
    ensures Advances(w, Handle(w, frame, env).world)
  {
    hide Advances, PartsSound, ReceiveFileChunk, PushChunk, ReceiveBytes, Sound;
    SoundParts(w);
    var next := Handle(w, frame, env).world;
    if IsPayload(frame) {
      var t := frame.v1.value.payloadTransfer.value;
      if t.header.value.payloadType == Some(PAYLOAD_FILE) {
        ChunkAdvances(w, t, env);
      } else {
        var pushed := PushChunk(true, w.buffers, t);
        var mid := w.(buffers := pushed.buffers);
        BuffersIrrelevant(w, pushed.buffers);
        SoundParts(mid);
        if pushed.result.value.Some? {
          BytesAdvance(mid, pushed.result.value.value.0, pushed.result.value.value.1, env);
        }
        BuffersDoNotCommit(w, mid, next);
      }
    } else {
      BuffersDoNotCommit(w, w, next);
    }
  }

  lemma BytesAdvance(w: World, id: int, content: bytes, env: Env)
    requires PartsSound(w) && ReceiveBytes(w, id, content, env).error.None?
    ensures Advances(w, ReceiveBytes(w, id, content, env).world)
  {
    hide Commits, PartsSound, ReceiveFileBytes, ReceiveText;
    if id in w.transfer.files {
      FileBytesAdvance(w, id, content, env);
    } else if id in w.transfer.texts {
      TextAdvances(w, id, content, env);
    }
  }

  lemma BuffersDoNotCommit(w: World, mid: World, next: World)
    requires mid == w.(buffers := mid.buffers) && (Advances(mid, next) || next == mid)
    ensures Advances(w, next)
  {
    hide TextWritten;
    if c :| Commits(mid, next, c) {
      assert Commits(w, next, c);
    }
  }

  // ------------------------------------------------------------------
  // Over a run

  /** A commit of a file offered in `w` is at that file's destination, any other is a text. */
  ghost predicate Placed(w: World, c: Commit) {
    if c.id in w.transfer.files then c.path == w.transfer.files[c.id].finalPath
    else w.transfer.texts != map[] && TextWritten(w.transfer.downloadDirectory, w.disk, c)
  }

  ghost predicate CommittedSince(w: World, now: World, id: int) {
    exists k :: |w.log| <= k < |now.log| && now.log[k].id == id
  }

  ghost predicate Reached(w: World, now: World) {
    && w.log <= now.log && now.transfer.downloadDirectory == w.transfer.downloadDirectory
    && NoNewLinks(w.disk, now.disk)
    && (forall id :: id in now.transfer.files ==>
          id in w.transfer.files && now.transfer.files[id].finalPath == w.transfer.files[id].finalPath)
    && now.transfer.texts.Keys <= w.transfer.texts.Keys
    && (forall k :: |w.log| <= k < |now.log| ==> Placed(w, now.log[k]))
    && (forall id :: id in w.transfer.files && id !in now.transfer.files ==> CommittedSince(w, now, id))
  }

  lemma ReachedStep(w: World, now: World, next: World)
    requires w.transfer.files.Keys !! w.transfer.texts.Keys && Reached(w, now) && Advances(now, next)
    ensures Reached(w, next)
  {
    hide TextPlace;
    if c :| Commits(now, next, c) {
      assert next.log[|now.log|] == c;
      assert LedTo(now.disk, c.path) ==> LedTo(w.disk, c.path);
      assert Placed(w, c);
      assert forall k :: 0 <= k < |now.log| ==> next.log[k] == now.log[k];
      forall id | id in w.transfer.files && id !in next.transfer.files
        ensures CommittedSince(w, next, id)
      {
        if id in now.transfer.files {
          assert next.log[|now.log|].id == id;
        } else {
          var k :| |w.log| <= k < |now.log| && now.log[k].id == id;
          assert next.log[k].id == id;
        }
      }
    } else {
      assert next.log == now.log;
      forall id | id in w.transfer.files && id !in next.transfer.files
        ensures CommittedSince(w, next, id)
      {
        assert CommittedSince(w, now, id);
      }
    }
  }

  lemma {:induction false} RunReaches(w: World, now: World, arrivals: seq<Arrival>)
    requires w.transfer.files.Keys !! w.transfer.texts.Keys && Reached(w, now)
    requires Sound(now) && ReceiveAll(now, arrivals).error.None?
    ensures Reached(w, ReceiveAll(now, arrivals).world)
    decreases |arrivals|
  {
    hide Reached, Handle, Advances, Sound;
    if !Finished(now.transfer) {
      var next := Handle(now, arrivals[0].frame, arrivals[0].env).world;
      HandleSound(now, arrivals[0].frame, arrivals[0].env);
      HandleAdvances(now, arrivals[0].frame, arrivals[0].env);
      ReachedStep(w, now, next);
      RunReaches(w, next, arrivals[1..]);
    }
  }

  lemma ReachedAtStart(w: World)
    ensures Reached(w, w)
  {
  }

  /** Nothing else that is pending can be put at the destination of file `id`. */
  ghost predicate PlaceOfItsOwn(w: World, id: int)
    requires id in w.transfer.files
  {
    var t, path := w.transfer, w.transfer.files[id].finalPath;
    && (forall j :: j in t.files && j != id ==> t.files[j].finalPath != path)
    && (t.texts != map[] ==> !TextPlace(t.downloadDirectory, path) && !LedTo(w.disk, path))
  }

  /** From number `n` on, the commits of `id` are those at `path`. */
  ghost predicate OnlyItsOwn(log: seq<Commit>, n: nat, id: int, path: Path) {
    forall k :: n <= k < |log| ==> (log[k].id == id <==> log[k].path == path)
  }

  /** What was last committed at the path is what was last committed of the id. */
  lemma {:induction false} LastIsItsOwn(log: seq<Commit>, n: nat, k: nat, id: int, path: Path)
    requires n <= k < |log| && log[k].id == id && OnlyItsOwn(log, n, id, path)
    ensures var kept := KeptFor(true, id, log);
            kept != [] && LastAt(log, path) == Some(kept[|kept| - 1].content)
    decreases |log|
  {
    var front, last := log[..|log| - 1], log[|log| - 1];
    if last.id != id {
      LastIsItsOwn(front, n, k, id, path);
    }
  }

  lemma PlacedIsOwn(w: World, c: Commit, id: int)
    requires Placed(w, c) && id in w.transfer.files && PlaceOfItsOwn(w, id)
    ensures c.id == id <==> c.path == w.transfer.files[id].finalPath
  {
    hide TextPlace, LedTo;
  }

  lemma ReachedItsPlace(w: World, end: World, id: int) returns (k: nat)
    requires Reached(w, end) && id in w.transfer.files && id !in end.transfer.files && PlaceOfItsOwn(w, id)
    ensures |w.log| <= k < |end.log| && end.log[k].id == id
    ensures OnlyItsOwn(end.log, |w.log|, id, w.transfer.files[id].finalPath)
  {
    hide Placed, PlaceOfItsOwn;
    assert CommittedSince(w, end, id);
    k :| |w.log| <= k < |end.log| && end.log[k].id == id;
    forall j | |w.log| <= j < |end.log|
      ensures end.log[j].id == id <==> end.log[j].path == w.transfer.files[id].finalPath
    {
      PlacedIsOwn(w, end.log[j], id);
    }
  }

  lemma HeldOnDisk(w: World, k: nat)
    requires LogSound(w) && k < |w.log|
    ensures w.log[k].path in w.disk && LastAt(w.log, w.log[k].path).Some?
    ensures w.disk[w.log[k].path] == Regular(LastAt(w.log, w.log[k].path).value)
  {
  }

  lemma EndsAtItsPlace(w: World, id: int, arrivals: seq<Arrival>)
    requires w.transfer.files.Keys !! w.transfer.texts.Keys && id in w.transfer.files && PlaceOfItsOwn(w, id)
    requires Sound(w) && ReceiveAll(w, arrivals).error.None? && LogSound(ReceiveAll(w, arrivals).world)
    ensures var end := ReceiveAll(w, arrivals).world;
            var path, kept := w.transfer.files[id].finalPath, KeptFor(true, id, end.log);
            kept != [] && path in end.disk && end.disk[path] == Regular(kept[|kept| - 1].content)
  {
    ReachedAtStart(w);
    RunReaches(w, w, arrivals);
    FinishedAtEnd(w, arrivals);
    hide ReceiveAll, PlaceOfItsOwn, Reached, LogSound, KeptFor, LastAt;
    var end := ReceiveAll(w, arrivals).world;
    var k := ReachedItsPlace(w, end, id);
    LastIsItsOwn(end.log, |w.log|, k, id, w.transfer.files[id].finalPath);
    HeldOnDisk(end, k);
  }

  lemma {:induction false} FinishedAtEnd(w: World, arrivals: seq<Arrival>)
    requires ReceiveAll(w, arrivals).error.None?
    ensures ReceiveAll(w, arrivals).world.transfer.files.Keys == {}
    decreases |arrivals|
  {
    hide Handle;
    if !Finished(w.transfer) {
      FinishedAtEnd(Handle(w, arrivals[0].frame, arrivals[0].env).world, arrivals[1..]);
    }
  }

  /** Two runs with the same stream for every payload id, however interleaved, leave an offered file with the same
      bytes at its place. It is asked of the table `prepare` has built that no other file is to go there, and, if
      texts are offered, that it is no place where a text may be put and that no link on the disk leads there. */
  lemma SameFilesOnDisk(w: World, a: seq<Arrival>, b: seq<Arrival>, id: int)
    requires Sound(w) && AllTame(w, a) && AllTame(w, b) && SameStreams(a, b)
    requires StreamsComplete(w.transfer.files.Keys, w, a)
    requires id in w.transfer.files && PlaceOfItsOwn(w, id)
    ensures var first, second := ReceiveAll(w, a).world.disk, ReceiveAll(w, b).world.disk;
            var path := w.transfer.files[id].finalPath;
            path in first && first[path].Regular? && path in second && second[path] == first[path]
  {
    hide Sound, ReceiveAll, OwnRun, PlaceOfItsOwn, Tame, SameStreams, StreamsComplete, IsPayload, HeaderId;
    var wasFile := w.transfer.files.Keys;
    CompleteAlike(wasFile, w, a, b);
    HeldByOwnRun(w, a, id);
    HeldByOwnRun(w, b, id);
    assert OwnRun(wasFile, w, id, a) == OwnRun(wasFile, w, id, b);
  }

  /** The end of a run at the place of one file, told by the stream of that file alone. */
  lemma HeldByOwnRun(w: World, arrivals: seq<Arrival>, id: int)
    requires Sound(w) && AllTame(w, arrivals) && StreamsComplete(w.transfer.files.Keys, w, arrivals)
    requires id in w.transfer.files && PlaceOfItsOwn(w, id)
    ensures var end, own := ReceiveAll(w, arrivals).world, OwnRun(w.transfer.files.Keys, w, id, arrivals);
            var path := w.transfer.files[id].finalPath;
            && own.Some? && own.value.kept != []
            && path in end.disk && end.disk[path] == Regular(own.value.kept[|own.value.kept| - 1].content)
  {
    var wasFile := w.transfer.files.Keys;
    SoundApart(w);
    assert Offered(wasFile, w.transfer);
    hide Sound, AllTame, StreamsComplete, ReceiveAll, KeptFor, OwnRun, LogSize, PlaceOfItsOwn, LogSound;
    EndOf(wasFile, w, arrivals);
    SoundApart(ReceiveAll(w, arrivals).world);
    EndsAtItsPlace(w, id, arrivals);
  }

  lemma SoundApart(w: World)
    requires Sound(w)
    ensures w.transfer.files.Keys !! w.transfer.texts.Keys && LogSound(w)
  {
  }
}
