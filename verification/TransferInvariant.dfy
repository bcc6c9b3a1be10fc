/** What every step of a transfer keeps: the byte accounts, the part files, the committed files. */
module TransferInvariant {
  import opened Prelude
  import opened WireMessages
  import opened Assembler
  import opened Paths
  import opened Transfers

  function ReceivedOf(files: map<int, PendingFile>): map<int, nat> {
    map id | id in files :: files[id].received
  }

  function DeclaredOf(files: map<int, PendingFile>): map<int, nat> {
    map id | id in files :: files[id].expectedSize
  }

  function DeclaredTexts(texts: map<int, PendingText>): map<int, nat> {
    map id | id in texts :: texts[id].expectedSize
  }

  function LogSize(log: seq<Commit>): nat {
    if log == [] then 0 else LogSize(log[..|log| - 1]) + |log[|log| - 1].content|
  }

  function LogDeclared(log: seq<Commit>): nat {
    if log == [] then 0 else LogDeclared(log[..|log| - 1]) + log[|log| - 1].declared
  }

  /** The content last committed at `path`. */
  function LastAt(log: seq<Commit>, path: Path): Option<bytes> {
    if log == [] then None
    else if log[|log| - 1].path == path then Some(log[|log| - 1].content)
    else LastAt(log[..|log| - 1], path)
  }

  /** The paths handed over. */
  function LogPaths(log: seq<Commit>): (r: seq<Path>)
    ensures |r| == |log| && forall i :: 0 <= i < |r| ==> r[i] == log[i].shown
  {
    seq(|log|, i requires 0 <= i < |log| => log[i].shown)
  }

  lemma LogPush(log: seq<Commit>, c: Commit)
    ensures LogSize(log + [c]) == LogSize(log) + |c.content|
    ensures LogDeclared(log + [c]) == LogDeclared(log) + c.declared
    ensures forall path :: LastAt(log + [c], path) == if c.path == path then Some(c.content) else LastAt(log, path)
    ensures LogPaths(log + [c]) == LogPaths(log) + [c.shown]
  {
    assert (log + [c])[..|log|] == log;
  }

  predicate PartShape(root: Path, path: Path) {
    |path| == |root| + 1 && root < path && |path[|root|]| > 0 && path[|root|][0] == '.'
  }

  ghost predicate PartsSound(w: World) {
    var files := w.transfer.files;
    && (forall id :: id in files ==>
          && files[id].received <= files[id].expectedSize <= MAX_I64
          && files[id].partPath in w.disk && w.disk[files[id].partPath].Regular?
          && |w.disk[files[id].partPath].content| == files[id].received
          && PartShape(w.transfer.downloadDirectory, files[id].partPath))
    && (forall i, j :: i in files && j in files && i != j ==> files[i].partPath != files[j].partPath)
    && (forall i, j :: i in files && j in files ==> files[i].finalPath != files[j].partPath)
    && (forall p, i :: IsLink(w.disk, p) && i in files ==> w.disk[p].target != files[i].partPath)
    && (forall i, k :: i in files && 0 <= k < |w.log| ==> files[i].partPath != w.log[k].path)
  }

  ghost predicate LogSound(w: World) {
    && w.transfer.completed == LogPaths(w.log)
    && (forall k :: 0 <= k < |w.log| ==>
          && |w.log[k].content| <= 2 * w.log[k].declared
          && w.log[k].path in w.disk && LastAt(w.log, w.log[k].path).Some?
          && w.disk[w.log[k].path] == Regular(LastAt(w.log, w.log[k].path).value))
  }

  ghost predicate Accounts(w: World) {
    && w.transfer.receivedBytes == Sum(ReceivedOf(w.transfer.files)) + LogSize(w.log)
    && w.transfer.totalBytes ==
       Sum(DeclaredOf(w.transfer.files)) + Sum(DeclaredTexts(w.transfer.texts)) + LogDeclared(w.log)
    && w.transfer.totalBytes <= MAX_TOTAL_TRANSFER_BYTES
  }

  ghost predicate Sound(w: World) {
    && w.transfer.files.Keys !! w.transfer.texts.Keys
    && PartsSound(w) && LogSound(w) && Accounts(w)
  }

  /** No file took FILE bytes and then a whole BYTES payload: every commit has its declared size. */
  predicate SizesAsDeclared(log: seq<Commit>) {
    forall k :: 0 <= k < |log| ==> |log[k].content| == log[k].declared
  }

  // ------------------------------------------------------------------
  // Sums

  lemma {:induction false} SumBelow(small: map<int, nat>, large: map<int, nat>)
    requires small.Keys == large.Keys
    requires forall k :: k in small ==> small[k] <= large[k]
    ensures Sum(small) <= Sum(large)
    decreases |small|
  {
    if k :| k in small {
      SumRemove(small, k);
      SumRemove(large, k);
      SumBelow(small - {k}, large - {k});
    }
  }

  lemma {:induction false} LogBounds(log: seq<Commit>)
    requires forall k :: 0 <= k < |log| ==> |log[k].content| <= 2 * log[k].declared
    ensures LogSize(log) <= 2 * LogDeclared(log)
    ensures SizesAsDeclared(log) ==> LogSize(log) == LogDeclared(log)
  {
    if log != [] {
      LogBounds(log[..|log| - 1]);
    }
  }

  /** The total never passes what was offered -- unless a file was sent in both ways, and even then never
      twice that, so the saturating additions never saturate. */
  lemma ReceivedWithinTotal(w: World)
    requires Sound(w)
    ensures w.transfer.receivedBytes <= 2 * w.transfer.totalBytes
    ensures w.transfer.receivedBytes + w.transfer.totalBytes < MAX_U64
    ensures SizesAsDeclared(w.log) ==> w.transfer.receivedBytes <= w.transfer.totalBytes
    ensures SizesAsDeclared(w.log) && Finished(w.transfer) ==> w.transfer.receivedBytes == w.transfer.totalBytes
  {
    SumBelow(ReceivedOf(w.transfer.files), DeclaredOf(w.transfer.files));
    LogBounds(w.log);
    if Finished(w.transfer) {
      assert ReceivedOf(w.transfer.files) == map[] && DeclaredOf(w.transfer.files) == map[];
      assert DeclaredTexts(w.transfer.texts) == map[];
    }
  }

  lemma OneFitsTotal(w: World, id: int)
    requires Sound(w)
    ensures id in w.transfer.files ==> w.transfer.files[id].expectedSize <= w.transfer.totalBytes
    ensures id in w.transfer.texts ==> w.transfer.texts[id].expectedSize <= w.transfer.totalBytes
  {
    if id in w.transfer.files {
      SumRemove(DeclaredOf(w.transfer.files), id);
    }
    if id in w.transfer.texts {
      SumRemove(DeclaredTexts(w.transfer.texts), id);
    }
  }

  // ------------------------------------------------------------------
  // Steps

  /** The world after `body` is written to the part file of `id`. */
  function WriteWith(w: World, id: int, body: bytes): World
    requires id in w.transfer.files
  {
    var p := w.transfer.files[id];
    var transfer := w.transfer.(
      files := w.transfer.files[id := p.(received := p.received + |body|)],
      receivedBytes := SaturatingAdd(w.transfer.receivedBytes, |body|));
    w.(transfer := transfer, disk := AppendTo(w.disk, p.partPath, body))
  }

  lemma WriteKeepsAccounts(w: World, id: int, body: bytes)
    requires Sound(w) && id in w.transfer.files
    requires w.transfer.files[id].received + |body| <= w.transfer.files[id].expectedSize
    ensures Accounts(WriteWith(w, id, body))
  {
    hide PartsSound, LogSound, Sum, LogSize, LogDeclared;
    var files := w.transfer.files;
    var next := WriteWith(w, id, body);
    ReceivedWithinTotal(w);
    OneFitsTotal(w, id);
    SumUpdate(ReceivedOf(files), id, files[id].received + |body|);
    assert ReceivedOf(next.transfer.files) == ReceivedOf(files)[id := files[id].received + |body|];
    assert DeclaredOf(next.transfer.files) == DeclaredOf(files);
  }

  lemma WriteKeepsParts(w: World, id: int, body: bytes)
    requires Sound(w) && id in w.transfer.files
    requires w.transfer.files[id].received + |body| <= w.transfer.files[id].expectedSize
    ensures PartsSound(WriteWith(w, id, body))
  {
    hide Accounts, LogSound;
  }

  lemma WriteKeepsLog(w: World, id: int, body: bytes)
    requires Sound(w) && id in w.transfer.files
    ensures LogSound(WriteWith(w, id, body))
  {
    hide Accounts;
  }

  lemma WriteChunkSound(w: World, id: int, body: bytes, env: Env)
    requires Sound(w) && id in w.transfer.files
    requires w.transfer.files[id].received + |body| <= w.transfer.files[id].expectedSize
    requires WriteChunk(w, id, body, env).error.None?
    ensures Sound(WriteChunk(w, id, body, env).world)
  {
    assert WriteChunk(w, id, body, env).world == WriteWith(w, id, body);
    WriteKeepsAccounts(w, id, body);
    WriteKeepsParts(w, id, body);
    WriteKeepsLog(w, id, body);
    hide Accounts, PartsSound, LogSound;
  }

  /** The world after file `id` is committed with `extra` appended to its part file. */
  function CommitWith(w: World, id: int, extra: bytes): World
    requires id in w.transfer.files
  {
    var p := w.transfer.files[id];
    var content := ContentAt(w.disk, p.partPath) + extra;
    var transfer := w.transfer.(
      files := w.transfer.files - {id},
      completed := w.transfer.completed + [p.finalPath],
      receivedBytes := SaturatingAdd(w.transfer.receivedBytes, |extra|));
    w.(
      transfer := transfer,
      disk := (w.disk - {p.partPath})[p.finalPath := Regular(content)],
      log := w.log + [Commit(id, p.finalPath, content, p.expectedSize)])
  }

  /** Both ways of finishing a file amount to it. */
  lemma FinishChunksIsCommit(w: World, id: int, env: Env)
    requires Sound(w) && id in w.transfer.files
    requires FinishChunks(w, id, env).error.None?
    ensures FinishChunks(w, id, env).world == CommitWith(w, id, [])
    ensures w.transfer.files[id].received == w.transfer.files[id].expectedSize
  {
    var p := w.transfer.files[id];
    ReceivedWithinTotal(w);
    assert ContentAt(w.disk, p.partPath) + [] == ContentAt(w.disk, p.partPath);
    assert w.disk[p.partPath] == Regular(ContentAt(w.disk, p.partPath));
  }

  lemma FileBytesIsCommit(w: World, id: int, content: bytes, env: Env)
    requires Sound(w) && id in w.transfer.files
    requires ReceiveFileBytes(w, id, content, env).error.None?
    ensures ReceiveFileBytes(w, id, content, env).world == CommitWith(w, id, content)
    ensures |content| == w.transfer.files[id].expectedSize
  {
    var p := w.transfer.files[id];
    assert AppendTo(w.disk, p.partPath, content) - {p.partPath} == w.disk - {p.partPath};
  }

  lemma PartLength(w: World, id: int)
    requires PartsSound(w) && id in w.transfer.files
    ensures |ContentAt(w.disk, w.transfer.files[id].partPath)| == w.transfer.files[id].received
    ensures w.transfer.files[id].received <= w.transfer.files[id].expectedSize
  {
  }

  lemma CommitKeepsAccounts(w: World, id: int, extra: bytes)
    requires Sound(w) && id in w.transfer.files
    requires |extra| <= w.transfer.files[id].expectedSize
    ensures Accounts(CommitWith(w, id, extra))
  {
    hide PartsSound, LogSound, Sum, LogSize, LogDeclared, LastAt;
    var p := w.transfer.files[id];
    var next := CommitWith(w, id, extra);
    PartLength(w, id);
    ReceivedWithinTotal(w);
    OneFitsTotal(w, id);
    LogPush(w.log, Commit(id, p.finalPath, ContentAt(w.disk, p.partPath) + extra, p.expectedSize));
    SumRemove(ReceivedOf(w.transfer.files), id);
    SumRemove(DeclaredOf(w.transfer.files), id);
    assert ReceivedOf(next.transfer.files) == ReceivedOf(w.transfer.files) - {id};
    assert DeclaredOf(next.transfer.files) == DeclaredOf(w.transfer.files) - {id};
  }

  /** A committed path other than `id`'s destination is not touched when `id` is committed. */
  lemma OlderCommitStands(w: World, id: int, extra: bytes, k: nat)
    requires Sound(w) && id in w.transfer.files && k < |w.log| && w.log[k].path != w.transfer.files[id].finalPath
    ensures var next, path := CommitWith(w, id, extra), w.log[k].path;
            path in next.disk && LastAt(w.log, path).Some? && next.disk[path] == Regular(LastAt(w.log, path).value)
  {
    hide Accounts, LastAt;
  }

  lemma CommitSizeBound(w: World, id: int, extra: bytes)
    requires Sound(w) && id in w.transfer.files
    requires extra == [] || |extra| == w.transfer.files[id].expectedSize
    ensures |ContentAt(w.disk, w.transfer.files[id].partPath) + extra| <= 2 * w.transfer.files[id].expectedSize
  {
    PartLength(w, id);
  }

  lemma CommitKeepsLog(w: World, id: int, extra: bytes)
    requires Sound(w) && id in w.transfer.files
    requires extra == [] || |extra| == w.transfer.files[id].expectedSize
    ensures LogSound(CommitWith(w, id, extra))
  {
    var p, next := w.transfer.files[id], CommitWith(w, id, extra);
    LogPush(w.log, Commit(id, p.finalPath, ContentAt(w.disk, p.partPath) + extra, p.expectedSize));
    CommitSizeBound(w, id, extra);
    hide Accounts, PartsSound, LogSize, LogDeclared, LastAt;
    forall k | 0 <= k < |next.log|
      ensures next.log[k].path in next.disk && LastAt(next.log, next.log[k].path).Some?
      ensures next.disk[next.log[k].path] == Regular(LastAt(next.log, next.log[k].path).value)
    {
      if next.log[k].path != p.finalPath {
        OlderCommitStands(w, id, extra, k);
      }
    }
  }

  lemma CommitSound(w: World, id: int, extra: bytes)
    requires Sound(w) && id in w.transfer.files
    requires extra == [] || |extra| == w.transfer.files[id].expectedSize
    ensures Sound(CommitWith(w, id, extra))
  {
    CommitKeepsAccounts(w, id, extra);
    CommitKeepsLog(w, id, extra);
    CommitKeepsParts(w, id, extra);
    hide Accounts, PartsSound, LogSound;
  }

  lemma CommitKeepsParts(w: World, id: int, extra: bytes)
    requires Sound(w) && id in w.transfer.files
    ensures PartsSound(CommitWith(w, id, extra))
  {
    hide Accounts, LogSound;
    var next := CommitWith(w, id, extra);
    assert forall k :: 0 <= k < |next.log| ==>
             next.log[k].path == w.transfer.files[id].finalPath || (k < |w.log| && next.log[k] == w.log[k]);
  }

  /** Where a text is to be shown: the name `unique_destination` picks for it. */
  function TextPath(w: World, isUrl: bool, env: Env): Path {
    UniqueDestination(w.disk, w.transfer.downloadDirectory, TextName(isUrl, env.now), env.fallback)
  }

  /** No text is written over a part file, through whatever links. */
  lemma TextPathApart(w: World, isUrl: bool, env: Env)
    requires Sound(w)
    ensures TextPath(w, isUrl, env) !in PartPaths(w.transfer.files)
    ensures var target := WriteTarget(w.disk, TextPath(w, isUrl, env));
            target.Some? ==> target.value !in PartPaths(w.transfer.files)
  {
    TextNameIsComponent(isUrl, env.now);
    DestinationShape(w.disk, w.transfer.downloadDirectory, TextName(isUrl, env.now), env.fallback);
    EndIsSelfOrTarget(w.disk, TextPath(w, isUrl, env), MAX_LINKS);
    hide UniqueDestination, Follow, Accounts, LogSound;
  }

  lemma TextNameIsComponent(isUrl: bool, now: nat)
    ensures IsComponent(TextName(isUrl, now)) && TextName(isUrl, now)[0] == 'Q'
  {
    var name, digits := TextName(isUrl, now), Decimal(now);
    assert name == "Quick Share " + digits + if isUrl then ".url.txt" else ".txt";
    assert name[0] == 'Q' && !IsWhitespace('Q');
    assert forall i :: 0 <= i < |digits| ==> !IsForbidden(digits[i]);
  }

  /** The world after the text `id` is shown at `path` and written to `target`. */
  function TextAt(w: World, id: int, content: bytes, path: Path, target: Path): World
    requires id in w.transfer.texts
  {
    var transfer := w.transfer.(
      texts := w.transfer.texts - {id},
      completed := w.transfer.completed + [path],
      receivedBytes := SaturatingAdd(w.transfer.receivedBytes, |content|));
    w.(
      transfer := transfer,
      disk := w.disk[target := Regular(content)],
      log := w.log + [Commit(id, target, content, w.transfer.texts[id].expectedSize, path)])
  }

  lemma TextKeepsAccounts(w: World, id: int, content: bytes, path: Path, target: Path)
    requires Sound(w) && id in w.transfer.texts && |content| == w.transfer.texts[id].expectedSize
    ensures Accounts(TextAt(w, id, content, path, target))
  {
    ReceivedWithinTotal(w);
    OneFitsTotal(w, id);
    LogPush(w.log, Commit(id, target, content, w.transfer.texts[id].expectedSize, path));
    SumRemove(DeclaredTexts(w.transfer.texts), id);
    hide Sum, LogSize, LogDeclared, LastAt;
    assert DeclaredTexts(w.transfer.texts - {id}) == DeclaredTexts(w.transfer.texts) - {id};
  }

  lemma TextSound(w: World, id: int, content: bytes, path: Path, target: Path)
    requires Sound(w) && id in w.transfer.texts && |content| == w.transfer.texts[id].expectedSize
    requires target !in PartPaths(w.transfer.files)
    ensures Sound(TextAt(w, id, content, path, target))
  {
    TextKeepsAccounts(w, id, content, path, target);
    TextKeepsParts(w, id, content, path, target);
    TextKeepsLog(w, id, content, path, target);
    hide Accounts, PartsSound, LogSound;
  }

  lemma TextKeepsParts(w: World, id: int, content: bytes, path: Path, target: Path)
    requires Sound(w) && id in w.transfer.texts && target !in PartPaths(w.transfer.files)
    ensures PartsSound(TextAt(w, id, content, path, target))
  {
    hide Accounts, LogSound;
    var next := TextAt(w, id, content, path, target);
    assert forall i :: i in w.transfer.files ==> w.transfer.files[i].partPath in PartPaths(w.transfer.files);
    assert forall k :: 0 <= k < |next.log| ==> next.log[k].path == target || (k < |w.log| && next.log[k] == w.log[k]);
  }

  lemma TextKeepsLog(w: World, id: int, content: bytes, path: Path, target: Path)
    requires Sound(w) && id in w.transfer.texts && |content| == w.transfer.texts[id].expectedSize
    ensures LogSound(TextAt(w, id, content, path, target))
  {
    var next := TextAt(w, id, content, path, target);
    LogPush(w.log, Commit(id, target, content, w.transfer.texts[id].expectedSize, path));
    hide Accounts, PartsSound, LastAt, LogSize, LogDeclared;
    forall k | 0 <= k < |next.log|
      ensures next.log[k].path in next.disk && LastAt(next.log, next.log[k].path).Some?
      ensures next.disk[next.log[k].path] == Regular(LastAt(next.log, next.log[k].path).value)
    {
      if next.log[k].path != target {
        assert next.log[k] == w.log[k];
      }
    }
  }

  lemma ReceiveTextSound(w: World, id: int, content: bytes, env: Env)
    requires Sound(w) && id in w.transfer.texts
    requires ReceiveText(w, id, content, env).error.None?
    ensures Sound(ReceiveText(w, id, content, env).world)
    ensures SizesAsDeclared(w.log) ==> SizesAsDeclared(ReceiveText(w, id, content, env).world.log)
  {
    var isUrl := w.transfer.texts[id].isUrl;
    var path := TextPath(w, isUrl, env);
    var target := WriteTarget(w.disk, path).value;
    TextPathApart(w, isUrl, env);
    TextSound(w, id, content, path, target);
    hide Sound, UniqueDestination, PartPaths, WriteTarget;
    assert ReceiveText(w, id, content, env).world == TextAt(w, id, content, path, target);
  }

  /** The frame completes, as one BYTES payload, a file that already holds FILE bytes. */
  predicate Mixes(w: World, frame: OfflineFrame) {
    && IsPayload(frame) && frame.v1.value.payloadTransfer.Some?
    && var t := frame.v1.value.payloadTransfer.value;
    && t.header.Some? && t.header.value.payloadType == Some(PAYLOAD_BYTES)
    && var pushed := PushChunk(true, w.buffers, t).result;
    && pushed.Ok? && pushed.value.Some?
    && var id := pushed.value.value.0;
    && id in w.transfer.files && w.transfer.files[id].received > 0
  }

  lemma FileChunkSound(w: World, t: PayloadTransfer, env: Env)
    requires Sound(w) && ReceiveFileChunk(w, t, env).error.None?
    ensures Sound(ReceiveFileChunk(w, t, env).world)
    ensures SizesAsDeclared(w.log) ==> SizesAsDeclared(ReceiveFileChunk(w, t, env).world.log)
  {
    var id, chunk := t.header.value.id.value, t.chunk.value;
    var mid := if chunk.body.Some? then WriteChunk(w, id, chunk.body.value, env).world else w;
    if chunk.body.Some? {
      WriteChunkSound(w, id, chunk.body.value, env);
    }
    assert mid.log == w.log && id in mid.transfer.files;
    if LowBit(GetOr(chunk.flags, 0)) {
      FinishChunksIsCommit(mid, id, env);
      CommitSound(mid, id, []);
      CommitSize(mid, id);
    }
    hide Sound, WriteChunk, FinishChunks, CommitWith;
  }

  lemma CommitSize(w: World, id: int)
    requires Sound(w) && id in w.transfer.files
    requires w.transfer.files[id].received == w.transfer.files[id].expectedSize
    ensures SizesAsDeclared(w.log) ==> SizesAsDeclared(CommitWith(w, id, []).log)
  {
  }

  lemma WholeFileSize(w: World, id: int, content: bytes)
    requires Sound(w) && id in w.transfer.files && |content| == w.transfer.files[id].expectedSize
    ensures SizesAsDeclared(w.log) ==>
            (SizesAsDeclared(CommitWith(w, id, content).log) <==> w.transfer.files[id].received == 0)
  {
    var log := CommitWith(w, id, content).log;
    assert log[|w.log|].declared == |content| && |log[|w.log|].content| == w.transfer.files[id].received + |content|;
  }

  lemma ReceiveBytesSound(w: World, id: int, content: bytes, env: Env)
    requires Sound(w) && ReceiveBytes(w, id, content, env).error.None?
    ensures Sound(ReceiveBytes(w, id, content, env).world)
    ensures SizesAsDeclared(w.log) ==>
            (SizesAsDeclared(ReceiveBytes(w, id, content, env).world.log)
             <==> !(id in w.transfer.files && w.transfer.files[id].received > 0))
  {
    hide Sound, CommitWith, ReceiveFileBytes, ReceiveText;
    if id in w.transfer.files {
      FileBytesIsCommit(w, id, content, env);
      CommitSound(w, id, content);
      WholeFileSize(w, id, content);
    } else if id in w.transfer.texts {
      ReceiveTextSound(w, id, content, env);
    } else {
      PreviewsIrrelevant(w, w.transfer.previews - {id});
    }
  }

  lemma PreviewsIrrelevant(w: World, previews: set<int>)
    ensures Sound(w.(transfer := w.transfer.(previews := previews))) <==> Sound(w)
  {
    var w' := w.(transfer := w.transfer.(previews := previews));
    assert PartsSound(w') <==> PartsSound(w);
    assert LogSound(w') <==> LogSound(w);
  }

  /** Conservation: no step that succeeds breaks the accounts, the part files or the committed files. Sizes
      stay as declared exactly when the step does not mix the two ways of sending a file. */
  lemma {:induction false} HandleSound(w: World, frame: OfflineFrame, env: Env)
    requires Sound(w) && Handle(w, frame, env).error.None?
    ensures Sound(Handle(w, frame, env).world)
    ensures SizesAsDeclared(w.log) ==> (SizesAsDeclared(Handle(w, frame, env).world.log) <==> !Mixes(w, frame))
  {
    hide Sound, SizesAsDeclared, ReceiveFileChunk, PushChunk, ReceiveBytes;
    if IsPayload(frame) {
      var t := frame.v1.value.payloadTransfer.value;
      if t.header.value.payloadType == Some(PAYLOAD_FILE) {
        FileChunkSound(w, t, env);
      } else {
        var pushed := PushChunk(true, w.buffers, t);
        var after := w.(buffers := pushed.buffers);
        BuffersIrrelevant(w, pushed.buffers);
        if pushed.result.value.Some? {
          ReceiveBytesSound(after, pushed.result.value.value.0, pushed.result.value.value.1, env);
        }
      }
    }
  }

  lemma BuffersIrrelevant(w: World, buffers: Buffers)
    ensures Sound(w.(buffers := buffers)) <==> Sound(w)
  {
    assert PartsSound(w.(buffers := buffers)) <==> PartsSound(w);
    assert LogSound(w.(buffers := buffers)) <==> LogSound(w);
  }

  /** No frame of the run mixes the two ways. */
  ghost predicate NeverMixes(w: World, arrivals: seq<Arrival>)
    decreases |arrivals|
  {
    if Finished(w.transfer) || arrivals == [] then true
    else
      var step := Handle(w, arrivals[0].frame, arrivals[0].env);
      !Mixes(w, arrivals[0].frame) && (step.error.None? ==> NeverMixes(step.world, arrivals[1..]))
  }

  /** No commit has fewer bytes than declared. */
  predicate NotShort(log: seq<Commit>) {
    forall k :: 0 <= k < |log| ==> |log[k].content| >= log[k].declared
  }

  /** The history only grows, and by nothing that is too short. */
  ghost predicate LogGoesOn(before: seq<Commit>, after: seq<Commit>) {
    before <= after && (NotShort(before) ==> NotShort(after))
  }

  lemma CommitGoesOn(w: World, id: int, extra: bytes)
    requires Sound(w) && id in w.transfer.files
    requires w.transfer.files[id].received + |extra| >= w.transfer.files[id].expectedSize
    ensures LogGoesOn(w.log, CommitWith(w, id, extra).log)
  {
    PartLength(w, id);
    hide Sound, PartsSound;
  }

  lemma FileChunkGoesOn(w: World, t: PayloadTransfer, env: Env)
    requires Sound(w) && ReceiveFileChunk(w, t, env).error.None?
    ensures LogGoesOn(w.log, ReceiveFileChunk(w, t, env).world.log)
  {
    var id, chunk := t.header.value.id.value, t.chunk.value;
    var mid := if chunk.body.Some? then WriteChunk(w, id, chunk.body.value, env).world else w;
    if chunk.body.Some? {
      WriteChunkSound(w, id, chunk.body.value, env);
    }
    assert mid.log == w.log && id in mid.transfer.files;
    hide Sound, WriteChunk, CommitWith;
    if LowBit(GetOr(chunk.flags, 0)) {
      FinishChunksIsCommit(mid, id, env);
      CommitGoesOn(mid, id, []);
    }
    hide FinishChunks;
  }

  lemma ReceiveBytesGoesOn(w: World, id: int, content: bytes, env: Env)
    requires Sound(w) && ReceiveBytes(w, id, content, env).error.None?
    ensures LogGoesOn(w.log, ReceiveBytes(w, id, content, env).world.log)
  {
    hide Sound, CommitWith, UniqueDestination, WriteTarget, ReceiveFileBytes;
    if id in w.transfer.files {
      FileBytesIsCommit(w, id, content, env);
      CommitGoesOn(w, id, content);
    }
  }

  lemma HandleGoesOn(w: World, frame: OfflineFrame, env: Env)
    requires Sound(w) && Handle(w, frame, env).error.None?
    ensures LogGoesOn(w.log, Handle(w, frame, env).world.log)
  {
    hide Sound, LogGoesOn, ReceiveFileChunk, PushChunk, ReceiveBytes;
    assert LogGoesOn(w.log, w.log) by { NothingAdded(w.log); }
    if IsPayload(frame) {
      var t := frame.v1.value.payloadTransfer.value;
      if t.header.value.payloadType == Some(PAYLOAD_FILE) {
        FileChunkGoesOn(w, t, env);
      } else {
        var pushed := PushChunk(true, w.buffers, t);
        BuffersIrrelevant(w, pushed.buffers);
        if pushed.result.value.Some? {
          ReceiveBytesGoesOn(w.(buffers := pushed.buffers), pushed.result.value.value.0, pushed.result.value.value.1, env);
        }
      }
    }
  }

  lemma NothingAdded(log: seq<Commit>)
    ensures LogGoesOn(log, log)
  {
  }

  lemma {:induction false} RunGoesOn(w: World, arrivals: seq<Arrival>)
    requires Sound(w) && ReceiveAll(w, arrivals).error.None?
    ensures LogGoesOn(w.log, ReceiveAll(w, arrivals).world.log)
    decreases |arrivals|
  {
    hide Sound, Handle, NotShort;
    if !Finished(w.transfer) {
      HandleSound(w, arrivals[0].frame, arrivals[0].env);
      HandleGoesOn(w, arrivals[0].frame, arrivals[0].env);
      RunGoesOn(Handle(w, arrivals[0].frame, arrivals[0].env).world, arrivals[1..]);
    }
  }

  lemma LongerStaysLonger(before: seq<Commit>, after: seq<Commit>)
    requires before <= after && !SizesAsDeclared(before)
    ensures !SizesAsDeclared(after)
  {
    var k :| 0 <= k < |before| && |before[k].content| != before[k].declared;
    assert after[k] == before[k];
  }

  /** Over a run, sizes stay as declared exactly when no frame mixes the two ways. */
  lemma {:induction false} SizesIff(w: World, arrivals: seq<Arrival>)
    requires Sound(w) && SizesAsDeclared(w.log) && ReceiveAll(w, arrivals).error.None?
    ensures SizesAsDeclared(ReceiveAll(w, arrivals).world.log) <==> NeverMixes(w, arrivals)
    decreases |arrivals|
  {
    hide Sound, Handle, Mixes, SizesAsDeclared, NotShort;
    if !Finished(w.transfer) {
      var next := Handle(w, arrivals[0].frame, arrivals[0].env).world;
      HandleSound(w, arrivals[0].frame, arrivals[0].env);
      if Mixes(w, arrivals[0].frame) {
        RunGoesOn(next, arrivals[1..]);
        LongerStaysLonger(next.log, ReceiveAll(next, arrivals[1..]).world.log);
      } else {
        SizesIff(next, arrivals[1..]);
      }
    }
  }

  lemma {:induction false} TotalsIff(log: seq<Commit>)
    requires NotShort(log)
    ensures LogSize(log) >= LogDeclared(log)
    ensures LogSize(log) == LogDeclared(log) <==> SizesAsDeclared(log)
  {
    if log != [] {
      var front := log[..|log| - 1];
      TotalsIff(front);
      assert SizesAsDeclared(log) <==> SizesAsDeclared(front) && |log[|log| - 1].content| == log[|log| - 1].declared by {
        OneMoreSize(front, log[|log| - 1]);
        assert log == front + [log[|log| - 1]];
      }
    }
  }

  lemma OneMoreSize(front: seq<Commit>, last: Commit)
    ensures SizesAsDeclared(front + [last]) <==> SizesAsDeclared(front) && |last.content| == last.declared
  {
    var log := front + [last];
    assert log[|front|] == last && forall k :: 0 <= k < |front| ==> log[k] == front[k];
  }

  lemma {:induction false} SoundAtEnd(w: World, arrivals: seq<Arrival>)
    requires Sound(w) && ReceiveAll(w, arrivals).error.None?
    ensures Sound(ReceiveAll(w, arrivals).world) && Finished(ReceiveAll(w, arrivals).world.transfer)
    decreases |arrivals|
  {
    hide Sound, Handle;
    if !Finished(w.transfer) {
      HandleSound(w, arrivals[0].frame, arrivals[0].env);
      SoundAtEnd(Handle(w, arrivals[0].frame, arrivals[0].env).world, arrivals[1..]);
    }
  }

  lemma FinishedTotals(w: World)
    requires Sound(w) && Finished(w.transfer)
    ensures w.transfer.receivedBytes == LogSize(w.log) && w.transfer.totalBytes == LogDeclared(w.log)
  {
    assert ReceivedOf(w.transfer.files) == map[] && DeclaredOf(w.transfer.files) == map[];
    assert DeclaredTexts(w.transfer.texts) == map[];
  }

  lemma DeclaredIsNotShort(log: seq<Commit>)
    requires SizesAsDeclared(log)
    ensures NotShort(log)
  {
  }

  /** Over whole runs of `receive_all`: success leaves a sound world with nothing pending and every committed
      path holding what was last committed there. No file was sent both ways exactly when every commit has its
      declared size, and exactly when the counter has reached just the offered total; otherwise it is beyond. */
  lemma ReceiveAllSound(w: World, arrivals: seq<Arrival>)
    requires Sound(w) && ReceiveAll(w, arrivals).error.None?
    ensures var end := ReceiveAll(w, arrivals).world;
            && Sound(end) && Finished(end.transfer)
            && (SizesAsDeclared(w.log) ==>
                  && (SizesAsDeclared(end.log) <==> NeverMixes(w, arrivals))
                  && (end.transfer.receivedBytes == end.transfer.totalBytes <==> NeverMixes(w, arrivals))
                  && end.transfer.receivedBytes >= end.transfer.totalBytes)
  {
    hide Sound, ReceiveAll, SizesAsDeclared, NotShort, NeverMixes, LogSize, LogDeclared, Finished;
    SoundAtEnd(w, arrivals);
    if SizesAsDeclared(w.log) {
      SizesIff(w, arrivals);
      RunGoesOn(w, arrivals);
      DeclaredIsNotShort(w.log);
      FinishedTotals(ReceiveAll(w, arrivals).world);
      TotalsIff(ReceiveAll(w, arrivals).world.log);
    }
  }

  /** Such a frame: a file of one byte gets that byte in a FILE chunk and then a whole BYTES payload. The run
      succeeds, two bytes are committed where one was announced, and the counter is beyond the total. */
  lemma MixingSucceeds(x: byte, y: byte)
    ensures var part, target := ["d", ".hirodrop-1-2.part"], ["d", "a"];
            var files := map[5 := PendingFile(1, 0, target, part)];
            var w := World(Transfer(files, map[], {}, ["d"], [], 1, 0), map[], map[part := Regular([])], []);
            var piece := PayloadFrame(5, PAYLOAD_FILE, 1, PayloadChunk(Some(0), Some(0), Some([x])));
            var whole := PayloadFrame(5, PAYLOAD_BYTES, 1, PayloadChunk(Some(LAST_CHUNK), Some(0), Some([y])));
            var out := ReceiveAll(w, [Arrival(piece, Env(NoFault, 0, 0)), Arrival(whole, Env(NoFault, 0, 0))]);
            && out.error.None? && out.world.log == [Commit(5, target, [x, y], 1)]
            && target in out.world.disk && out.world.disk[target] == Regular([x, y])
            && out.world.transfer.receivedBytes == 2 && out.world.transfer.totalBytes == 1
  {
    var part, target := ["d", ".hirodrop-1-2.part"], ["d", "a"];
    assert part[1][0] == '.' && target[1][0] == 'a';
    var pending, noFault := PendingFile(1, 0, target, part), Env(NoFault, 0, 0);
    var t0 := Transfer(map[5 := pending], map[], {}, ["d"], [], 1, 0);
    var w0 := World(t0, map[], map[part := Regular([])], []);
    var w1 := World(t0.(files := map[5 := pending.(received := 1)], receivedBytes := 1), map[], map[part := Regular([x])], []);
    var piece := PayloadFrame(5, PAYLOAD_FILE, 1, PayloadChunk(Some(0), Some(0), Some([x])));
    var whole := PayloadFrame(5, PAYLOAD_BYTES, 1, PayloadChunk(Some(LAST_CHUNK), Some(0), Some([y])));
    MixedPiece(w0, w1, target, part, x);
    MixedWhole(w1, target, part, x, y);
    hide Handle;
    var arrivals := [Arrival(piece, noFault), Arrival(whole, noFault)];
    assert arrivals[1..] == [Arrival(whole, noFault)] && [Arrival(whole, noFault)][1..] == [];
    assert 5 in w0.transfer.files.Keys && 5 in w1.transfer.files.Keys;
    assert ReceiveAll(Handle(w1, whole, noFault).world, []).error.None?;
  }

  lemma MixedPiece(w: World, next: World, target: Path, part: Path, x: byte)
    requires w.transfer.files == map[5 := PendingFile(1, 0, target, part)] && w.transfer.receivedBytes == 0
    requires w.disk == map[part := Regular([])]
    requires next == w.(
      transfer := w.transfer.(files := map[5 := PendingFile(1, 1, target, part)], receivedBytes := 1), disk := map[part := Regular([x])])
    ensures var piece := PayloadFrame(5, PAYLOAD_FILE, 1, PayloadChunk(Some(0), Some(0), Some([x])));
            Handle(w, piece, Env(NoFault, 0, 0)) == Stepped(next, None)
  {
    assert [] + [x] == [x];
  }

  lemma MixedWhole(w: World, target: Path, part: Path, x: byte, y: byte)
    requires target != part && w.buffers == map[]
    requires w.transfer.files == map[5 := PendingFile(1, 1, target, part)] && w.transfer.texts == map[]
    requires w.disk == map[part := Regular([x])] && w.log == [] && w.transfer.receivedBytes == 1 && w.transfer.totalBytes == 1
    ensures var whole := PayloadFrame(5, PAYLOAD_BYTES, 1, PayloadChunk(Some(LAST_CHUNK), Some(0), Some([y])));
            var step := Handle(w, whole, Env(NoFault, 0, 0));
            && step.error.None? && step.world.log == [Commit(5, target, [x, y], 1)]
            && step.world.disk == map[target := Regular([x, y])]
            && step.world.transfer.files == map[] && step.world.transfer.texts == map[]
            && step.world.transfer.receivedBytes == 2 && step.world.transfer.totalBytes == 1
  {
    var whole := PayloadFrame(5, PAYLOAD_BYTES, 1, PayloadChunk(Some(LAST_CHUNK), Some(0), Some([y])));
    assert [] + [y] == [y];
    assert PushChunk(true, map[], whole.v1.value.payloadTransfer.value) == Pushed(map[], Ok(Some((5, [y]))));
    MixedCommit(w, target, part, x, y);
    hide PushChunk, ReceiveFileBytes;
    assert w.(buffers := map[]) == w;
  }

  lemma MixedCommit(w: World, target: Path, part: Path, x: byte, y: byte)
    requires target != part && w.buffers == map[]
    requires w.transfer.files == map[5 := PendingFile(1, 1, target, part)] && w.transfer.texts == map[]
    requires w.disk == map[part := Regular([x])] && w.log == [] && w.transfer.receivedBytes == 1 && w.transfer.totalBytes == 1
    ensures var step := ReceiveFileBytes(w, 5, [y], Env(NoFault, 0, 0));
            && step.error.None? && step.world.log == [Commit(5, target, [x, y], 1)]
            && step.world.disk == map[target := Regular([x, y])]
            && step.world.transfer.files == map[] && step.world.transfer.texts == map[]
            && step.world.transfer.receivedBytes == 2 && step.world.transfer.totalBytes == 1
  {
    assert [x] + [y] == [x, y];
    assert w.transfer.files - {5} == map[];
  }
}
