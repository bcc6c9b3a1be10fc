/** Which error is reported when several things are wrong: for a packet, a chunk, a handshake message, an entry of an
    introduction, the folders of an entry, and a frame of a transfer. Each error has its own exact condition. */
module Refusals {
  import opened Prelude
  import opened WireMessages
  import opened Transport
  import opened Assembler
  import opened Paths
  import opened Transfers
  import opened PartFiles
  import opened Preparation
  import opened Tables
  import opened Session
  import S = SecureChannels
  import H = Handshake

  // ------------------------------------------------------------------
  // Packets (src/quick_share_crypto.rs:313-359)

  predicate Signed(c: S.ChannelState, p: S.Packet) {
    p.SecureMessage? && p.signature == S.Mac(c.keys.receiveHmacKey, p.content)
  }

  predicate WellHeaded(content: S.Content) {
    && content.HeaderAndBody? && content.signatureScheme == Some(1) && content.encryptionScheme == Some(2)
    && content.iv.Some? && |content.iv.value| == 16
  }

  /** The packet was made with this side's keys, so that its plaintext comes out. */
  predicate Opens(c: S.ChannelState, p: S.Packet, plaintext: S.Plaintext) {
    && Signed(c, p) && WellHeaded(p.content) && plaintext.DeviceToDevice?
    && p.content.body == S.Sealed(c.keys.decryptKey, p.content.iv.value, plaintext)
  }

  /** What `decrypt_offline_frame` reports. A signature that does not fit comes before everything about the contents,
      the end of the counter before the number, and the number before the frame. */
  lemma PacketRefusedAs(c: S.ChannelState, p: S.Packet)
    ensures var r, last := S.Decrypt(c, p).1, c.receiveSequence == MAX_I32;
            && (r == Err(S.AuthenticationFailed) <==> p.SecureMessage? && !Signed(c, p))
            && (r == Err(S.DecryptionFailed) <==>
                  Signed(c, p) && WellHeaded(p.content)
                  && forall plaintext :: p.content.body != S.Sealed(c.keys.decryptKey, p.content.iv.value, plaintext))
            && (forall expected, actual :: r == Err(S.SequenceMismatch(expected, actual)) <==>
                  exists plaintext ::
                    Opens(c, p, plaintext) && plaintext.sequence == Some(actual) && !last
                    && expected == c.receiveSequence + 1 && actual != expected)
            && (r == Err(S.InvalidSecureMessage) <==>
                  || (Signed(c, p) && p.content.HeaderAndBody? && !WellHeaded(p.content))
                  || (exists plaintext ::
                        Opens(c, p, plaintext)
                        && (plaintext.sequence.None? || last
                            || (plaintext.sequence == Some(c.receiveSequence + 1) && plaintext.message.None?))))
  {
    if Signed(c, p) && WellHeaded(p.content) && p.content.body.Sealed? {
      var plaintext := p.content.body.plaintext;
      assert Opens(c, p, plaintext) <==>
             p.content.body.key == c.keys.decryptKey && p.content.body.iv == p.content.iv.value && plaintext.DeviceToDevice?;
      assert p.content.body == S.Sealed(p.content.body.key, p.content.body.iv, plaintext);
    }
  }

  // ------------------------------------------------------------------
  // Chunks (src/quick_share_receiver.rs:565-612, src/quick_share_sender.rs:772-814)

  predicate Complete(t: PayloadTransfer) {
    t.header.Some? && t.chunk.Some? && t.header.value.id.Some? && t.header.value.totalSize.Some?
  }

  predicate SizeOk(t: PayloadTransfer) {
    Complete(t) && 0 <= t.header.value.totalSize.value <= MAX_WIRE_FRAME_BYTES
  }

  /** What the assemblers report of a chunk, and what becomes of its payload's buffer: dropped at a wrong offset or a
      wrong end, kept when the receiver finds it too long, untouched before that. */
  lemma ChunkRefusedAs(strict: bool, b: Buffers, t: PayloadTransfer)
    ensures var p := PushChunk(strict, b, t);
            && (p.result == Err(MissingHeader) <==> t.header.None?)
            && (p.result == Err(MissingChunk) <==> t.header.Some? && t.chunk.None?)
            && (p.result == Err(MissingId) <==> t.header.Some? && t.chunk.Some? && t.header.value.id.None?)
            && (p.result == Err(MissingSize) <==>
                  t.header.Some? && t.chunk.Some? && t.header.value.id.Some? && t.header.value.totalSize.None?)
            && (p.result == Err(AssemblerError.TooLarge) <==> Complete(t) && !SizeOk(t))
            && (!SizeOk(t) ==> p.result.Err? && p.buffers == b)
    ensures SizeOk(t) ==>
              var p, id, total, chunk := PushChunk(strict, b, t), t.header.value.id.value, t.header.value.totalSize.value, t.chunk.value;
              var buffer, body := BufferOf(b, id), GetOr(t.chunk.value.body, []);
              && (p.result == Err(UnexpectedOffset) <==> chunk.offset != Some(|buffer|))
              && (p.result == Err(ExceedsDeclared) <==>
                    chunk.offset == Some(|buffer|) && strict && chunk.body.Some? && |buffer| + |body| > total)
              && (p.result == Err(Incomplete) <==>
                    && chunk.offset == Some(|buffer|) && !(strict && chunk.body.Some? && |buffer| + |body| > total)
                    && LowBit(GetOr(chunk.flags, 0)) && |buffer| + |body| != total)
              && (p.result.Err? ==>
                    if p.result.error.ExceedsDeclared? then p.buffers == b[id := buffer] else p.buffers == b - {id})
  {
  }

  // ------------------------------------------------------------------
  // Handshake messages (src/quick_share_crypto.rs:111-243)

  /** What is reported of a ClientInit that can be decoded, of one that cannot, and of one without contents. */
  lemma ClientInitRefusedAs(suite: H.Suite, messageType: Option<int>, data: Option<bytes>, secret: H.Secret, random: bytes)
    requires H.Lawful(suite)
    ensures var raw := suite.messages.encode(H.Ukey2Message(messageType, data));
            var r := H.Accept(suite, raw, secret, random);
            && (r == Err(H.UnexpectedUkey2Message) <==> messageType != Some(2))
            && (r == Err(H.MalformedMessage) <==> messageType == Some(2) && data.Some? && suite.clientInits.decode(data.value).None?)
            && (r.Err? ==> r.error in {H.UnexpectedUkey2Message, H.MalformedMessage, H.InvalidClientInit})
    ensures forall raw :: suite.messages.decode(raw).None? ==> H.Accept(suite, raw, secret, random) == Err(H.MalformedMessage)
  {
    var outer := H.Ukey2Message(messageType, data);
    assert suite.messages.decode(suite.messages.encode(outer)) == Some(outer);
    hide H.Lawful;
  }

  /** A key that cannot be decoded, and one that can but is refused. */
  lemma KeyRefusedAs(suite: H.Suite, publicKey: Option<bytes>)
    ensures var r := H.PeerOf(suite, publicKey);
            && (r == Err(H.MalformedMessage) <==> publicKey.Some? && suite.publicKeys.decode(publicKey.value).None?)
            && (r.Err? ==> r.error in {H.MalformedMessage, H.InvalidPublicKey})
  {
  }

  lemma ServerInitRefusedAs(suite: H.Suite, i: H.Initiator, messageType: Option<int>, m: H.ServerInit)
    requires H.Lawful(suite)
    ensures var raw := suite.messages.encode(H.Ukey2Message(messageType, Some(suite.serverInits.encode(m))));
            var r := H.InitiatorComplete(suite, i, raw);
            var fits := m.version == Some(1) && m.random.Some? && |m.random.value| == 32 && m.cipher == Some(100);
            && (r == Err(H.UnexpectedUkey2Message) <==> messageType != Some(3))
            && (r == Err(H.InvalidClientInit) <==> messageType == Some(3) && !fits)
            && (messageType == Some(3) && fits ==>
                  (r.Ok? <==> H.PeerOf(suite, m.publicKey).Ok?) && (r.Err? ==> Err(r.error) == H.PeerOf(suite, m.publicKey)))
    ensures forall raw :: suite.messages.decode(raw).None? ==> H.InitiatorComplete(suite, i, raw) == Err(H.MalformedMessage)
  {
    var outer := H.Ukey2Message(messageType, Some(suite.serverInits.encode(m)));
    assert suite.messages.decode(suite.messages.encode(outer)) == Some(outer);
    assert suite.serverInits.decode(outer.data.value) == Some(m);
    KeyRefusedAs(suite, m.publicKey);
    hide H.Lawful, H.PeerOf, H.SessionOf;
  }

  /** The commitment is looked at before anything in the message. */
  lemma ClientFinishRefusedAs(suite: H.Suite, r: H.Responder, messageType: Option<int>, m: H.ClientFinished)
    requires H.Lawful(suite)
    ensures var raw := suite.messages.encode(H.Ukey2Message(messageType, Some(suite.clientFinishes.encode(m))));
            var done := H.ResponderComplete(suite, r, raw);
            && (done == Err(H.UnexpectedUkey2Message) <==> suite.sha512(raw) == r.commitment && messageType != Some(4))
            && (suite.sha512(raw) == r.commitment && messageType == Some(4) ==>
                  (done.Ok? <==> H.PeerOf(suite, m.publicKey).Ok?) && (done.Err? ==> Err(done.error) == H.PeerOf(suite, m.publicKey)))
    ensures forall raw :: H.ResponderComplete(suite, r, raw) == Err(H.CommitmentMismatch) <==> suite.sha512(raw) != r.commitment
  {
    var outer := H.Ukey2Message(messageType, Some(suite.clientFinishes.encode(m)));
    assert suite.messages.decode(suite.messages.encode(outer)) == Some(outer);
    assert suite.clientFinishes.decode(outer.data.value) == Some(m);
    KeyRefusedAs(suite, m.publicKey);
    hide H.Lawful, H.PeerOf, H.SessionOf;
    forall raw
      ensures H.ResponderComplete(suite, r, raw) == Err(H.CommitmentMismatch) <==> suite.sha512(raw) != r.commitment
    {
      ClientKeyNeverMismatches(suite, raw);
    }
  }

  lemma ClientKeyNeverMismatches(suite: H.Suite, raw: bytes)
    ensures H.ClientKey(suite, raw) != Err(H.CommitmentMismatch)
  {
  }

  // ------------------------------------------------------------------
  // Folders (src/quick_share_receiver.rs:1138-1161)

  /** The first `n` names can be entered. */
  predicate EntersSome(disk: Disk, directory: Path, components: seq<string>, n: nat, unusable: set<Path>) {
    n <= |components| && Names(components[..n]).Some? && WayIsClear(disk, directory, Names(components[..n]).value, unusable)
  }

  /** The folder after those cannot be looked at or made. */
  predicate StopsUnusable(disk: Disk, directory: Path, components: seq<string>, n: nat, unusable: set<Path>) {
    && n < |components| && EntersSome(disk, directory, components, n, unusable)
    && SanitizeComponent(components[n]).Some?
    && directory + Names(components[..n]).value + [SanitizeComponent(components[n]).value] in unusable
  }

  lemma EntersSomeStep(disk: Disk, directory: Path, components: seq<string>, n: nat, unusable: set<Path>)
    requires n < |components| && SanitizeComponent(components[0]).Some?
    ensures var next := directory + [SanitizeComponent(components[0]).value];
            var mid := if next in disk then disk else disk[next := Directory];
            EntersSome(disk, directory, components, n + 1, unusable) <==>
              next !in unusable && (next in disk ==> disk[next].Directory?) && EntersSome(mid, next, components[1..], n, unusable)
  {
    hide SanitizeComponent, WayIsClear;
    var first, rest := components[..n + 1], components[1..][..n];
    assert first[0] == components[0] && first[1..] == rest;
    if Names(rest).Some? {
      OneFolderDown(disk, directory, SanitizeComponent(components[0]).value, Names(rest).value, unusable);
    }
  }

  lemma StopsStep(disk: Disk, directory: Path, components: seq<string>, n: nat, unusable: set<Path>)
    requires n + 1 < |components| && SanitizeComponent(components[0]).Some?
    ensures var next := directory + [SanitizeComponent(components[0]).value];
            var mid := if next in disk then disk else disk[next := Directory];
            StopsUnusable(disk, directory, components, n + 1, unusable) <==>
              next !in unusable && (next in disk ==> disk[next].Directory?) && StopsUnusable(mid, next, components[1..], n, unusable)
  {
    EntersSomeStep(disk, directory, components, n, unusable);
    hide SanitizeComponent, WayIsClear;
    var first, rest := components[..n + 1], components[1..][..n];
    assert first[0] == components[0] && first[1..] == rest;
    if Names(rest).Some? {
      assert directory + Names(first).value == directory + [SanitizeComponent(components[0]).value] + Names(rest).value;
    }
  }

  lemma StopsAtOnce(disk: Disk, directory: Path, components: seq<string>, unusable: set<Path>)
    requires components != []
    ensures StopsUnusable(disk, directory, components, 0, unusable) <==>
              SanitizeComponent(components[0]).Some? && directory + [SanitizeComponent(components[0]).value] in unusable
  {
    hide SanitizeComponent;
    assert components[..0] == [] && directory + [] == directory;
  }

  lemma NothingEntered(disk: Disk, directory: Path, components: seq<string>, unusable: set<Path>)
    requires components != [] && SanitizeComponent(components[0]).None?
    ensures forall n: nat :: !StopsUnusable(disk, directory, components, n, unusable)
  {
    hide SanitizeComponent, WayIsClear;
    forall n: nat | n < |components|
      ensures !StopsUnusable(disk, directory, components, n, unusable)
    {
      if n > 0 {
        assert components[..n][0] == components[0];
      }
    }
  }

  lemma FoldersLater(
    disk: Disk, directory: Path, components: seq<string>, mid: Disk, next: Path, unusable: set<Path>, clear: bool)
    requires components != []
    requires forall n: nat :: n + 1 < |components| ==>
               (StopsUnusable(disk, directory, components, n + 1, unusable)
                <==> clear && StopsUnusable(mid, next, components[1..], n, unusable))
    ensures (exists n: nat :: StopsUnusable(disk, directory, components, n, unusable)) <==>
              StopsUnusable(disk, directory, components, 0, unusable)
              || (clear && exists n: nat :: StopsUnusable(mid, next, components[1..], n, unusable))
  {
    hide EntersSome, SanitizeComponent;
    if n: nat :| StopsUnusable(disk, directory, components, n, unusable) {
      if n > 0 {
        assert StopsUnusable(disk, directory, components, (n - 1) + 1, unusable);
        assert StopsUnusable(mid, next, components[1..], n - 1, unusable);
      }
    }
    if clear {
      if n: nat :| StopsUnusable(mid, next, components[1..], n, unusable) {
        assert StopsUnusable(disk, directory, components, n + 1, unusable);
      }
    }
  }

  /** Entering fails as unusable exactly when, all names before being entered, the next folder cannot be looked at or
      made; every other failure is that of an unsafe name or of something in the way. */
  lemma {:induction false} FoldersRefusedAs(disk: Disk, directory: Path, components: seq<string>, unusable: set<Path>)
    ensures EnterFolders(disk, directory, components, unusable).1 == Err(UnusableFolder) <==>
              exists n: nat :: StopsUnusable(disk, directory, components, n, unusable)
    decreases |components|
  {
    if components != [] {
      StopsAtOnce(disk, directory, components, unusable);
      if SanitizeComponent(components[0]).Some? {
        var next := directory + [SanitizeComponent(components[0]).value];
        var mid := if next in disk then disk else disk[next := Directory];
        FoldersRefusedAs(mid, next, components[1..], unusable);
        forall n: nat | n + 1 < |components|
          ensures StopsUnusable(disk, directory, components, n + 1, unusable) <==>
                  next !in unusable && (next in disk ==> disk[next].Directory?) && StopsUnusable(mid, next, components[1..], n, unusable)
        {
          StopsStep(disk, directory, components, n, unusable);
        }
        hide StopsUnusable, SanitizeComponent;
        FoldersLater(
          disk, directory, components, mid, next, unusable, next !in unusable && (next in disk ==> disk[next].Directory?));
      } else {
        NothingEntered(disk, directory, components, unusable);
      }
    }
  }

  // ------------------------------------------------------------------
  // Entries of an introduction (src/quick_share_receiver.rs:774-860)

  /** The folder of an entry cannot be looked at or made. */
  predicate FolderUnusable(disk: Disk, root: Path, parentFolder: Option<string>, unusable: set<Path>) {
    && parentFolder.Some? && parentFolder.value != ""
    && EnterFolders(disk, root, Split(parentFolder.value), unusable).1 == Err(UnusableFolder)
  }

  /** What a file entry is refused with: too large when the sum leaves 64 bits, which is looked at before its name; an
      input or output error for its folder or its part file; and as unsafe for anything else. */
  lemma FileRefusedAs(p: Preparing, root: Path, m: FileMetadata, processId: nat, choice: Choice)
    ensures var (next, error) := PrepareFile(p, root, m, processId, choice);
            var (disk, parent) := SafeParentDirectory(p.disk, root, m.parentFolder, choice.unusable);
            var sized := m.payloadId.Some? && m.size.Some? && m.size.value >= 0;
            var named := sized && p.total + m.size.value <= MAX_U64 && m.name.Some? && SanitizeFileName(m.name.value).Some?;
            && (error == Some(ReceiveError.TransferTooLarge) <==> sized && p.total + m.size.value > MAX_U64)
            && (error == Some(Io) <==>
                  named && (FolderUnusable(p.disk, root, m.parentFolder, choice.unusable)
                            || (parent.Ok? && (root + [PartName(processId, choice.part)] in disk || choice.openFails))))
            && (error.Some? ==> error.value in {ReceiveError.TransferTooLarge, Io, UnsafeMetadata})
            && (error.Some? ==> next.files == p.files && next.texts == p.texts && next.total == p.total)
  {
    hide EnterFolders, SanitizeFileName, UniqueDestination, PartName;
  }

  /** And a text: too large when the sum leaves 64 bits, as unsafe for anything else, its own size included. */
  lemma TextRefusedAs(p: Preparing, t: TextMetadata)
    ensures var (next, error) := PrepareText(p, t);
            && (error == Some(ReceiveError.TransferTooLarge) <==>
                  && t.payloadId.Some? && t.size.Some? && 0 <= t.size.value <= MAX_WIRE_FRAME_BYTES
                  && p.total + t.size.value > MAX_U64)
            && (error.Some? ==> error.value in {ReceiveError.TransferTooLarge, UnsafeMetadata} && next == p)
  {
  }

  /** The first entry refused is the one that counts, and none after it is looked at. */
  lemma {:induction false} FirstRefusedFile(
    p: Preparing, root: Path, files: seq<FileMetadata>, processId: nat, choices: seq<Choice>, error: ReceiveError)
    requires |choices| == |files|
    ensures PrepareFiles(p, root, files, processId, choices).1 == Some(error) <==>
              exists k :: 0 <= k < |files| && RefusedAt(p, root, files, processId, choices, k, error)
    decreases |files|
  {
    hide PrepareFile;
    if files != [] {
      RefusedAtStep(p, root, files, processId, choices, error);
      var (next, failed) := PrepareFile(p, root, files[0], processId, choices[0]);
      if failed.None? {
        FirstRefusedFile(next, root, files[1..], processId, choices[1..], error);
      }
    }
  }

  /** The entries before entry `k` are accepted, and that one is refused with `error`. */
  predicate RefusedAt(
    p: Preparing, root: Path, files: seq<FileMetadata>, processId: nat, choices: seq<Choice>, k: int, error: ReceiveError)
    requires |choices| == |files|
  {
    && 0 <= k < |files|
    && var (made, before) := PrepareFiles(p, root, files[..k], processId, choices[..k]);
       before.None? && PrepareFile(made, root, files[k], processId, choices[k]).1 == Some(error)
  }

  lemma RefusedAtStep(
    p: Preparing, root: Path, files: seq<FileMetadata>, processId: nat, choices: seq<Choice>, error: ReceiveError)
    requires |choices| == |files| && files != []
    ensures var (next, failed) := PrepareFile(p, root, files[0], processId, choices[0]);
            && (RefusedAt(p, root, files, processId, choices, 0, error) <==> failed == Some(error))
            && (forall k :: 0 < k < |files| ==>
                  (RefusedAt(p, root, files, processId, choices, k, error) <==>
                     failed.None? && RefusedAt(next, root, files[1..], processId, choices[1..], k - 1, error)))
            && ((exists k :: 0 <= k < |files| && RefusedAt(p, root, files, processId, choices, k, error)) <==>
                  || failed == Some(error)
                  || (failed.None?
                      && exists k :: 0 <= k < |files| - 1 && RefusedAt(next, root, files[1..], processId, choices[1..], k, error)))
  {
    hide PrepareFile;
    var (next, failed) := PrepareFile(p, root, files[0], processId, choices[0]);
    var rest, more := files[1..], choices[1..];
    assert files[..0] == [] && choices[..0] == [];
    forall k | 0 < k < |files|
      ensures RefusedAt(p, root, files, processId, choices, k, error) <==>
                failed.None? && RefusedAt(next, root, rest, processId, more, k - 1, error)
    {
      assert files[..k][0] == files[0] && files[..k][1..] == rest[..k - 1];
      assert choices[..k][0] == choices[0] && choices[..k][1..] == more[..k - 1];
    }
    hide RefusedAt;
    if failed.None? {
      if k :| 0 <= k < |rest| && RefusedAt(next, root, rest, processId, more, k, error) {
        assert RefusedAt(next, root, rest, processId, more, (k + 1) - 1, error);
        assert RefusedAt(p, root, files, processId, choices, k + 1, error);
      }
    }
  }

  /** What `prepare` reports: an empty introduction is unsafe; then comes the first file refused, then the texts, then
      the sum. */
  lemma PrepareRefusedAs(introduction: Introduction, root: Path, disk: Disk, processId: nat, choices: seq<Choice>)
    requires |choices| == |introduction.files|
    ensures var prepared, files, texts := Prepare(introduction, root, disk, processId, choices), introduction.files, introduction.texts;
            var (made, error) := PrepareFiles(Preparing(disk, map[], map[], 0), root, files, processId, choices);
            && (files == [] && texts == [] ==> prepared == Prepared(disk, Err(UnsafeMetadata)))
            && (error.Some? ==> prepared == Prepared(made.disk, Err(error.value)))
            && (error.None? && (files != [] || texts != []) ==>
                  && prepared.disk == made.disk
                  && (TextsOffered(texts, made.files.Keys) && FileSum(files) + TextSum(texts) > MAX_TOTAL_TRANSFER_BYTES ==>
                        prepared.result == Err(ReceiveError.TransferTooLarge))
                  && (prepared.result.Err? ==> prepared.result.error in {ReceiveError.TransferTooLarge, UnsafeMetadata})
                  && (prepared.result == Err(UnsafeMetadata) ==> !TextsOffered(texts, made.files.Keys)))
  {
    hide PrepareFiles, PrepareTexts, TextsOffered, FileSum, TextSum;
    var p := Preparing(disk, map[], map[], 0);
    var (made, error) := PrepareFiles(p, root, introduction.files, processId, choices);
    if introduction.files == [] {
      NoFiles(p, root, processId, choices);
    }
    if error.None? {
      PreparedFileTable(p, root, introduction.files, processId, choices);
      TextsRefusedAs(made, introduction.texts);
      assert made.texts.Keys + made.files.Keys == made.files.Keys;
    }
  }

  lemma NoFiles(p: Preparing, root: Path, processId: nat, choices: seq<Choice>)
    requires choices == []
    ensures PrepareFiles(p, root, [], processId, choices) == (p, None)
  {
  }

  /** The texts are refused as unsafe when one of them is, unless the sum leaves 64 bits before that. */
  lemma {:induction false} TextsRefusedAs(p: Preparing, texts: seq<TextMetadata>)
    ensures var (next, error) := PrepareTexts(p, texts);
            && next.disk == p.disk
            && (error.None? ==> next.total == p.total + TextSum(texts))
            && (error.Some? ==> error.value in {ReceiveError.TransferTooLarge, UnsafeMetadata})
            && (TextsOffered(texts, p.texts.Keys + p.files.Keys) ==> error in {None, Some(ReceiveError.TransferTooLarge)})
            && (error == Some(ReceiveError.TransferTooLarge) ==> p.total + TextSum(texts) > MAX_U64)
    decreases |texts|
  {
    PrepareTextsIff(p, texts);
    if texts != [] {
      TextRefusedAs(p, texts[0]);
      OneText(p, texts[0]);
      var (mid, error) := PrepareText(p, texts[0]);
      hide PrepareText, TextTable, EntryFor;
      if error.None? {
        TextsRefusedAs(mid, texts[1..]);
        TextsOfferedStep(texts, p.texts.Keys + p.files.Keys);
        hide TextsOffered;
        assert mid.texts.Keys + mid.files.Keys == p.texts.Keys + p.files.Keys + {texts[0].payloadId.value};
      } else if error == Some(UnsafeMetadata) {
        FirstTextRefused(p, texts);
      }
    }
  }

  lemma FirstTextRefused(p: Preparing, texts: seq<TextMetadata>)
    requires texts != [] && PrepareText(p, texts[0]).1 == Some(UnsafeMetadata)
    ensures !TextsOffered(texts, p.texts.Keys + p.files.Keys)
  {
    assert !TextOffered(texts[0]) || texts[0].payloadId.value in p.texts.Keys + p.files.Keys;
  }

  // ------------------------------------------------------------------
  // Frames of a transfer (src/quick_share_receiver.rs:881-1059)

  /** A chunk for a pending file, at its offset, that does not pass the file's size. */
  predicate InOrder(w: World, t: PayloadTransfer) {
    && t.header.Some? && t.header.value.id.Some? && t.chunk.Some? && t.header.value.id.value in w.transfer.files
    && var pending, chunk := w.transfer.files[t.header.value.id.value], t.chunk.value;
       && chunk.offset == Some(AsI64(pending.received))
       && (chunk.body.Some? ==>
             pending.received + |chunk.body.value| <= MAX_U64 && pending.received + |chunk.body.value| <= pending.expectedSize)
  }

  /** Putting a file in place fails: syncing, renaming, no part file any more, or a directory in the way. */
  predicate CannotPlace(disk: Disk, pending: PendingFile, env: Env) {
    || env.fault.SyncFails? || env.fault.RenameFails? || pending.partPath !in disk
    || (pending.finalPath in disk && disk[pending.finalPath].Directory?)
  }

  lemma CommitRefusedAs(w: World, id: int, pending: PendingFile, env: Env)
    ensures CommitFile(w, id, pending, env).error == if CannotPlace(w.disk, pending, env) then Some(Io) else None
  {
  }

  /** A FILE chunk is refused by the protocol when it is out of order or ends the file early, and fails with the disk
      when writing or, at the end of the file, putting it in place does. */
  lemma FileChunkRefusedAs(w: World, t: PayloadTransfer, env: Env)
    ensures var error := ReceiveFileChunk(w, t, env).error;
            && (error.Some? ==> error.value in {Protocol, Io})
            && (!InOrder(w, t) ==> error == Some(Protocol))
            && (InOrder(w, t) ==>
                  var pending, chunk := w.transfer.files[t.header.value.id.value], t.chunk.value;
                  var body, last := GetOr(chunk.body, []), LowBit(GetOr(chunk.flags, 0));
                  var early := pending.received + |body| != pending.expectedSize;
                  if chunk.body.Some? && env.fault.WriteFails? then error == Some(Io)
                  else if !last then error == None
                  else if early then error == Some(Protocol)
                  else
                    error == Some(Io) <==>
                      CannotPlace(if chunk.body.Some? then AppendTo(w.disk, pending.partPath, body) else w.disk, pending, env))
  {
    hide AppendTo, Rename, LowBit, AsI64;
    if InOrder(w, t) {
      var id, chunk := t.header.value.id.value, t.chunk.value;
      var pending := w.transfer.files[id];
      var body := GetOr(chunk.body, []);
      if !(chunk.body.Some? && env.fault.WriteFails?) {
        var written := (if chunk.body.Some? then WriteChunk(w, id, chunk.body.value, env) else Stepped(w, None)).world;
        assert written.disk == if chunk.body.Some? then AppendTo(w.disk, pending.partPath, body) else w.disk;
        var now := written.transfer.files[id];
        assert now == pending.(received := pending.received + |body|);
        CommitRefusedAs(written.(transfer := written.transfer.(files := written.transfer.files - {id})), id, now, env);
        assert CannotPlace(written.disk, now, env) <==> CannotPlace(written.disk, pending, env);
        hide CommitFile;
      }
    }
  }

  /** A write that fails after some octets leaves those in the part file and changes nothing else. */
  lemma BrokenChunkLeaves(w: World, t: PayloadTransfer, env: Env)
    requires InOrder(w, t) && t.chunk.value.body.Some? && env.fault.WriteFails?
    ensures var part, body := w.transfer.files[t.header.value.id.value].partPath, t.chunk.value.body.value;
            var kept := if env.fault.written <= |body| then env.fault.written else |body|;
            ReceiveFileChunk(w, t, env).world == w.(disk := w.disk[part := Regular(ContentAt(w.disk, part) + body[..kept])])
  {
    hide AsI64, ContentAt;
  }

  /** So does the write of a text, where it was to be put; the text has left the table and is counted. */
  lemma BrokenTextLeaves(w: World, id: int, content: bytes, env: Env, end: Path)
    requires id in w.transfer.texts && |content| == w.transfer.texts[id].expectedSize && env.fault.WriteFails?
    requires WriteTarget(
               w.disk,
               UniqueDestination(
                 w.disk, w.transfer.downloadDirectory, TextName(w.transfer.texts[id].isUrl, env.now), env.fallback)) == Some(end)
    ensures var kept := if env.fault.written <= |content| then env.fault.written else |content|;
            var after := ReceiveText(w, id, content, env).world;
            && after.disk == w.disk[end := Regular(content[..kept])] && after.log == w.log
            && after.transfer.texts == w.transfer.texts - {id} && after.transfer.completed == w.transfer.completed
            && after.transfer.files == w.transfer.files
  {
    hide UniqueDestination, WriteTarget, TextName;
  }

  /** What a frame of a transfer is refused with. */
  lemma FrameRefusedAs(w: World, frame: OfflineFrame, env: Env)
    ensures var error := Handle(w, frame, env).error;
            && (frame.v1.None? ==> error == Some(Protocol))
            && (error == Some(Disconnected) <==> frame.v1.Some? && frame.v1.value.frameType == Some(DISCONNECTION))
            && (frame.v1.Some? && frame.v1.value.frameType != Some(PAYLOAD_TRANSFER) && frame.v1.value.frameType != Some(DISCONNECTION)
                ==> error == None)
            && (IsPayload(frame) && frame.v1.value.payloadTransfer.None? ==> error == Some(Protocol))
  {
    if IsPayload(frame) && frame.v1.value.payloadTransfer.Some? {
      PayloadRefusedAs(w, frame.v1.value.payloadTransfer.value, env);
    }
    hide ReceivePayload;
  }

  /** And a payload: FILE chunks as above, any type but FILE and BYTES by the protocol, a BYTES chunk with the error of
      the assembler; a completed payload is refused by the protocol when it has not the size of the file or text it is
      for, and otherwise fails only with the disk. */
  lemma PayloadRefusedAs(w: World, t: PayloadTransfer, env: Env)
    ensures var error, kind := ReceivePayload(w, t, env).error, if t.header.Some? then t.header.value.payloadType else None;
            var pushed := PushChunk(true, w.buffers, t).result;
            && error != Some(Disconnected)
            && (kind == Some(2) ==> error == ReceiveFileChunk(w, t, env).error)
            && (kind != Some(1) && kind != Some(2) ==> error == Some(Protocol))
            && (kind == Some(1) && pushed.Err? ==> error == Some(Assembly(pushed.error)))
            && (kind == Some(1) && pushed.Ok? ==> error in {None, Some(Protocol), Some(Io)})
            && (kind == Some(1) && pushed.Ok? ==>
                  (error == Some(Protocol) <==>
                     && pushed.value.Some?
                     && var (id, content) := pushed.value.value;
                        || (id in w.transfer.files && |content| != w.transfer.files[id].expectedSize)
                        || (id !in w.transfer.files && id in w.transfer.texts && |content| != w.transfer.texts[id].expectedSize)))
  {
    FileChunkRefusedAs(w, t, env);
    hide PushChunk, ReceiveFileChunk, AppendTo, Rename, UniqueDestination, WriteTarget, TextName;
  }

  /** How a run ends: with the error of the frame that fails, if one does; well when nothing is left pending; and else as
      a connection that ended too early, with everything read. */
  lemma {:induction false} RunEndsAs(w: World, arrivals: seq<Arrival>)
    ensures var r, failing := ReceiveAll(w, arrivals), FailingStep(w, arrivals);
            && (failing.Some? ==> r.error == Handle(failing.value.0, failing.value.1.frame, failing.value.1.env).error)
            && (failing.None? && Finished(r.world.transfer) ==> r.error == None)
            && (failing.None? && !Finished(r.world.transfer) ==> r.error == Some(WireFraming) && r.rest == [])
    decreases |arrivals|
  {
    hide Handle, Finished;
    if arrivals != [] {
      var step := Handle(w, arrivals[0].frame, arrivals[0].env);
      if step.error.None? {
        RunEndsAs(step.world, arrivals[1..]);
      }
    }
  }

  // ------------------------------------------------------------------
  // The drivers (src/quick_share_receiver.rs:279-318, src/quick_share_sender.rs:148-228)

  /** What the receiver fails with when something else arrives than it waits for: as a protocol error for the connection
      request and response, as one of the handshake in between. */
  lemma ReceiverOutOfTurn(cfg: Config, r: Receiver, m: Message)
    ensures var next := ReceiverReads(cfg, r, m).receiver.phase;
            && (r.phase.AwaitRequest? && !m.ConnectionRequest? ==> next == ReceiverFailed(Protocol, cfg.disk))
            && (r.phase.AwaitClientInit? && !m.ClientInit? ==> next == ReceiverFailed(Crypto, cfg.disk))
            && (r.phase.AwaitClientFinish? && !m.ClientFinish? ==> next == ReceiverFailed(Crypto, cfg.disk))
            && (r.phase.AwaitClientResponse? && !m.ConnectionResponse? ==> next == ReceiverFailed(Protocol, cfg.disk))
  {
  }

  /** A sharing frame of another type is a protocol error, and so is an introduction without contents; one that lacks
      a file's name, or any size, or has a negative one, is unsafe. Nothing is sent. */
  lemma ReceiverOutOfOrder(cfg: Config, r: Receiver, frame: SharingFrame)
    requires r.phase.AwaitPairedKey? || r.phase.AwaitPairedResult? || r.phase.AwaitIntroduction?
    ensures var wanted := match r.phase
                          case AwaitPairedKey => 3
                          case AwaitPairedResult => 4
                          case _ => 1;
            var move := AfterSharing(cfg, r, frame);
            var fits := frame.v1.Some? && frame.v1.value.frameType == Some(wanted);
            && (!fits ==> move == ReceiverMove(r.(phase := ReceiverFailed(Protocol, cfg.disk)), []))
            && (fits && r.phase.AwaitIntroduction? ==>
                  match frame.v1.value.introduction
                  case None => move == ReceiverMove(r.(phase := ReceiverFailed(Protocol, cfg.disk)), [])
                  case Some(introduction) =>
                    var named := forall m :: m in introduction.files ==> m.name.Some? && m.size.Some? && m.size.value >= 0;
                    var sized := forall t :: t in introduction.texts ==> t.size.Some? && t.size.value >= 0;
                    if named && sized then move.receiver.phase == ReceiverPhase.Consent(introduction, cfg.polls)
                    else move == ReceiverMove(r.(phase := ReceiverFailed(UnsafeMetadata, cfg.disk)), []))
  {
    if r.phase.AwaitIntroduction? && HasType(frame, 1) && frame.v1.value.introduction.Some? {
      var introduction := frame.v1.value.introduction.value;
      assert (forall i :: 0 <= i < |introduction.files| ==> introduction.files[i].name.Some? && ValidSize(introduction.files[i].size))
             <==> forall m :: m in introduction.files ==> m.name.Some? && ValidSize(m.size);
    }
  }

  /** And the sender; a refusal of the connection is a protocol error, an answer that is no acceptance a rejection. */
  lemma SenderOutOfTurn(cfg: Config, s: Sender, m: Message, frame: SharingFrame)
    ensures var next := SenderReads(cfg, s, m).sender.phase;
            && (s.phase.AwaitServerInit? && !m.ServerInit? ==> next == SenderFailed(SendCrypto))
            && (s.phase.AwaitServerResponse? && !(m.ConnectionResponse? && m.accepted) ==> next == SenderFailed(SendProtocol))
    ensures var next, kind := SenderAfterSharing(cfg, s, frame).sender.phase, if frame.v1.Some? then frame.v1.value.frameType else None;
            && (s.phase.AwaitPeerKey? && kind != Some(3) ==> next == SenderFailed(SendProtocol))
            && (s.phase.AwaitPeerResult? && kind != Some(4) ==> next == SenderFailed(SendProtocol))
            && (s.phase.AwaitAcceptance? && kind != Some(2) ==> next == SenderFailed(SendProtocol))
            && (s.phase.AwaitAcceptance? && kind == Some(2) ==>
                  next == if frame.v1.value.connectionResponse == Some(SharingResponse(Some(1))) then SendingFiles(0, 8)
                          else SenderFailed(SendRejected))
  {
    hide Plan, FromSender, ReadSharing;
  }

  /** `after` is the disk of `w` without the part files of the files still listed, and otherwise as it was. */
  ghost predicate CleanedUp(w: World, after: Disk) {
    forall p: Path ::
      if exists id :: id in w.transfer.files && w.transfer.files[id].partPath == p then p !in after
      else (p in after <==> p in w.disk) && (p in after ==> after[p] == w.disk[p])
  }

  lemma CleanupIs(w: World)
    ensures CleanedUp(w, CleanupParts(w))
  {
  }

  /** A receiver that fails while it receives, for whatever reason, cleans up what is listed at that moment. */
  lemma FailingCleansUp(cfg: Config, r: Receiver, m: Message, error: ReceiveError)
    requires r.phase.Receiving?
    ensures CleanedUp(r.phase.world, DiskOf(cfg, Fail(cfg, r, error).receiver))
    ensures var next := ReceiverReads(cfg, r, m).receiver;
            var w := if m.Secure? then Handle(r.phase.world, m.frame, Env(NoFault, 0, 0)).world else r.phase.world;
            next.phase.ReceiverFailed? ==> CleanedUp(w, DiskOf(cfg, next))
  {
    hide Handle, CleanupParts, CleanedUp, Replies, Finished, SecureAll;
    CleanupIs(r.phase.world);
    if m.Secure? {
      CleanupIs(Handle(r.phase.world, m.frame, Env(NoFault, 0, 0)).world);
    }
  }
}
