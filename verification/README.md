# HiRodrop's Quick Share transfer, modelled and proved

HiRodrop sends and receives files with the Quick Share protocol. This project models both ends of that
protocol and proves what they promise each other: that what the sender reads is what the receiver commits,
that the encrypted channel delivers exactly what was sent, that a session always ends and how, that a folder
tree arrives as the same tree, and that nothing is received that the user did not accept.

`dafny verify dfyconfig.toml` checks everything. The files, from the bottom up:

- `Prelude` -- octets, options, results, sums over finite tables.
- `Transport` -- the length-prefixed frames on a byte stream, as an object that reads and writes step by step.
- `Wire` -- the decoded messages (module `WireMessages`).
- `SecureChannel` -- the numbered, encrypted and signed channel as an object, and a network that may drop,
  repeat, reorder, reflect and invent packets.
- `Layers` -- framing and channel together, over a stream that may be cut at any byte.
- `Assembler` -- the two reassemblers of byte payloads, as objects, and how they compare.
- `Paths` -- names, folders, destinations and the part of the file system the receiver touches.
- `Transfer` (module `Transfers`) -- what `prepare` builds and what every frame does to a transfer, on values.
- `Receiving` -- the same as `PendingTransfer` really is: an object whose methods update maps, counters and the
  disk in place, each proved to do what `Transfers` says. The theorems below are about `Transfers`, so they
  hold of these methods.
- `Tables` -- the tables `prepare` builds, entry by entry.
- `BytesPayloads` -- texts, and files sent like texts, from their chunks to the disk.
- `TransferInvariant`, `Preparation`, `PartFiles` -- conservation, part files, what is left after a failure.
- `Containment`, `SessionContainment` -- nothing is written outside the download directory, unless a link that
  stands in it leads a text out.
- `Sending`, `Fidelity` -- the sender's file loop, and fidelity from the files read to the files on disk.
- `Destinations` -- when a committed file keeps its place.
- `WireFidelity` -- fidelity through every layer at once, over bytes, with the limits of frame size and counter.
- `Interleaving`, `InterleavingTheorems`, `InterleavingPlaces` -- the order in which payloads are mixed does not
  matter.
- `Session`, `SessionInvariant`, `SessionSteps`, `SessionTheorems` -- the two drivers as machines joined by two
  queues, with lost connections and crashes as possible events. `SessionRuns` -- runs that do happen, and when the
  last meeting is too early. `AnyPeer` -- what either driver says and does whatever the other end sends.
  `DriverLoops` -- the drivers' reading loops as written.
- `NetworkSession`, `NetworkRuns` -- the two drivers over the hostile network of `SecureChannel`, message by message,
  and that whatever a session can do happens there too.
- `Trees`, `TreeTheorems`, `Rebuild`, `TreePreservation` -- flattening a selection and rebuilding it.
- `Pin`, `Handshake`, `Endpoint` -- the verification code, the UKEY2 handshake, endpoint info and its parsers.
- `Refusals` -- which error is reported, exactly when, by the channel, the assemblers, the handshake, `prepare` and a
  frame.
- `Workers`, `Consent` -- the pool of connection workers and the user's decision.
- `FrameSize`, `Encoding` -- the encoded bytes of a file chunk, an acknowledgement and the envelope: their sizes, and
  that they read back field by field.

Random numbers, the clock and what reads return are inputs, and every theorem is about all of them. So are these
failures of the receiver's file system in everything below `Session`: looking at a folder or making it, opening a
part file or a text, and writing, syncing and renaming. Theorems that say when a transfer succeeds (`Fidelity`,
`Destinations`, `Interleaving`, `TreePreservation`) take frames whose handling meets no such failure, and the steps
of a session meet none after `prepare` but a crash of the receiver as a whole. Hashes, key derivation, the curve, base64url, UTF-8 and the sharing codec are parameters;
each theorem says what it asks of them (that decoding inverts encoding, that key agreement commutes).

## What turned out narrower than it looks

- `prepare` looks only at the disk when it chooses destinations, and nothing is there yet, so two entries of one
  name and folder share a destination and the second replaces the first: `Destinations.SharedDestination` is a run
  that succeeds and loses the first file, `TreePreservation.TwoRootsCollide` a selection that announces such a pair.
  Every file keeps its place exactly when files prepared onto one destination have the same bytes
  (`Destinations.PreparedFilesKeepTheirPlaces`).
- A file sent first in FILE chunks and then as one BYTES payload is committed longer than announced
  (`TransferInvariant.MixingSucceeds`); over a run, sizes and the byte counter are as announced exactly when no frame
  does that (`TransferInvariant.ReceiveAllSound`).
- The repository's README promises that `.part` files are removed on failure. `cleanup_parts` sees only entries
  still in the map: `PartFiles.PartCanStay` gives an input for which one stays, `PartFiles.FailedRunLeaves` says
  for every failing run exactly which one stays. A failing `prepare` cleans up nothing:
  `Preparation.FailedPrepareLeavesPartsIff` says exactly when it leaves some, `Preparation.RefusedTwinsLeaveParts`
  gives an input.
- And when the acceptance cannot be written after `prepare`, all its part files stay
  (`NetworkSession.UnsentAcceptanceLeavesParts`).
- `fs::write` follows links. When a link stands at the name picked for a text, the text goes where the link leads:
  `Containment.TextFollowsLink` is an input whose text is received without error outside the download directory.
  The disk outside stays as it was exactly when the step changes nothing or its bytes go inside
  (`Containment.TextStaysInsideIff`), and they go outside exactly when such a link leads there
  (`Containment.OnlyLinksLeadOut`). `Containment.NothingOutside` therefore asks that no text be announced or that no
  link in the download directory lead out of it. Part files and commits follow no links.
- The sender polls once more after its last chunk and may meet the receiver's Disconnection there: it then
  reports a failure although everything is committed. Every session whose files are delivered has such a run
  (`SessionRuns.LateMeetingHappens`); `SessionRuns.LateIff` says exactly when it comes to that.
- Success of `finalize_transfer` on a closed connection proves nothing. A lost connection is enough for it before the
  receiver has read a single frame of the files (`SessionRuns.SuccessWhileReceiving`), and without any fault it happens when the receiver has refused
  the files, say because one became shorter after it was announced (`SessionRuns.RefusalLooksLikeSuccess`). Success
  on a Disconnection frame does prove that everything is committed (`SessionTheorems.CommitConfirmation`), also over
  a hostile network (`NetworkSession.ConfirmedOverTheNetwork`).
- The handshake joins its two messages without their lengths. Bytes a decoder passes over can be moved from the end
  of one to the start of the other: both sides agree on keys and code and saw different messages
  (`Handshake.TranscriptCanShift`). They saw the same ones exactly when the two forms of the ClientInit are of one
  length (`Handshake.SameMessagesIff`).
- The window does not learn that a worker has died while its offer was shown. Until somebody clicks or the service is
  stopped every other offer is refused (`Consent.DeadWorkerKeepsTheSlot`).
- The 32-bit frame counter limits the number of reads: files that fit in every other way arrive exactly when their
  chunks do not use it up (`WireFidelity.ReadsWithinTheCounter`).
- The limit of 10,000 is looked at before every entry, folders included, so 10,000 files are accepted only if
  nothing is visited after the last of them (`TreePreservation.CollectAllIff`).
- The receiver's endpoint-info parser does not look at the hidden bit; the other two do (`Endpoint.ParsersAgree`).

## Model

| member | source | states |
|---|---|---|
| Transport.Stream.ReadExact | src/quick_share_transport.rs:33-43 | reading n bytes takes exactly the first n that will arrive, or reports the end of the stream when there are fewer |
| Transport.Stream.ReadFrame | src/quick_share_transport.rs:33-43 | reading a frame from the stream gives what `Read` says of the bytes still to come, and leaves its rest: a frame of 1 to 5 MiB, an invalid length, or end of file |
| Transport.Stream.WriteFrame | src/quick_share_transport.rs:45-53 | writing appends the big-endian length and the frame, and an empty or too long frame is refused with nothing written |
| Transport.ReadAfterWrite | src/quick_share_transport.rs:33-53 | a written frame is read back whole and what follows it stays untouched |
| Transport.WriteAfterRead | src/quick_share_transport.rs:33-53 | whatever `read_frame` accepts is exactly what `write_frame` would have put there |
| Transport.ReadAllAfterWriteAll | src/quick_share_transport.rs:33-53 | any list of frames written one after the other is read back by repeated reading, and then reading goes on with the trailing bytes |
| Transport.CutStreamIsPrefix | src/quick_share_transport.rs:33-53 | of a stream cut at any byte exactly the frames that arrived whole are read, then end of file |
| Transport.PrefixIsBigEndian | src/quick_share_transport.rs:33-53 | the four octets of a length write it most significant first, as every string of octets does |
| WireMessages.RepliesIff | src/quick_share_receiver.rs:529-542 | a frame is answered exactly when it is a keep-alive whose acknowledgement flag is not set, a missing one included; the answer is one keep-alive with the flag set and the same number, field by field |
| SecureChannels.SecureChannel.EncryptOfflineFrame | src/quick_share_crypto.rs:269-311 | the counter moves by one and the packet carries the frame under that number, unless the counter is at its 32-bit end, when nothing changes |
| SecureChannels.SecureChannel.DecryptOfflineFrame | src/quick_share_crypto.rs:313-359 | the object's new counters and its answer are those of the checks in their order: signature, schemes, IV, padding, sequence number, frame |
| SecureChannels.AcceptedIff | src/quick_share_crypto.rs:313-359 | a packet is accepted with a frame exactly when, for some IV of 16 octets, it is that frame and the next number, encrypted under the decryption key and that IV with both schemes in the header, and all of it signed under the receiving key |
| Refusals.PacketRefusedAs | src/quick_share_crypto.rs:313-359 | each error of `decrypt_offline_frame` has its exact condition: a wrong signature comes before everything in the contents, the end of the counter before the number, the number before the frame |
| SecureChannels.AcceptedIsNextSent | src/quick_share_crypto.rs:313-359 | in a sound network whatever is accepted is the next frame the peer sent, never a repeated, reordered, reflected or invented one |
| SecureChannels.StepPreserves | src/quick_share_crypto.rs:254-359 | every send and every delivery, of whatever packet the network may offer, keeps the channel invariant |
| SecureChannels.ChannelSafety | src/quick_share_crypto.rs:254-359 | over every run against a network that drops, repeats, reorders, reflects and injects, what each side accepted is a prefix of what the other sent, and no counter leaves 32 bits |
| SecureChannels.ExactAcceptance | src/quick_share_crypto.rs:313-359 | in every reachable state a delivery is accepted exactly when it is the peer's next packet; it moves the receive counter by one and nothing else, and a refused one changes nothing |
| Layers.StackDelivers | src/quick_share_sender.rs:750-765 | frames encrypted and written at one end and read and decrypted at the other, over a stream cut after any number of bytes, come out as exactly those whose last byte arrived, in order, then end of stream |
| WireFidelity.SendEncryptedOffline | src/quick_share_sender.rs:750-758 | one frame is encrypted and written: counter and stream change as `SendAll` says, refusals included |
| WireFidelity.FramesArrive | src/quick_share_sender.rs:750-765 | of the frames of a file loop with names up to 4 MiB, exactly as many are written as the 32-bit counter lets through, every one fits its wire frame, and the other end decrypts the first of them and nothing else, all of them when the connection is not cut |
| WireFidelity.WireToDisk | src/quick_share_sender.rs:229-259 | from the files read to the files on disk over bytes: for every cutting by reads, any acknowledgements between, and a connection cut anywhere, the receiver succeeds exactly when the files fit and no file frame is missing, and then every file is committed, in place and accounted for |
| WireFidelity.ReadsWithinTheCounter | src/quick_share_crypto.rs:273-276 | over a whole connection delivery succeeds exactly when the files fit and one frame a read and one more a file are within what the counter has left |
| Assembler.ReceiverAssembler.Push | src/quick_share_receiver.rs:565-612 | the receiver's buffers and answer after one chunk, for every malformed, misplaced, oversized, partial and final chunk |
| Assembler.SenderAssembler.Push | src/quick_share_sender.rs:772-814 | the same for the sender's, which lacks the check on the running size and hands back no id |
| Assembler.PayloadCompletesIff | src/quick_share_receiver.rs:573-611 | a payload comes out exactly when every chunk starts where the bodies before it end, declares a size within 5 MiB -- for the receiver without passing it -- and the last one declares the size that has come together; it is the bodies in order |
| Refusals.ChunkRefusedAs | src/quick_share_receiver.rs:573-611 | each error of the assemblers has its exact condition, and the payload's buffer is dropped at a wrong offset or a wrong end, kept when the receiver finds it too long, and untouched before |
| Assembler.Projection | src/quick_share_receiver.rs:565-612 | in every error-free interleaved stream each id's completed payloads and its leftover buffer are those of its own chunks pushed alone |
| Assembler.ErrorFreeIff | src/quick_share_receiver.rs:565-612 | an interleaved stream is free of errors exactly when every chunk names a payload and every id's own stream is free of errors |
| Assembler.ReceiverBuffersBounded | src/quick_share_receiver.rs:581-602 | whatever arrives, no buffer the receiver keeps and no payload it completes exceeds 5 MiB |
| Assembler.AgreementIff | src/quick_share_receiver.rs:589-611 | the receiver accepts a stream exactly when the sender would and no chunk overruns its declared size, and then both give the same outputs and buffers |
| Assembler.CompleteStreamsAgree | src/quick_share_sender.rs:794-813 | a stream the sender accepts, whose declared sizes are constant and whose payloads all complete, is accepted by the receiver with the same outputs |
| Assembler.AssemblersDiffer | src/quick_share_sender.rs:794-813 | a one-chunk stream that the sender accepts and the receiver refuses |
| Assembler.SharingChunksReassemble | src/quick_share_receiver.rs:481-527 | the two chunks of a sharing frame, with either side's terminator, reassemble in either assembler to the original body and leave every other buffer alone |
| Paths.SanitizeIsProjection | src/quick_share_receiver.rs:1112-1136 | sanitising is idempotent, its results are ordinary names, and its fixed points are exactly the ordinary names |
| Paths.RefusedIff | src/quick_share_receiver.rs:1112-1136 | a component is refused exactly when it is empty, "." or "..", or printable white space only |
| Paths.FileNameIsComponent | src/quick_share_receiver.rs:1103-1136 | the file name kept is an ordinary name without separators, and an ordinary name is kept unchanged |
| Paths.FileNameIsLeaf | src/quick_share_receiver.rs:1103-1110 | of a name with separators of either kind what stands after the last one is kept, unchanged if it is an ordinary name |
| Paths.SanitizedShape | src/quick_share_receiver.rs:1116-1130 | forbidden characters and control characters are replaced one by one and all others stay |
| Paths.RefusedNames | src/quick_share_receiver.rs:1112-1136 | the same refusal with the 19 white-space characters that are not controls written out |
| Paths.EnteredBelow | src/quick_share_receiver.rs:1138-1161 | the folder entered lies below the download directory, one ordinary name a step, and entering only ever adds directories below it |
| Paths.FindUniqueDestination | src/quick_share_receiver.rs:1163-1185 | the loop over numbered names finds the plain name, the first free number below 2^32-1, or the random last resort |
| Paths.FirstFreeIsLeast | src/quick_share_receiver.rs:1173-1183 | the number found is free and the least free one, and none is found only when all are taken |
| Paths.DestinationIs | src/quick_share_receiver.rs:1163-1185 | the destination is the plain name if it is free, else the name with the least number from 1 up that is, and with all below 2^32-1 taken the random name |
| Paths.DestinationShape | src/quick_share_receiver.rs:1163-1185 | a destination is one ordinary name below its directory, and it exists already only when the plain name and every numbered one are taken |
| Paths.NumberBeforeExtension | src/quick_share_receiver.rs:1163-1180 | the number goes before the last extension, and after the whole name when there is none or only a dot in front |
| Paths.DecimalReads | src/quick_share_receiver.rs:1173-1184 | numbers in names are decimal, without a leading zero, and read back as themselves |
| Paths.WritesWhere | src/quick_share_receiver.rs:1085-1085 | bytes are put into a regular file that is there or into a new one, at the path itself or where a link leads and a folder is |
| Paths.RealPathIff | src/quick_share_receiver.rs:1167-1176 | a path leads to the end of its chain of links exactly when there are at most 40 of them |
| Receiving.FileSystem.EnterParent | src/quick_share_receiver.rs:1138-1161 | the loop over folder names leaves the disk and gives the folder that `SafeParentDirectory` says, or its error: an unsafe name or something in the way, or a folder that cannot be looked at or made |
| Refusals.FoldersRefusedAs | src/quick_share_receiver.rs:1138-1161 | entering folders fails as unusable exactly when, all names before being entered, the next folder cannot be looked at or made |
| Receiving.AddFile | src/quick_share_receiver.rs:774-820 | one turn of the first loop of `prepare`: disk, entry and total, or the first error met, failing folders and part files included |
| Receiving.PrepareTransfer | src/quick_share_receiver.rs:765-868 | `prepare` as loops over files and texts leaves the disk and gives the transfer or the error of `Transfers.Prepare` |
| Tables.PrepareTextsIff | src/quick_share_receiver.rs:821-851 | the texts are accepted exactly when each has an id of its own, among files too, and a size of 0 to 5 MiB, and the sum stays within 64 bits; then the table holds exactly one entry for each, with its size and whether it is a URL |
| Tables.PreparedFileTable | src/quick_share_receiver.rs:774-820 | once the files are accepted every one has an entry of its own, with its size, nothing received and the part file its process and random number name, and nothing else is new |
| Tables.PrepareIff | src/quick_share_receiver.rs:765-868 | with its files accepted an introduction is, exactly when it announces something, its texts are in order and all sizes add up to at most 100 GiB; the transfer then holds those tables, the previews and that sum |
| Refusals.FileRefusedAs | src/quick_share_receiver.rs:774-820 | a file entry is refused as too large exactly when it has an id and a size and the sum leaves 64 bits, for the disk exactly when its folder or its part file fails, and as unsafe otherwise; the tables stay as they were |
| Refusals.FirstRefusedFile | src/quick_share_receiver.rs:774-820 | the files are refused with an error exactly when some entry is, with that error, all before it being accepted |
| Refusals.PrepareRefusedAs | src/quick_share_receiver.rs:765-868 | an empty introduction is unsafe and changes nothing; then counts the first file refused, then the texts, then the sum |
| Preparation.PartNamesDiffer | src/quick_share_receiver.rs:797-801 | part files of different processes or different random numbers have different names |
| Preparation.TextNameReads | src/quick_share_receiver.rs:1070-1081 | a text is named by the time in decimal digits and by an ending that tells a URL |
| Receiving.PendingTransfer.Commit | src/quick_share_receiver.rs:1021-1026 | syncing and renaming an entry already removed from the map, with both ways of failing |
| Receiving.PendingTransfer.TakeFileChunk | src/quick_share_receiver.rs:968-1029 | one FILE chunk: every refusal, the write, the counters, and the commit on the last chunk |
| Receiving.PendingTransfer.TakeFileBytes | src/quick_share_receiver.rs:1031-1059 | a file in one BYTES payload, removed from the map before its size is looked at |
| Receiving.FileSystem.WriteNew | src/quick_share_receiver.rs:1085-1085 | writing a text follows the links from its path to their end and puts the bytes there, fails when there are too many, when a directory or no folder is there or the opening fails, and leaves what was written when writing fails |
| Receiving.PendingTransfer.TakeText | src/quick_share_receiver.rs:1061-1094 | a text is written at the name picked in the download directory, through a link if one stands there, and that name is handed over; or the size is wrong or the disk fails, and it is gone from the table |
| Receiving.PendingTransfer.TakePayload | src/quick_share_receiver.rs:902-951 | a payload frame goes to the file, the assembler, the text or the bin, or is refused |
| BytesPayloads.TextArrives | src/quick_share_receiver.rs:902-1094 | a text whose chunks are in their places, and as long as announced, is written with exactly their bytes where its name leads and handed over under that name; it leaves the table, is counted, and nothing else changes |
| BytesPayloads.FileArrivesAsBytes | src/quick_share_receiver.rs:902-1059 | a file that arrives whole in BYTES chunks is put in place as what its part file held and then their bytes; the part file is gone and nothing else changes |
| BytesPayloads.OthersAreDropped | src/quick_share_receiver.rs:930-951 | any other completed payload is dropped, a listed preview is crossed off, and nothing else changes |
| Receiving.PendingTransfer.TakeFrame | src/quick_share_receiver.rs:881-963 | one turn of the loop of `receive_all`, with the acknowledgement it sends |
| Refusals.FileChunkRefusedAs | src/quick_share_receiver.rs:968-1029 | a FILE chunk is refused by the protocol exactly when it is out of order or ends its file early, and fails with the disk exactly when writing or, at the end, putting the file in place does |
| Refusals.PayloadRefusedAs | src/quick_share_receiver.rs:902-1059 | a payload of another type is refused by the protocol, a BYTES chunk with the error of the assembler, a completed one by the protocol exactly when it has not the size of the file or text it is for |
| Refusals.FrameRefusedAs | src/quick_share_receiver.rs:881-963 | a Disconnection, and nothing else, ends the transfer as disconnected; other frames without a payload are passed over |
| Refusals.BrokenChunkLeaves | src/quick_share_receiver.rs:1000-1007 | a chunk whose write fails leaves what was written in the part file and changes nothing else |
| Refusals.BrokenTextLeaves | src/quick_share_receiver.rs:1061-1085 | a text whose write fails leaves what was written where it was to be put; it has left the table and nothing is handed over |
| Refusals.RunEndsAs | src/quick_share_receiver.rs:870-965 | a run ends with the error of the frame that fails, well when nothing is left pending, and else as a connection that ended too early |
| Receiving.PendingTransfer.Run | src/quick_share_receiver.rs:870-965 | the loop stops at the first moment nothing is pending or at the first error, having read, changed and answered exactly what `ReceiveAll` says |
| Receiving.PendingTransfer.Cleanup | src/quick_share_receiver.rs:1096-1100 | exactly the part files of the entries still in the map are removed |
| Refusals.FailingCleansUp | src/quick_share_receiver.rs:367-371 | a receiver that fails while it receives, for whatever reason, leaves its disk without the part files listed at that moment and otherwise as it was |
| Receiving.Accept | src/quick_share_receiver.rs:363-372 | from acceptance to the end: prepare, receive everything, and on an error remove the part files still listed; if no text is announced or no link in the download directory leads out of it, nothing outside changes, and all paths handed over lie below it |
| Containment.PrepareContained | src/quick_share_receiver.rs:765-868 | `prepare`, successful or not, touches nothing outside the download directory, and every destination and part file lies below it, one ordinary name a step |
| Containment.HandleContained | src/quick_share_receiver.rs:870-1094 | any frame, whatever it says and however it fails, keeps this while no text is pending or no link leads out: pending and handed-over paths lie below, committed bytes inside, and the disk outside is as it was |
| Containment.NothingOutside | src/quick_share_receiver.rs:363-372 | whatever is introduced and whatever arrives, every destination and part file is the download directory followed by ordinary names and `prepare` changes nothing outside; neither does any run with its cleanup, if no text is announced or no link in the download directory leads out of it |
| Containment.TextStaysInsideIff | src/quick_share_receiver.rs:1081-1085 | the step that writes a text, successful or not, leaves the disk outside as it was exactly when it changes nothing or its bytes go inside; a successful one changes nothing exactly when the file held these very bytes |
| Containment.OnlyLinksLeadOut | src/quick_share_receiver.rs:1163-1185 | and its bytes go outside exactly when a link stands at the name picked and leads there |
| Containment.TextFollowsLink | src/quick_share_receiver.rs:1081-1085 | an input: a dangling link with the name of the text, and the text is received without error in a new file outside |
| SessionContainment.SessionStaysInside | src/quick_share_receiver.rs:279-376 | in every run of a session, with any faults, nothing outside changes: of a proper sender, which announces no texts, on every disk, and of any other if no link in the download directory leads out of it |
| TransferInvariant.HandleSound | src/quick_share_receiver.rs:870-1094 | every successful frame keeps: bytes received equal those pending plus those committed, declared sizes add up to the total, part files hold what was received, committed files hold what was last committed there, ids stay disjoint; sizes stay as declared exactly when the frame does not mix FILE and BYTES |
| TransferInvariant.ReceivedWithinTotal | src/quick_share_receiver.rs:1000-1007 | the bytes received never pass twice the offered total, never the total itself when no file was sent both ways, so the saturating addition never saturates |
| TransferInvariant.ReceiveAllSound | src/quick_share_receiver.rs:870-965 | a successful `receive_all` leaves nothing pending and everything accounted for; every commit has its declared size, and the counter equals the offered total, exactly when no frame mixed the two ways, and otherwise the counter is beyond |
| TransferInvariant.MixingSucceeds | src/quick_share_receiver.rs:1031-1059 | an input that mixes them and succeeds: two bytes are committed where one was announced |
| Preparation.PrepareEstablishesSound | src/quick_share_receiver.rs:765-868 | whatever introduction `prepare` accepts, the transfer starts in balance, within 100 GiB, with one new empty part file per file and nothing else new but folders |
| Preparation.EntersIff | src/quick_share_receiver.rs:1138-1161 | the folders of an entry can be entered exactly when every name can be sanitised, only directories stand on the way and each folder can be looked at or made, and the directories made are on that way |
| Preparation.FailedPrepareLeavesPartsIff | src/quick_share_receiver.rs:774-864 | a failing `prepare` leaves a part file exactly when its first entry has an id, a size, a valid name and a folder that can be entered and made, and its part file is free, not on the way to that folder, and can be opened |
| Preparation.RefusedTwinsLeaveParts | src/quick_share_receiver.rs:802-820 | an input: two entries of one id are refused and both part files stay |
| PartFiles.PreparedIsTracked | src/quick_share_receiver.rs:797-820 | of the regular files `prepare` made, before the first frame every one is the part file of a file pending |
| PartFiles.LosesPartIff | src/quick_share_receiver.rs:1012-1059 | a frame fails after taking an entry out of the map exactly when it is the last chunk of a file, in order and of the right size, or a completed byte payload for a file, and the size is wrong, writing, syncing or renaming fails, or a directory is in the way |
| PartFiles.HandleTracked | src/quick_share_receiver.rs:902-1026 | after every successful frame the part files on disk are exactly those of the files still pending |
| PartFiles.FailedRunLeaves | src/quick_share_receiver.rs:368-372 | after any failed run and cleanup, the only part file that can remain is that of the entry the failing frame had removed, and it does remain; what was committed is intact, except what a text was being written over when the disk failed |
| PartFiles.OrdinaryFailuresLeaveNothing | src/quick_share_receiver.rs:1096-1100 | after a lost connection, a Disconnection, an assembler error or a refused FILE chunk no part file remains |
| PartFiles.PartCanStay | src/quick_share_receiver.rs:1036-1044 | an input for which a part file survives cleanup |
| Sending.SendFile | src/quick_share_sender.rs:231-257 | the read loop emits one chunk per read at its running offset and then the empty last chunk, and every frame it adds is headed by the file's id, the FILE type and the file's whole size |
| Sending.SendPreparedFiles | src/quick_share_sender.rs:229-259 | the files are sent one after the other, the bytes sent are counted, and every frame added is headed by one of the files |
| Sending.FileFrameAt | src/quick_share_sender.rs:622-653 | frame i of a file carries its id, type and whole size, the bytes of read i at the offset of all reads before it, and the mark of the last chunk on the empty one alone |
| Prelude.AsI64Wraps | src/quick_share_sender.rs:642-644 | an offset is written as the one 64-bit number congruent to it, itself up to 2^63-1 |
| Sending.SentFramesAt | src/quick_share_sender.rs:229-259 | frame i of file k stands right after the frames of the files before it, under the header of file k |
| Fidelity.NoiseIsHarmless | src/quick_share_receiver.rs:887-900 | keep-alives and unknown frames, anywhere, change nothing of what is received |
| Fidelity.RepliesAreAcks | src/quick_share_receiver.rs:887-900 | the receiver answers exactly the keep-alives it reads that are not acknowledgements, in order, and what it does not read is the end of what arrived |
| Fidelity.FileDelivered | src/quick_share_sender.rs:231-257 | however the reads cut a file, its frames append the bytes read to the part file and commit it, or make the run fail when the length is not the declared one or a directory is in the way |
| Fidelity.DeliveryIff | src/quick_share_receiver.rs:870-965 | from any sound transfer that expects the files the run succeeds exactly when all of them fit, and then everything is committed and counted |
| Fidelity.EndToEnd | src/quick_share_sender.rs:229-259 | once `prepare` has accepted the sender's introduction: for every cutting by reads, empty files included, and every interleaving of harmless frames, the receiver succeeds exactly when every file was read to its declared length and no destination is a directory; then the files are committed in send order with exactly the bytes read, the counters agree, and every destination holds what was last committed there |
| Destinations.KeptIff | src/quick_share_receiver.rs:1024-1026 | a committed file still holds its bytes exactly when the last commit at its path has that content |
| Destinations.FileKeptIff | src/quick_share_receiver.rs:1024-1026 | after a successful transfer a file keeps its place exactly when the last file prepared onto its destination has the same bytes |
| Destinations.PreparedFilesKeepTheirPlaces | src/quick_share_receiver.rs:796-796 | from `prepare` on, every destination holds its own file exactly when any two files prepared onto one destination have the same bytes |
| Destinations.SharedDestination | src/quick_share_receiver.rs:796-796 | two files of one name arrive without error, both are handed over, and only the bytes of the second are left |
| Interleaving.HandleViews | src/quick_share_receiver.rs:902-951 | a payload frame does to its own id what that id's own machine says, including failing, and nothing to any other id |
| InterleavingTheorems.RunProjects | src/quick_share_receiver.rs:870-965 | a mixed run succeeds exactly when the chunks of every single id succeed alone, and then every id ends as its own chunks make it end |
| InterleavingTheorems.CompletesIff | src/quick_share_receiver.rs:880-880 | a mixed stream completes the transfer exactly when every id's own stream completes that id |
| InterleavingTheorems.InterleavingIndependence | src/quick_share_receiver.rs:870-1059 | any two interleavings of the same per-id streams both succeed if the streams complete, commit the same contents for every id, at the same destination for every file, and count the same bytes |
| InterleavingTheorems.FileStreamContent | src/quick_share_receiver.rs:968-1029 | what a complete stream of FILE chunks commits is what the part file held and then its bodies in order, of the declared size |
| InterleavingPlaces.SameFilesOnDisk | src/quick_share_receiver.rs:1021-1026 | two interleavings of the same per-id streams leave an offered file with the same bytes at its place, unless another pending file has that destination or, with texts offered, a text could be put there or a link leads there |
| SessionTheorems.StepKeeps | src/quick_share_receiver.rs:279-376 | every step of either driver and every fault keeps the invariant of a session: where each side stands, what each queue holds by message number, and what is on disk |
| SessionTheorems.Reachable | src/quick_share_sender.rs:148-264 | every state any run reaches satisfies it, and only faults make a run faulty |
| SessionTheorems.OnlyAcksWait | src/quick_share_receiver.rs:319-357 | while the user decides nothing but acknowledgements can arrive, so the consent loop, which drops what it reads, loses nothing |
| SessionTheorems.CommitConfirmation | src/quick_share_sender.rs:559-580 | in every run, whatever the faults and whether or not the files can be delivered, when the closing loop ended on a Disconnection frame, or the last poll met one, the user had accepted, the files could be delivered, and the receiver had committed every file with the bytes the sender read, and closed |
| SessionTheorems.DeclinedTouchesNothing | src/quick_share_receiver.rs:359-362 | a declined session never changes the receiver's disk, whatever the faults |
| SessionTheorems.UnconfirmedMeansRefused | src/quick_share_sender.rs:596-606 | without faults the sender succeeds unconfirmed only when the receiver has refused files that cannot be delivered |
| SessionTheorems.NeverStuck | src/quick_share_sender.rs:148-264 | in every reachable state in which not both sides have ended, faults or not, some side can take a step |
| SessionTheorems.StepProgress | src/quick_share_receiver.rs:279-376 | every step that is not a fault lowers a rank that no fault raises; acknowledgements are never acknowledged |
| SessionTheorems.RunsAreBounded | src/quick_share_sender.rs:148-264 | no run has more steps than the rank of its first state |
| SessionTheorems.Completion | src/quick_share_receiver.rs:359-376 | a fault-free run is bounded and never stuck before both sides have ended, and then one of three things has happened: both report that the user declined and the disk is as it was; or the files can be delivered, all are committed, and the sender has its confirmation or met it too early; or they cannot, and the receiver has failed and the sender has failed or succeeded unconfirmed |
| SessionRuns.LateIff | src/quick_share_sender.rs:655-702 | once the receiver has closed while the sender is at its files, every fault-free continuation that ends fails exactly when the sender is in its last poll and fewer keep-alives stand before the Disconnection than the poll has turns left |
| SessionRuns.LateMeetingHappens | src/quick_share_sender.rs:698-702 | every accepted session whose files can be delivered has a fault-free run from the start in which everything is committed and the sender fails |
| SessionRuns.ConfirmationHappens | src/quick_share_sender.rs:559-580 | and one in which it succeeds with its confirmation |
| SessionRuns.SuccessWhileReceiving | src/quick_share_sender.rs:596-606 | every accepted session whose `prepare` succeeds has a run from the start, with one lost connection, in which the sender succeeds unconfirmed while the receiver is still receiving and has read no frame of the files |
| SessionRuns.RefusalLooksLikeSuccess | src/quick_share_sender.rs:596-606 | every accepted session whose `prepare` succeeds and whose files cannot be delivered has a fault-free run in which the sender succeeds although the receiver has refused the files |
| AnyPeer.WhatTheSenderSays | src/quick_share_sender.rs:148-264 | against any peer whatever: the sender says nothing of the files before it has heard a key, a result and an acceptance, then its frames in order, and last the request for a safe disconnection exactly when the peer's version is at least 1; when it reports success it has said all of that |
| AnyPeer.WhatTheReceiverDoes | src/quick_share_receiver.rs:279-376 | against any peer whatever: the disk changes only after an offer made in order that the user accepts, the answer is sent only after such an offer, and when it closes it has sent its greeting, the acceptance and one plain Disconnection |
| NetworkSession.StepStaysOk | src/quick_share_receiver.rs:279-376 | every write, read, turn, end and failure of either driver over the hostile network keeps this: seen through its lines the system is a session in order, and the channel invariant holds |
| NetworkSession.ConfirmedOverTheNetwork | src/quick_share_sender.rs:559-580 | whatever the network drops, repeats, reorders, reflects or injects without forging, and whatever fails on either side: when the sender has taken a Disconnection for the end, the user had accepted, the files could be delivered, and the receiver had committed them all with the bytes read and closed |
| NetworkSession.DeclinedOverTheNetwork | src/quick_share_receiver.rs:359-362 | over that network a declined session never changes the receiver's disk |
| NetworkRuns.SessionsRunOverTheNetwork | src/quick_share_sender.rs:148-264 | every fault-free run of a session is also a run over the network, written and delivered packet by packet, that leaves both sides where the session leaves them, if the 32-bit counters last |
| NetworkRuns.NetworkConfirms | src/quick_share_sender.rs:559-580 | and so every accepted session whose files can be delivered has a run over the network that ends confirmed |
| NetworkSession.UnsentAcceptanceLeavesParts | src/quick_share_receiver.rs:363-365 | when the acceptance cannot be written every part file `prepare` has made stays |
| DriverLoops.ReceiverReadsSharing | src/quick_share_receiver.rs:615-661 | the loop returns what repeating the one-message step gives, has read no more, and has answered what it says |
| DriverLoops.SenderReadsSharing | src/quick_share_sender.rs:816-857 | the same of the sender's loop with the sender's assembler |
| DriverLoops.ReadingEnds | src/quick_share_receiver.rs:615-661 | after any messages passed over, a message that does not decrypt, one without contents and a Disconnection each end the loop with their own error, the keep-alives before answered and nothing after read |
| DriverLoops.SharingOnTheWire | src/quick_share_receiver.rs:481-527 | a sharing frame goes out as the whole body at offset 0 and a terminator at its length, both under one id, type BYTES and the whole size; the sender's terminator has an empty body and the receiver's none |
| DriverLoops.WaitingTurn | src/quick_share_receiver.rs:319-357 | a turn of the consent loop sends its own unnumbered keep-alive when it is time to, then the answer to a waiting keep-alive that asks, and drops every other message; one that does not decrypt ends the session with the disk as it was |
| Refusals.ReceiverOutOfOrder | src/quick_share_receiver.rs:299-318 | a sharing frame of another type than the one waited for is a protocol error, so is an introduction without contents, and one that lacks a file's name or any size or has a negative one is unsafe; nothing is sent |
| Refusals.SenderOutOfTurn | src/quick_share_sender.rs:176-228 | what the sender fails with at each point when something else arrives; a response that is no acceptance is a rejection |
| DriverLoops.SharingFrameArrives | src/quick_share_sender.rs:715-748 | a sharing frame of either side is read whole by either loop through any messages it passes over -- keep-alives, unknown frames, for the receiver payloads of another type -- nothing after it is read, and every keep-alive that asks is answered |
| DriverLoops.Finalize | src/quick_share_sender.rs:551-619 | the closing loop is the repetition of the machine's closing step, ended by the end of the stream |
| DriverLoops.ClosingIff | src/quick_share_sender.rs:551-619 | closing is confirmed exactly when the first message that ends the loop is a Disconnection, fails exactly when it does not decrypt, and succeeds unconfirmed exactly when there is none |
| DriverLoops.ClosingSends | src/quick_share_sender.rs:551-592 | when message k is the first to end the closing loop, what is sent is the answers to the keep-alives before it and then one Disconnection, acknowledging and not requesting, exactly when message k is a Disconnection that requests and does not acknowledge; what follows is left unread |
| DriverLoops.OpenEndSends | src/quick_share_sender.rs:581-606 | when no message ends it, the answers to all |
| DriverLoops.AcknowledgePending | src/quick_share_sender.rs:655-713 | the poll is the repetition, at most eight times, of the machine's polling step on what is waiting |
| DriverLoops.PollReadsAtMostItsBudget | src/quick_share_sender.rs:659-659 | a poll reads at most eight messages and fails on a Disconnection exactly when one is the first to end it among those eight |
| DriverLoops.EightTurns | src/quick_share_sender.rs:655-660 | every poll starts with eight turns |
| DriverLoops.PollSends | src/quick_share_sender.rs:655-713 | a poll answers the keep-alives it reads and leaves what follows, up to the first message that ends it, the end of what waits, or the end of its budget |
| Trees.SortIncreasing | src/quick_share_sender.rs:380-380 | sorting by name puts distinct names in strictly increasing order |
| Trees.LessIff | src/quick_share_sender.rs:380-380 | a name is smaller exactly when, after a common start, it ends first or has the smaller character |
| Trees.Selection.Add | src/quick_share_sender.rs:335-385 | the recursive walk pushes into the list exactly the candidates of `Collect`, or stops with its error |
| Trees.FreshId | src/quick_share_sender.rs:305-313 | the loop over draws gives what the recursive form gives |
| Trees.FirstFreshIff | src/quick_share_sender.rs:305-313 | the id is the n-th draw, cut to 63 bits, exactly when it is neither zero nor taken and every earlier one is |
| Trees.PrepareSelected | src/quick_share_sender.rs:266-333 | `prepare_files` as loops gives the files or the error of `PrepareOutgoing` |
| TreeTheorems.CollectIff | src/quick_share_sender.rs:335-385 | the walk returns all files below with their folders exactly when only regular files and folders are met and fewer than 10,000 files stand before the last entry visited |
| TreeTheorems.WalkIsEnumeration | src/quick_share_sender.rs:377-383 | the walk lists exactly the regular files that can be reached by name, each once, in increasing order of their paths |
| TreePreservation.CollectAllIff | src/quick_share_sender.rs:270-273 | the same condition, exactly, for several selected paths |
| TreePreservation.AssignMeans | src/quick_share_sender.rs:280-331 | payload ids are positive and distinct, names, folders and sizes are those of the files, and the sizes stay within 100 GiB |
| TreePreservation.PrepareOutgoingIff | src/quick_share_sender.rs:266-333 | `prepare_files` succeeds exactly when the walk finds files, every one has a name, their sizes add up to at most 100 GiB, and fresh ids are drawn |
| Rebuild.ParentIsEntered | src/quick_share_receiver.rs:1138-1161 | splitting and entering undoes the joining of folder names |
| Rebuild.TreeIsRebuilt | src/quick_share_receiver.rs:774-820 | `prepare` gives every file of a prefix-free list of ordinary paths, whose folders can be made, exactly that path below the download directory |
| TreePreservation.TreePreserved | src/quick_share_sender.rs:266-385 | flattening a selection and preparing it gives every regular file its own relative path, once, in order, all different |
| TreePreservation.TreeArrives | src/quick_share_receiver.rs:870-1029 | and after a successful transfer every file stands at its relative path with exactly the bytes read |
| TreePreservation.TwoRootsCollide | src/quick_share_sender.rs:370-373 | two selected folders of one name announce two files of one name and folder |
| Pin.MultiplierIsPower | src/quick_share_crypto.rs:460-460 | the multiplier at step i is 31^i modulo 9973 |
| Pin.SignedOctet | src/quick_share_crypto.rs:458-458 | an octet counts as the one number from -128 to 127 congruent to it |
| Pin.HashIsPolynomial | src/quick_share_crypto.rs:458-459 | the running hash is congruent to the unreduced polynomial sum of the signed bytes |
| Pin.CodeIsResidueOrComplement | src/quick_share_crypto.rs:455-463 | the code is that sum modulo 9973, or its complement exactly when the truncated remainder is negative |
| Pin.PinCode | src/quick_share_crypto.rs:455-463 | for every byte string no intermediate value leaves 32 bits and the result is four digits that read as the residue or its complement |
| Handshake.SignedCoordinate | src/quick_share_crypto.rs:373-380 | a zero octet is put first exactly when the top bit is set |
| Handshake.UnsignedCoordinate | src/quick_share_crypto.rs:401-413 | the value is copied to the end of a buffer of 32 zeros |
| Handshake.CoordinateRoundTrip | src/quick_share_crypto.rs:373-413 | a coordinate written with its sign octet is read back as itself and writes the same number |
| Handshake.AcceptedCoordinate | src/quick_share_crypto.rs:401-413 | a peer's coordinate is accepted exactly when it is 1 to 32 octets, or 33 with a leading zero, and keeps its big-endian value |
| Handshake.KeyOnTheWire | src/quick_share_crypto.rs:373-399 | a public key goes out with its type and two coordinates of unchanged value that are not negative as signed numbers |
| Handshake.AcceptedKeyIff | src/quick_share_crypto.rs:382-413 | a peer's key is accepted as a point exactly when its type is that of the curve, both coordinates are of an accepted length and write those of the point, and the point is on the curve |
| Handshake.KeysOfEachSide | src/quick_share_crypto.rs:415-445 | the server writes under the encryption and signing keys labelled "server" and reads under those labelled "client", the client the other way round, each key and the authentication key written out as derivations from secret, joined messages, salts and labels |
| Handshake.InitiatorHolds | src/quick_share_crypto.rs:111-149 | a completed initiator holds the client's keys for the hash of the agreed secret and ClientInit followed by ServerInit, and its code is that of the authentication key |
| Handshake.ResponderHolds | src/quick_share_crypto.rs:203-243 | a completed responder holds the server's keys for the same two messages, and its code is that of the authentication key |
| Handshake.AcceptsIff | src/quick_share_crypto.rs:152-199 | a ClientInit is accepted exactly when it is one, of version 1, with 32 random octets and the protocol's name, and the first entry for the cipher holds 64 octets, which are kept as the commitment |
| Handshake.TakesServerInitIff | src/quick_share_crypto.rs:111-149 | a ServerInit is taken exactly when it is one, of version 1, with 32 random octets, for the cipher, and its key is accepted |
| Handshake.TakesClientFinishIff | src/quick_share_crypto.rs:203-243 | a ClientFinish is taken exactly when it hashes to the commitment, is one, and its key is accepted |
| Refusals.ClientInitRefusedAs | src/quick_share_crypto.rs:152-199 | a ClientInit of another type is unexpected, contents that do not decode are malformed, and everything else wrong with it is invalid |
| Refusals.ServerInitRefusedAs | src/quick_share_crypto.rs:111-149 | the type of a ServerInit is looked at before its fields and these before its key, each with its own error |
| Refusals.ClientFinishRefusedAs | src/quick_share_crypto.rs:203-243 | the commitment of a ClientFinish is looked at before anything in it, then its type, then its key |
| Handshake.WhatGoesOut | src/quick_share_crypto.rs:70-109 | what an initiator and a responder write, field by field, the commitment being the hash of the very ClientFinish that follows |
| Handshake.MirroredIff | src/quick_share_crypto.rs:415-445 | two derivations give mirrored keys with different signing keys exactly when secret and transcript are the same |
| Handshake.HandshakeAgreement | src/quick_share_crypto.rs:70-243 | over an untouched connection both sides complete with mirrored keys, equal authentication keys and equal codes |
| Handshake.OnlyTheCommittedFinish | src/quick_share_crypto.rs:207-236 | the responder completes exactly on messages with the committed hash that carry a valid key, the committed one among them |
| Handshake.TamperingSeparatesKeys | src/quick_share_crypto.rs:111-149 | whatever crossed the wire, two completed sides have mirrored keys exactly when they share the secret and joined the two messages they saw to the same bytes |
| Handshake.SameMessagesIff | src/quick_share_crypto.rs:139-140 | two sides with mirrored keys saw the same two messages exactly when the two forms of the ClientInit are of one length |
| Handshake.TranscriptCanShift | src/quick_share_crypto.rs:235-236 | bytes that the decoder passes over, appended to the ClientInit and put before the ServerInit: both sides complete with mirrored keys and equal codes, and each message differs |
| Endpoint.Build | src/quick_share.rs:92-120 | the bytes pushed are the instance name and the endpoint info of the given parts, and names of 0 or more than 255 bytes are refused |
| Endpoint.DecryptHiddenName | src/quick_share_qr.rs:192-225 | the scanning loop gives the first record that decrypts to a name |
| Endpoint.EndpointIfTokenMatches | src/quick_share_qr.rs:150-178 | the scanning loop terminates and gives the visible name exactly when a record matches, or the hidden one |
| Endpoint.FirstHitIff | src/quick_share_qr.rs:200-224 | a scan gives x exactly when the bytes begin with whole records of which the last is the first to hit, with x |
| Endpoint.HiddenNameFoundIff | src/quick_share_qr.rs:192-225 | a hidden name is found exactly when whole records are followed by one of type 1 with a nonce of 12 octets and the sealing, under the name key with the token as associated data, of that name, and none of the records before is such a record of any name |
| Endpoint.FirstOctet | src/quick_share_qr.rs:179-190 | the first octet is three bits, the hidden bit, the type in three bits, and one bit |
| Endpoint.DeviceCodes | src/quick_share_discovery.rs:88-105 | the numbers of the four device types, in what is written and in what is read; any other number reads as unknown |
| Endpoint.TokenFoundIff | src/quick_share_qr.rs:165-177 | a token is found exactly when the bytes begin with whole records one of which is of type 1 with the token |
| Endpoint.ParsersAgree | src/quick_share_discovery.rs:88-105 | the three parsers agree on every byte string whose hidden bit is clear; with it set two refuse and the receiver's goes on as if it were clear |
| Endpoint.EndpointRoundTrip | src/quick_share.rs:109-119 | for every valid name, type and list of records all parsers recover name and type, and the search succeeds exactly when a record is of type 1 with the token |
| Workers.Pool.Reap | src/bin/hirodrop-gui.rs:2622-2630 | the scan with `swap_remove` asks every handle exactly once, joins exactly those that answer finished and keeps the others |
| Workers.Pool.Serve | src/bin/hirodrop-gui.rs:2621-2636 | a waiting connection is taken up unless eight workers are held |
| Workers.Service | src/bin/hirodrop-gui.rs:2619-2698 | over any number of turns at most eight handles are held and every connection taken up is held or joined, exactly once |
| Consent.Window.PollEvents | src/bin/hirodrop-gui.rs:824-911 | draining the events fills the slot with the first offer, refuses the others, and empties it when the service stopped |
| Consent.Window.StopService | src/bin/hirodrop-gui.rs:605-613 | stopping refuses the offer in the slot |
| Consent.StepKeeps | src/bin/hirodrop-gui.rs:2642-2658 | every step keeps: a worker waits exactly while its offer is in the live queue or in the slot, in one place, once, and what closures returned is what was answered |
| Consent.OnlyTheUserAccepts | src/bin/hirodrop-gui.rs:1209-1211 | in every run a closure returns true only if the user clicked Accept while the window showed that very worker's offer |
| Consent.AtMostOneAwaits | src/bin/hirodrop-gui.rs:838-856 | no offer is forgotten, and after every look at the events at most one worker waits, the one in the slot |
| Consent.FirstOfferIsShown | src/bin/hirodrop-gui.rs:838-856 | with an empty slot a look at the events shows the first offer that waits, which stays open, and refuses all others |
| Consent.StoppedIsSeen | src/bin/hirodrop-gui.rs:824-911 | when the events end with the news that the service has stopped, the slot is empty, nobody is left waiting, and nobody has been accepted |
| Consent.StoppingAnswersAll | src/bin/hirodrop-gui.rs:605-613 | after a look at the events and a stop no worker is left waiting, and the next call of every closure that has offered returns, with true only if it was accepted |
| Consent.AtMostOneOffer | src/bin/hirodrop-gui.rs:2645-2650 | a worker makes at most one offer in its life |
| Consent.OldServicesAreNotHeard | src/bin/hirodrop-gui.rs:578-604 | the window goes on, over any run, while the service it started last goes on, whatever older ones report |
| Consent.ReplacedWorkersAreRefused | src/bin/hirodrop-gui.rs:2642-2658 | a worker that has made no offer before its service was replaced is never shown, in any run, and its first question is answered with a refusal |
| Consent.DeadWorkerKeepsTheSlot | src/bin/hirodrop-gui.rs:838-846 | a worker that died with its offer in the slot keeps it until a click or a stop, and every look at the events refuses all other offers |
| FrameSize.FrameLength | src/quick_share_sender.rs:622-653 | the encoded chunk is at least 34 and at most 100 bytes longer than name, folder and body |
| Encoding.FrameReads | src/quick_share_wire.rs:9-202 | read back field by field, the bytes of a file chunk are version 1, a payload frame of a data packet, the file's id, type, size, name, folder and time under their tags, and the chunk's mark, offset and body |
| FrameSize.EnvelopeLength | src/quick_share_crypto.rs:277-310 | encryption and signature add at least 73 and at most 106 bytes |
| Encoding.EnvelopeReads | src/quick_share_wire.rs:300-372 | read back, an envelope is header and ciphertext signed as one, the header both schemes, the IV and the metadata, and what is encrypted the frame and its number |
| Encoding.AckReads | src/quick_share_wire.rs:204-210 | and an acknowledgement a keep-alive that is an answer, with the number if there is one |
| Encoding.TwosComplement | src/quick_share_wire.rs:165-202 | a signed field is read back as itself |
| FrameSize.ChunkFits | src/quick_share_transport.rs:45-48 | an encrypted chunk can be written whenever name, folder and body leave 206 bytes of the 5 MiB, and cannot once they leave fewer than 107 |
| FrameSize.EveryChunkFits | src/quick_share_sender.rs:622-653 | every chunk of a file fits when name and folder take at most 4 MiB, and a full one does not once they take 4.5 MiB |

## Left out

- The bytes of Protocol Buffers messages: messages are values, except in `FrameSize` and `Encoding`, which write and
  read the file chunk, the acknowledgement and their envelope.
- The insides of AES, HMAC, HKDF, SHA, ECDH and AES-GCM. In `SecureChannel` a ciphertext opens only under the key
  that made it and a signature verifies only what it signed; `Handshake` takes them as functions.
- Sockets, timeouts and partial reads: a connection is a queue of bytes or of messages. A timeout or a local
  failure of a driver is a crash event of `Session`; a connection that resets is one that is lost. Writing to a
  peer that has ended succeeds silently in `Session`, where the program may also see an error and fail.
- mDNS advertising and browsing, the QR code itself, the signature over the authentication key, the peer's
  fingerprint, notifications, settings, translations and drawing.
- Progress reports and log lines.
- `create_dir_all` on the download directory: it is taken to exist, and its own path to be safe.
- File names that are not valid Unicode, file types, MIME types and time stamps of the files sent. Names compare
  by code point, as their UTF-8 bytes do.
- The sender's files do not change between the walk and the reading of their metadata; what the later reads of
  their contents return is arbitrary.
- An open part file is known by its path; the program writes through a handle and renames by path.
- Links in the middle of a path: the target of a link is a path with none on the way to its last name, and the
  download directory is not reached through one. A link as the last name of a path is followed, at most 40 times.
- The drivers `receive_connection` and `send_prepared_files` are machines on values rather than methods, because
  their steps interleave; their inner loops are methods in `DriverLoops`.
- The window starts and drops services by steps of the machine in `Consent`; only polling and stopping are methods.
- A framing or decryption error while files are received ends what arrives, like the end of the stream: the
  receiver then does the same.
- Preparation.PrepareEstablishesSound: assumes that no destination bears the random name of one of the part files,
  which `prepare` does not look at.
- Fidelity.EndToEnd: the same assumption.
- Trees.FreshId: the loop ends by assumption; a list of draws without a fresh value is a run that is still drawing.
- SessionTheorems.Completion: a session offers at least one file, announces sizes that are not negative, the bodies
  of its sharing frames take at most 5 MiB and decode as encoded, and the assumption about random names holds; nothing
  is assumed of what the files turn out to be when they are read.
- WireFidelity.WireToDisk: the same assumption about random names; packets decode as encoded and have the lengths of
  `FrameSize`; acknowledgements carry 32-bit numbers, as the messages do.
- SecureChannels.ChannelSafety: signatures cannot be forged, which is assumed of the network and not proved of HMAC.
- Endpoint.HiddenNameFoundIff: AES-GCM is taken to open exactly what was sealed under the same key, nonce and
  associated data, and a text to have one form in UTF-8.
- Handshake.MirroredIff: key derivation is taken to be free of collisions.
- TreePreservation.TreePreserved: names must be ones the sanitiser leaves alone and tops must differ; other names
  are changed by design and equal tops collide.
- InterleavingTheorems.InterleavingIndependence: frames are payload frames with an id, the random last-resort name of
  a text is not a directory, and every link in the download directory leads to where a file can be written.
- NetworkSession.ConfirmedOverTheNetwork: keys are mirrored, as after an untouched handshake, and the messages in the
  clear before the channel arrive as they were sent or not at all; `Handshake` says what changing them can do.
- FrameSize.EveryChunkFits: the padding and signature lengths of the cipher and the MAC are given, not derived.
