/** When a committed file keeps its place: `prepare` may give two files one destination, and then the later replaces
    the earlier. */
module Destinations {
  import opened Prelude
  import opened WireMessages
  import opened Assembler
  import opened Paths
  import opened Transfers
  import opened TransferInvariant
  import opened Preparation
  import opened Sending
  import opened Fidelity

  // ------------------------------------------------------------------
  // In the history of commits

  /** The last commit at `path` is number `j`. */
  predicate LastCommitAt(log: seq<Commit>, path: Path, j: nat) {
    j < |log| && log[j].path == path && forall i :: j < i < |log| ==> log[i].path != path
  }

  lemma {:induction false} SomeLastCommit(log: seq<Commit>, k: nat) returns (j: nat)
    requires k < |log|
    ensures k <= j && LastCommitAt(log, log[k].path, j) && LastAt(log, log[k].path) == Some(log[j].content)
    decreases |log|
  {
    var n := |log| - 1;
    if log[n].path == log[k].path {
      j := n;
    } else {
      j := SomeLastCommit(log[..n], k);
    }
  }

  /** A committed file still holds its own bytes exactly when the last commit at its path, itself or a later one,
      has that content. */
  lemma KeptIff(log: seq<Commit>, k: nat)
    requires k < |log|
    ensures LastAt(log, log[k].path) == Some(log[k].content)
            <==> exists j: nat :: k <= j && LastCommitAt(log, log[k].path, j) && log[j].content == log[k].content
  {
    var last := SomeLastCommit(log, k);
    forall j | LastCommitAt(log, log[k].path, j)
      ensures j == last
    {
    }
  }

  // ------------------------------------------------------------------
  // On the table `prepare` has built

  function DestinationOf(files: map<int, PendingFile>, s: Shipment): Path
    requires s.file.payloadId in files
  {
    files[s.file.payloadId].finalPath
  }

  /** File `j` is the last of those that share the destination of file `i`. */
  ghost predicate LastSharing(t: Transfer, shipments: seq<Shipment>, i: nat, j: nat)
    requires Expecting(t, shipments) && i < |shipments|
  {
    && i <= j < |shipments| && DestinationOf(t.files, shipments[j]) == DestinationOf(t.files, shipments[i])
    && forall k :: j < k < |shipments| ==> DestinationOf(t.files, shipments[k]) != DestinationOf(t.files, shipments[i])
  }

  /** At its destination file `i` has the bytes that were read of it. */
  ghost predicate HoldsItsOwn(t: Transfer, shipments: seq<Shipment>, end: Disk, i: nat)
    requires Expecting(t, shipments) && i < |shipments|
  {
    var path := DestinationOf(t.files, shipments[i]);
    path in end && end[path] == Regular(Source(shipments[i]))
  }

  lemma LastSharingIsLastCommit(t: Transfer, shipments: seq<Shipment>, i: nat, j: nat)
    requires Expecting(t, shipments) && i < |shipments| && i <= j
    ensures LastSharing(t, shipments, i, j) <==> LastCommitAt(CommitsOf(t.files, shipments), DestinationOf(t.files, shipments[i]), j)
  {
    var log := CommitsOf(t.files, shipments);
    hide Source, Expecting, HasId, DistinctIds, CommitsOf;
    CommitPaths(t, shipments);
  }

  lemma CommitPaths(t: Transfer, shipments: seq<Shipment>)
    requires Expecting(t, shipments)
    ensures var log := CommitsOf(t.files, shipments);
            |log| == |shipments| && forall i :: 0 <= i < |log| ==>
              log[i].path == DestinationOf(t.files, shipments[i]) && log[i].content == Source(shipments[i])
  {
    hide Source;
  }

  /** After a successful transfer file `i` keeps its place exactly when the last file prepared onto its destination
      has the same bytes. */
  lemma {:induction false} FileKeptIff(w: World, shipments: seq<Shipment>, end: World, i: nat)
    requires Expecting(w.transfer, shipments) && DeliveredAll(w, shipments, end) && i < |shipments|
    ensures HoldsItsOwn(w.transfer, shipments, end.disk, i)
            <==> exists j: nat :: LastSharing(w.transfer, shipments, i, j) && Source(shipments[j]) == Source(shipments[i])
  {
    var log := CommitsOf(w.transfer.files, shipments);
    hide Source, CommitsOf, LastAt, LastCommitAt, HasId, DistinctIds;
    CommitPaths(w.transfer, shipments);
    InPlaceAt(end, i);
    KeptIff(log, i);
    forall j: nat | i <= j
      ensures LastSharing(w.transfer, shipments, i, j) <==> LastCommitAt(log, log[i].path, j)
    {
      LastSharingIsLastCommit(w.transfer, shipments, i, j);
    }
    hide LastSharing;
    if j: nat :| i <= j && LastCommitAt(log, log[i].path, j) && log[j].content == log[i].content {
      LastCommitIsIn(log, log[i].path, j);
      assert LastSharing(w.transfer, shipments, i, j) && Source(shipments[j]) == Source(shipments[i]);
    }
    if j: nat :| LastSharing(w.transfer, shipments, i, j) && Source(shipments[j]) == Source(shipments[i]) {
      SharingIsLater(w.transfer, shipments, i, j);
      LastCommitIsIn(log, log[i].path, j);
      assert log[j].content == log[i].content;
    }
  }

  lemma LastCommitIsIn(log: seq<Commit>, path: Path, j: nat)
    requires LastCommitAt(log, path, j)
    ensures j < |log|
  {
  }

  lemma SharingIsLater(t: Transfer, shipments: seq<Shipment>, i: nat, j: nat)
    requires Expecting(t, shipments) && i < |shipments| && LastSharing(t, shipments, i, j)
    ensures i <= j < |shipments|
  {
  }

  lemma InPlaceAt(end: World, k: nat)
    requires InPlace(end) && k < |end.log|
    ensures end.log[k].path in end.disk && LastAt(end.log, end.log[k].path).Some?
    ensures end.disk[end.log[k].path] == Regular(LastAt(end.log, end.log[k].path).value)
  {
  }

  /** The table is such that no file is replaced by other bytes. */
  ghost predicate SharedOnlyByEqual(t: Transfer, shipments: seq<Shipment>)
    requires Expecting(t, shipments)
  {
    forall i, j :: 0 <= i < j < |shipments| && DestinationOf(t.files, shipments[i]) == DestinationOf(t.files, shipments[j]) ==>
      Source(shipments[i]) == Source(shipments[j])
  }

  lemma {:induction false} SomeLastSharing(t: Transfer, shipments: seq<Shipment>, i: nat) returns (j: nat)
    requires Expecting(t, shipments) && i < |shipments|
    ensures LastSharing(t, shipments, i, j)
  {
    CommitPaths(t, shipments);
    j := SomeLastCommit(CommitsOf(t.files, shipments), i);
    LastSharingIsLastCommit(t, shipments, i, j);
  }

  /** A committed file keeps its place. After a successful transfer every destination holds its own file exactly when
      any two files that were prepared onto one destination have the same bytes. */
  lemma AllKeptIff(w: World, shipments: seq<Shipment>, end: World)
    requires Expecting(w.transfer, shipments) && DeliveredAll(w, shipments, end)
    ensures (forall i :: 0 <= i < |shipments| ==> HoldsItsOwn(w.transfer, shipments, end.disk, i))
            <==> SharedOnlyByEqual(w.transfer, shipments)
  {
    var t := w.transfer;
    hide Source, HasId, DistinctIds, DeliveredAll, DestinationOf;
    if SharedOnlyByEqual(t, shipments) {
      forall i | 0 <= i < |shipments|
        ensures HoldsItsOwn(t, shipments, end.disk, i)
      {
        var j := SomeLastSharing(t, shipments, i);
        FileKeptIff(w, shipments, end, i);
      }
    }
    if forall i :: 0 <= i < |shipments| ==> HoldsItsOwn(t, shipments, end.disk, i) {
      forall i, j | 0 <= i < j < |shipments| && DestinationOf(t.files, shipments[i]) == DestinationOf(t.files, shipments[j])
        ensures Source(shipments[i]) == Source(shipments[j])
      {
        assert HoldsItsOwn(t, shipments, end.disk, i) && HoldsItsOwn(t, shipments, end.disk, j);
      }
    }
  }

  /** The same from `prepare` on: the table that decides is the one `prepare` returns. */
  lemma PreparedFilesKeepTheirPlaces(
    shipments: seq<Shipment>, root: Path, disk: Disk, processId: nat, choices: seq<Choice>, buffers: Buffers, arrivals: seq<Arrival>)
    requires |choices| == |shipments|
    requires Prepare(IntroductionOf(shipments), root, disk, processId, choices).result.Ok?
    requires PreparedApart(Prepare(IntroductionOf(shipments), root, disk, processId, choices))
    requires Benign(arrivals) && Frames(Payloads(arrivals)) == SentFrames(shipments)
    ensures var prepared := Prepare(IntroductionOf(shipments), root, disk, processId, choices);
            var out := ReceiveAll(StartOf(prepared.result.value, prepared.disk, buffers), arrivals);
            && Expecting(prepared.result.value, shipments)
            && (out.error.None? ==>
                  ((forall i :: 0 <= i < |shipments| ==> HoldsItsOwn(prepared.result.value, shipments, out.world.disk, i))
                   <==> SharedOnlyByEqual(prepared.result.value, shipments)))
  {
    hide Prepare, ReceiveAll, SentFrames, Expecting, DeliveredAll, SharedOnlyByEqual, HoldsItsOwn, Benign, Payloads, PartsApart;
    EndToEnd(shipments, root, disk, processId, choices, buffers, arrivals);
    var prepared := Prepare(IntroductionOf(shipments), root, disk, processId, choices);
    var w := StartOf(prepared.result.value, prepared.disk, buffers);
    if ReceiveAll(w, arrivals).error.None? {
      AllKeptIff(w, shipments, ReceiveAll(w, arrivals).world);
    }
  }

  // ------------------------------------------------------------------
  // A file that is replaced

  /** Two files of one name and one byte each. */
  function Twins(x: byte, y: byte): seq<Shipment> {
    [Shipment(OutgoingFile("a", None, 1, 1), [[x]]), Shipment(OutgoingFile("a", None, 1, 2), [[y]])]
  }

  lemma TwinFilesPrepared(processId: nat, p: nat, q: nat)
    requires PartName(processId, p) != "a" && PartName(processId, q) != "a" && PartName(processId, p) != PartName(processId, q)
    ensures var disk: Disk, partP, partQ := map[["d"] := Directory], ["d"] + [PartName(processId, p)], ["d"] + [PartName(processId, q)];
            var m1, m2 := FileMetadata(Some("a"), Some(1), Some(1), None), FileMetadata(Some("a"), Some(2), Some(1), None);
            PrepareFiles(
              Preparing(disk, map[], map[], 0), ["d"], [m1, m2], processId, [Choice(p, 0, false), Choice(q, 0, false)])
            == (Preparing(
                  disk[partP := Regular([])][partQ := Regular([])],
                  map[1 := PendingFile(1, 0, ["d", "a"], partP), 2 := PendingFile(1, 0, ["d", "a"], partQ)], map[], 2), None)
  {
    hide PartName, PrepareFile;
    var disk: Disk := map[["d"] := Directory];
    var m1, m2 := FileMetadata(Some("a"), Some(1), Some(1), None), FileMetadata(Some("a"), Some(2), Some(1), None);
    var c1, c2 := Choice(p, 0, false), Choice(q, 0, false);
    var partP, partQ := ["d"] + [PartName(processId, p)], ["d"] + [PartName(processId, q)];
    assert partP[1] != "a" && partQ[1] != "a" && partP[1] != partQ[1];
    var p0 := Preparing(disk, map[], map[], 0);
    OneNamedFile(p0, 1, processId, p);
    var p1 := PrepareFile(p0, ["d"], m1, processId, c1).0;
    OneNamedFile(p1, 2, processId, q);
    var p2 := PrepareFile(p1, ["d"], m2, processId, c2).0;
    assert [m1, m2][1..] == [m2] && [c1, c2][1..] == [c2] && [m2][1..] == [] && [c2][1..] == [];
    assert PrepareFiles(p2, ["d"], [], processId, []) == (p2, None);
    assert PrepareFiles(p1, ["d"], [m2], processId, [c2]) == (p2, None);
  }

  /** Both twins are prepared onto one path. */
  lemma TwinsShare(x: byte, y: byte, processId: nat, p: nat, q: nat)
    requires PartName(processId, p) != "a" && PartName(processId, q) != "a" && PartName(processId, p) != PartName(processId, q)
    ensures var prepared := Prepare(
              IntroductionOf(Twins(x, y)), ["d"], map[["d"] := Directory], processId, [Choice(p, 0, false), Choice(q, 0, false)]);
            && prepared.result.Ok? && PreparedApart(prepared)
            && prepared.result.value.files.Keys == {1, 2}
            && prepared.result.value.files[1].finalPath == prepared.result.value.files[2].finalPath == ["d", "a"]
            && ["d", "a"] !in prepared.disk
  {
    hide Twins, MetadataOf, PartName, PrepareFiles;
    TwinsAnnounce(x, y);
    TwinFilesPrepared(processId, p, q);
    var partP, partQ := ["d"] + [PartName(processId, p)], ["d"] + [PartName(processId, q)];
    assert partP[1] != "a" && partQ[1] != "a";
  }

  lemma TwinsAnnounce(x: byte, y: byte)
    ensures MetadataOf(Twins(x, y)) == [
              FileMetadata(Some("a"), Some(1), Some(1), None), FileMetadata(Some("a"), Some(2), Some(1), None)]
  {
    assert Twins(x, y)[1..][1..] == [];
    assert MetadataOf(Twins(x, y)[1..]) == [FileMetadata(Some("a"), Some(2), Some(1), None)];
  }

  lemma OneNamedFile(p: Preparing, id: int, processId: nat, random: nat)
    requires id !in p.files && p.total < 2 && ["d", "a"] !in p.disk && ["d"] + [PartName(processId, random)] !in p.disk
    ensures var partPath := ["d"] + [PartName(processId, random)];
            PrepareFile(p, ["d"], FileMetadata(Some("a"), Some(id), Some(1), None), processId, Choice(random, 0, false))
            == (Preparing(
                  p.disk[partPath := Regular([])], p.files[id := PendingFile(1, 0, ["d", "a"], partPath)], p.texts, p.total + 1), None)
  {
    assert IsComponent("a") by { assert "a"[0] == 'a'; }
    FileNameIsComponent("a");
    assert ["d"] + ["a"] == ["d", "a"];
    hide PartName, SanitizeFileName, Numbered, FirstFree, IsComponent;
  }

  /** A promise that fails: two files of one name arrive without any error, both are committed and both are handed
      over, and only the second one's byte is left at the path of both. */
  lemma SharedDestination(x: byte, y: byte, processId: nat, p: nat, q: nat, buffers: Buffers)
    requires PartName(processId, p) != "a" && PartName(processId, q) != "a" && PartName(processId, p) != PartName(processId, q)
    ensures var prepared := Prepare(
              IntroductionOf(Twins(x, y)), ["d"], map[["d"] := Directory], processId, [Choice(p, 0, false), Choice(q, 0, false)]);
            && prepared.result.Ok?
            && var out := ReceiveAll(StartOf(prepared.result.value, prepared.disk, buffers), Arriving(SentFrames(Twins(x, y))));
            && out.error.None? && out.world.transfer.completed == [["d", "a"], ["d", "a"]]
            && |out.world.log| == 2 && out.world.log[0].content == [x]
            && ["d", "a"] in out.world.disk && out.world.disk[["d", "a"]] == Regular([y])
  {
    var shipments, choices := Twins(x, y), [Choice(p, 0, false), Choice(q, 0, false)];
    var arrivals := Arriving(SentFrames(shipments));
    TwinsShare(x, y, processId, p, q);
    assert Frames(arrivals) == SentFrames(shipments);
    PlainArrivals(arrivals);
    TwinSources(x, y);
    hide Prepare, SentFrames, PartName, Payloads, Benign, ReceiveAll, Source;
    EndToEnd(shipments, ["d"], map[["d"] := Directory], processId, choices, buffers, arrivals);
    var prepared := Prepare(IntroductionOf(shipments), ["d"], map[["d"] := Directory], processId, choices);
    var w := StartOf(prepared.result.value, prepared.disk, buffers);
    TwinsFit(w, x, y);
    hide AllFit, LastAt;
    TwinsEnd(w, x, y, ReceiveAll(w, arrivals).world);
  }

  lemma TwinSources(x: byte, y: byte)
    ensures |Twins(x, y)| == 2 && Source(Twins(x, y)[0]) == [x] && Source(Twins(x, y)[1]) == [y]
  {
    assert [[x]][1..] == [] && [[y]][1..] == [];
    assert Concat([[x]]) == [x] + Concat([]) && Concat([[y]]) == [y] + Concat([]);
  }

  lemma TwinsFit(w: World, x: byte, y: byte)
    requires Expecting(w.transfer, Twins(x, y)) && w.transfer.files.Keys == {1, 2}
    requires w.transfer.files[1].finalPath == w.transfer.files[2].finalPath == ["d", "a"] && ["d", "a"] !in w.disk
    ensures AllFit(w, Twins(x, y))
  {
    TwinSources(x, y);
    hide Source;
    assert Twins(x, y)[0].file.payloadId == 1 && Twins(x, y)[1].file.payloadId == 2;
  }

  lemma TwinsEnd(w: World, x: byte, y: byte, end: World)
    requires Expecting(w.transfer, Twins(x, y)) && DeliveredAll(w, Twins(x, y), end)
    requires 1 in w.transfer.files && 2 in w.transfer.files
    requires w.transfer.files[1].finalPath == w.transfer.files[2].finalPath == ["d", "a"]
    ensures end.transfer.completed == [["d", "a"], ["d", "a"]] && |end.log| == 2 && end.log[0].content == [x]
    ensures ["d", "a"] in end.disk && end.disk[["d", "a"]] == Regular([y])
  {
    TwinSources(x, y);
    CommitPaths(w.transfer, Twins(x, y));
    hide Source, Expecting, CommitsOf, TotalRead;
    InPlaceAt(end, 1);
    assert end.log[0].path == end.log[1].path == ["d", "a"];
  }
}
