/** From a selection on the sender's disk to the same tree on the receiver's. */
module TreePreservation {
  import opened Prelude
  import opened WireMessages
  import opened Assembler
  import opened Paths
  import opened Transfers
  import opened TransferInvariant
  import opened Preparation
  import opened Sending
  import opened Fidelity
  import opened Trees
  import opened TreeTheorems
  import opened Rebuild

  // ------------------------------------------------------------------
  // Several selected paths

  /** A path without a last component, like "/", is never a regular file. */
  predicate ProperSelection(selected: seq<Selected>) {
    forall i :: 0 <= i < |selected| ==> selected[i].path == [] ==> !selected[i].tree.File?
  }

  function Top(s: Selected): string {
    if s.path == [] then "" else s.path[|s.path| - 1]
  }

  function FoundAll(selected: seq<Selected>): (r: seq<Found>)
  {
    if selected == [] then [] else FilesOf([Top(selected[0])], selected[0].tree) + FoundAll(selected[1..])
  }

  predicate AllPlain(selected: seq<Selected>) {
    forall i :: 0 <= i < |selected| ==> selected[i].path != [] && Plain(selected[i].tree)
  }

  /** The candidates are the files found, one for one. */
  ghost predicate Matches(candidates: seq<Candidate>, found: seq<Found>) {
    && |candidates| == |found|
    && forall i :: 0 <= i < |found| ==>
         && found[i].rel != [] && candidates[i].path != []
         && candidates[i].path[|candidates[i].path| - 1] == found[i].rel[|found[i].rel| - 1]
         && candidates[i].parentFolder == ParentOf(found[i].rel)
         && candidates[i].size == found[i].size
  }

  lemma OneSelected(s: Selected, files: seq<Candidate>)
    requires s.path == [] ==> !s.tree.File?
    ensures var r, found := Collect(s.path, s.tree, None, files), FilesOf([Top(s)], s.tree);
            && BeforeLast(|found|, EndsInFile(s.tree)) >= 0
            && (r.Ok? <==> s.path != [] && Plain(s.tree) && |files| + BeforeLast(|found|, EndsInFile(s.tree)) < MAX_SELECTED)
            && (r.Ok? ==> |r.value| == |files| + |found| && files <= r.value && Matches(r.value[|files|..], found))
  {
    CountAtLeast([Top(s)], s.tree);
    if s.path != [] {
      var base := s.path[..|s.path| - 1];
      assert base + [Top(s)] == s.path;
      CollectIff(base, [Top(s)], s.tree, files);
    }
  }

  /** Collecting succeeds exactly when only regular files and folders are met, every path has a name, and fewer
      than 10,000 files stand before the last thing looked at. */
  lemma {:induction false} CollectAllIff(selected: seq<Selected>, files: seq<Candidate>)
    requires ProperSelection(selected) && selected != []
    ensures var r, found := CollectAll(selected, files), FoundAll(selected);
            var ends := EndsInFile(selected[|selected| - 1].tree);
            && BeforeLast(|found|, ends) >= 0
            && (r.Ok? <==> AllPlain(selected) && |files| + BeforeLast(|found|, ends) < 10_000)
            && (r.Ok? ==> |r.value| == |files| + |found| && files <= r.value && Matches(r.value[|files|..], found))
  {
    var s, rest := selected[0], selected[1..];
    OneSelected(s, files);
    assert selected == [s] + rest;
    var first := FilesOf([Top(s)], s.tree);
    var r := Collect(s.path, s.tree, None, files);
    hide Collect, Plain, EndsInFile, Matches, FilesOf;
    if rest == [] {
      assert FoundAll(rest) == [] && FoundAll(selected) == first;
    } else {
      assert rest[|rest| - 1] == selected[|selected| - 1];
      assert AllPlain(selected) <==> s.path != [] && Plain(s.tree) && AllPlain(rest);
      var more := if r.Ok? then r.value else files;
      CollectAllIff(rest, more);
      if r.Ok? && CollectAll(rest, r.value).Ok? {
        MatchesJoin(r.value[|files|..], CollectAll(rest, r.value).value[|r.value|..], first, FoundAll(rest));
        TailOfTails(files, r.value, CollectAll(rest, r.value).value);
      }
    }
  }

  lemma TailOfTails(a: seq<Candidate>, b: seq<Candidate>, c: seq<Candidate>)
    requires a <= b <= c
    ensures a <= c && c[|a|..] == b[|a|..] + c[|b|..]
  {
    assert b == c[..|b|];
  }

  lemma MatchesJoin(a: seq<Candidate>, b: seq<Candidate>, f: seq<Found>, g: seq<Found>)
    requires Matches(a, f) && Matches(b, g)
    ensures Matches(a + b, f + g)
  {
    hide ParentOf;
  }

  // ------------------------------------------------------------------
  // Payload ids

  ghost predicate Assigned(candidates: seq<Candidate>, ids: set<int>, files: seq<OutgoingFile>) {
    && |files| == |candidates|
    && (forall i :: 0 <= i < |files| ==>
          && candidates[i].path != [] && files[i].name == candidates[i].path[|candidates[i].path| - 1]
          && files[i].parentFolder == candidates[i].parentFolder && files[i].size == candidates[i].size
          && 0 < files[i].payloadId <= MAX_I64 && files[i].payloadId !in ids)
    && (forall i, j :: 0 <= i < j < |files| ==> files[i].payloadId != files[j].payloadId)
  }

  function SizesOf(files: seq<OutgoingFile>): (r: seq<nat>)
    requires forall i :: 0 <= i < |files| ==> 0 <= files[i].size
    ensures |r| == |files| && forall i :: 0 <= i < |r| ==> r[i] == files[i].size
  {
    seq(|files|, i requires 0 <= i < |files| => files[i].size)
  }

  lemma AssignedCons(candidates: seq<Candidate>, ids: set<int>, first: OutgoingFile, rest: seq<OutgoingFile>)
    requires candidates != [] && Assigned(candidates[..1], ids, [first])
    requires Assigned(candidates[1..], ids + {first.payloadId}, rest)
    ensures Assigned(candidates, ids, [first] + rest)
  {
    var files := [first] + rest;
    assert [first][0] == first && candidates[..1][0] == candidates[0];
    forall i | 0 <= i < |files|
      ensures if i == 0 then files[i] == first else files[i] == rest[i - 1] && candidates[i] == candidates[1..][i - 1]
    {
    }
  }

  lemma SizesCons(first: OutgoingFile, rest: seq<OutgoingFile>)
    requires 0 <= first.size && forall i :: 0 <= i < |rest| ==> 0 <= rest[i].size
    ensures forall i :: 0 <= i < |[first] + rest| ==> 0 <= ([first] + rest)[i].size
    ensures Total(SizesOf([first] + rest)) == first.size + Total(SizesOf(rest))
  {
    var files := [first] + rest;
    assert files[1..] == rest && SizesOf(files)[1..] == SizesOf(rest);
  }

  /** Ids are positive and never repeated, and the sizes stay within 100 GiB. */
  lemma {:induction false} AssignMeans(candidates: seq<Candidate>, ids: set<int>, total: nat, draws: seq<nat>)
    requires total <= MAX_TOTAL_TRANSFER_BYTES && Assign(candidates, ids, total, draws).Ok?
    ensures var files := Assign(candidates, ids, total, draws).value;
            && Assigned(candidates, ids, files)
            && total + Total(SizesOf(files)) <= MAX_TOTAL_TRANSFER_BYTES
    decreases |candidates|
  {
    if candidates != [] {
      var c := candidates[0];
      var (id, used) := FirstFresh(ids, draws).value;
      var rest := Assign(candidates[1..], ids + {id}, total + c.size, draws[used..]).value;
      var first := OutgoingFile(c.path[|c.path| - 1], c.parentFolder, c.size, id);
      assert Assign(candidates, ids, total, draws).value == [first] + rest;
      AssignMeans(candidates[1..], ids + {id}, total + c.size, draws[used..]);
      assert Assigned(candidates[..1], ids, [first]);
      SizesCons(first, rest);
      hide FirstFresh, Assign, Total, Assigned, SizesOf;
      AssignedCons(candidates, ids, first, rest);
    }
  }

  function SizeSum(candidates: seq<Candidate>): nat {
    if candidates == [] then 0 else candidates[0].size + SizeSum(candidates[1..])
  }

  predicate Named(c: Candidate) {
    c.path != [] && c.path[|c.path| - 1] != ""
  }

  predicate AllNamed(candidates: seq<Candidate>) {
    forall i :: 0 <= i < |candidates| ==> Named(candidates[i])
  }

  /** Unless it is still drawing, the loop succeeds exactly when every candidate has a name and the sizes stay within
      100 GiB; it calls the transfer too large only when they do not. */
  lemma {:induction false} AssignIff(candidates: seq<Candidate>, ids: set<int>, total: nat, draws: seq<nat>)
    requires total <= MAX_TOTAL_TRANSFER_BYTES
    ensures var r := Assign(candidates, ids, total, draws);
            && (r != Err(StillDrawing) ==>
                  (r.Ok? <==> AllNamed(candidates) && total + SizeSum(candidates) <= MAX_TOTAL_TRANSFER_BYTES))
            && (r == Err(PrepareError.TransferTooLarge) ==> total + SizeSum(candidates) > MAX_TOTAL_TRANSFER_BYTES)
            && (r == Err(InvalidFile) ==> !AllNamed(candidates))
    decreases |candidates|
  {
    if candidates != [] {
      var c := candidates[0];
      AssignStep(candidates, ids, total, draws);
      assert AllNamed(candidates) <==> Named(c) && AllNamed(candidates[1..]) by {
        assert candidates == [c] + candidates[1..];
      }
      hide Assign, AllNamed, FirstFresh;
      if total + c.size <= MAX_TOTAL_TRANSFER_BYTES && Named(c) && FirstFresh(ids, draws).Some? {
        var (id, used) := FirstFresh(ids, draws).value;
        AssignIff(candidates[1..], ids + {id}, total + c.size, draws[used..]);
      }
    }
  }

  function FoundSum(found: seq<Found>): nat {
    if found == [] then 0 else found[0].size + FoundSum(found[1..])
  }

  lemma {:induction false} SameSums(candidates: seq<Candidate>, found: seq<Found>)
    requires Matches(candidates, found)
    ensures SizeSum(candidates) == FoundSum(found)
    decreases |found|
  {
    if found != [] {
      assert Matches(candidates[1..], found[1..]) by { hide ParentOf; }
      SameSums(candidates[1..], found[1..]);
    }
  }

  predicate EveryFileNamed(found: seq<Found>) {
    forall i :: 0 <= i < |found| ==> found[i].rel != [] && found[i].rel[|found[i].rel| - 1] != ""
  }

  lemma SameNames(candidates: seq<Candidate>, found: seq<Found>)
    requires Matches(candidates, found)
    ensures |candidates| == |found| && (AllNamed(candidates) <==> EveryFileNamed(found))
  {
    hide ParentOf;
    if AllNamed(candidates) {
      forall i | 0 <= i < |found|
        ensures found[i].rel != [] && found[i].rel[|found[i].rel| - 1] != ""
      {
        assert Named(candidates[i]);
      }
    }
  }

  /** When `prepare_files` succeeds. Unless it is still drawing ids, exactly when something is selected, only regular
      files and folders are met, fewer than 10,000 files stand before the last thing looked at, there is a file, every
      file has a name, and the sizes stay within 100 GiB. */
  lemma PrepareOutgoingIff(selected: seq<Selected>, draws: seq<nat>)
    requires ProperSelection(selected) && PrepareOutgoing(selected, draws) != Err(StillDrawing)
    ensures var found := FoundAll(selected);
            PrepareOutgoing(selected, draws).Ok? <==>
              && selected != [] && AllPlain(selected)
              && BeforeLast(|found|, EndsInFile(selected[|selected| - 1].tree)) < 10_000
              && found != [] && EveryFileNamed(found)
              && FoundSum(found) <= 100 * 1024 * 1024 * 1024
  {
    hide CollectAll, FoundAll, AllPlain, EndsInFile, Assign, Matches, SizeSum, FoundSum, AllNamed, EveryFileNamed, ProperSelection;
    if selected != [] {
      CollectAllIff(selected, []);
      var found, collected := FoundAll(selected), CollectAll(selected, []);
      if collected.Ok? {
        var candidates := collected.value;
        var none: seq<Candidate> := [];
        assert candidates[|none|..] == candidates;
        AssignIff(candidates, {}, 0, draws);
        SameSums(candidates, found);
        SameNames(candidates, found);
      }
    }
  }

  // ------------------------------------------------------------------
  // The relative paths of a selection

  /** Every name is one that the receiver's sanitiser leaves alone. */
  predicate OrdinaryNames(tree: Tree) {
    tree.Folder? ==> forall e :: e in tree.entries ==> IsComponent(e.name) && OrdinaryNames(e.tree)
  }

  ghost predicate GoodSelection(selected: seq<Selected>) {
    && (forall i :: 0 <= i < |selected| ==>
          && selected[i].path != [] && IsComponent(Top(selected[i]))
          && ProperTree(selected[i].tree) && OrdinaryNames(selected[i].tree))
    && (forall i, j :: 0 <= i < j < |selected| ==> Top(selected[i]) != Top(selected[j]))
  }

  function RelsOf(found: seq<Found>): (r: seq<Path>)
    ensures |r| == |found| && forall i :: 0 <= i < |r| ==> r[i] == found[i].rel
  {
    seq(|found|, i requires 0 <= i < |found| => found[i].rel)
  }

  lemma {:induction false} WalkedNamesAreOrdinary(tree: Tree, rel: Path, size: nat)
    requires OrdinaryNames(tree) && HasFile(tree, rel, size)
    ensures forall k :: 0 <= k < |rel| ==> IsComponent(rel[k])
    decreases |rel|
  {
    if rel != [] {
      var e :| e in tree.entries && e.name == rel[0] && HasFile(e.tree, rel[1..], size);
      WalkedNamesAreOrdinary(e.tree, rel[1..], size);
      hide IsComponent;
      forall k | 0 <= k < |rel|
        ensures IsComponent(rel[k])
      {
        if k > 0 {
          assert rel[k] == rel[1..][k - 1];
        }
      }
    }
  }

  lemma FoundFacts(s: Selected, f: Found)
    requires s.path != [] && IsComponent(Top(s)) && OrdinaryNames(s.tree)
    requires f in FilesOf([Top(s)], s.tree)
    ensures Ordinary(f.rel) && f.rel[0] == Top(s) && HasFile(s.tree, f.rel[1..], f.size)
  {
    FoundIff([Top(s)], s.tree, f);
    WalkedNamesAreOrdinary(s.tree, f.rel[1..], f.size);
    hide IsComponent;
    forall k | 0 <= k < |f.rel|
      ensures IsComponent(f.rel[k])
    {
      if k > 0 {
        assert f.rel[k] == f.rel[1..][k - 1];
      }
    }
  }

  lemma {:induction false} PathLessIrreflexive(a: Path)
    ensures !PathLess(a, a)
  {
    if a != [] {
      LessIsStrict(a[0], a[0]);
      PathLessIrreflexive(a[1..]);
    }
  }

  lemma OneIsPrefixFree(s: Selected)
    requires s.path != [] && IsComponent(Top(s)) && ProperTree(s.tree) && OrdinaryNames(s.tree)
    ensures PrefixFree(RelsOf(FilesOf([Top(s)], s.tree)))
  {
    var found := FilesOf([Top(s)], s.tree);
    FoundInOrder([Top(s)], s.tree);
    forall i, j | 0 <= i < |found| && 0 <= j < |found| && i != j
      ensures !(found[i].rel <= found[j].rel)
    {
      FoundFacts(s, found[i]);
      FoundFacts(s, found[j]);
      if found[i].rel <= found[j].rel {
        FilesAreLeaves(s.tree, found[i].rel[1..], found[j].rel[1..], found[i].size, found[j].size);
        assert found[i].rel == [Top(s)] + found[i].rel[1..] && found[j].rel == [Top(s)] + found[j].rel[1..];
        PathLessIrreflexive(found[i].rel);
        assert false;
      }
    }
  }

  lemma {:induction false} TopsOf(selected: seq<Selected>, f: Found) returns (i: nat)
    requires GoodSelection(selected) && f in FoundAll(selected)
    ensures i < |selected| && Ordinary(f.rel) && f.rel[0] == Top(selected[i])
  {
    hide IsComponent, ProperTree, OrdinaryNames;
    if f in FilesOf([Top(selected[0])], selected[0].tree) {
      FoundFacts(selected[0], f);
      i := 0;
    } else {
      var k := TopsOf(selected[1..], f);
      i := k + 1;
    }
  }

  /** The relative paths of a good selection lead through ordinary names and never through one another. */
  lemma {:induction false} SelectionIsRebuildable(selected: seq<Selected>)
    requires GoodSelection(selected)
    ensures Rebuildable(RelsOf(FoundAll(selected)))
  {
    hide IsComponent, ProperTree, OrdinaryNames;
    var all := FoundAll(selected);
    forall i | 0 <= i < |all|
      ensures Ordinary(all[i].rel)
    {
      var _ := TopsOf(selected, all[i]);
    }
    if selected != [] {
      var first, later := FilesOf([Top(selected[0])], selected[0].tree), FoundAll(selected[1..]);
      OneIsPrefixFree(selected[0]);
      SelectionIsRebuildable(selected[1..]);
      forall i, j | 0 <= i < |all| && 0 <= j < |all| && i != j
        ensures !(all[i].rel <= all[j].rel)
      {
        if i < |first| && j < |first| {
          assert RelsOf(first)[i] == all[i].rel && RelsOf(first)[j] == all[j].rel;
        } else if i >= |first| && j >= |first| {
          assert RelsOf(later)[i - |first|] == all[i].rel && RelsOf(later)[j - |first|] == all[j].rel;
        } else {
          DifferentTops(selected, all[if i < |first| then i else j], all[if i < |first| then j else i]);
        }
      }
    }
  }

  lemma DifferentTops(selected: seq<Selected>, f: Found, g: Found)
    requires GoodSelection(selected) && selected != []
    requires f in FilesOf([Top(selected[0])], selected[0].tree) && g in FoundAll(selected[1..])
    ensures Ordinary(f.rel) && Ordinary(g.rel) && f.rel[0] != g.rel[0]
  {
    hide IsComponent, ProperTree, OrdinaryNames;
    FoundFacts(selected[0], f);
    var k := TopsOf(selected[1..], g);
    assert selected[1..][k] == selected[k + 1];
  }

  // ------------------------------------------------------------------
  // The theorems

  function IdsOf(files: seq<OutgoingFile>): (r: seq<int>)
    ensures |r| == |files| && forall i :: 0 <= i < |r| ==> r[i] == files[i].payloadId
  {
    seq(|files|, i requires 0 <= i < |files| => files[i].payloadId)
  }

  lemma {:induction false} MetadataAt(shipments: seq<Shipment>, i: nat)
    requires i < |shipments|
    ensures var f := shipments[i].file;
            MetadataOf(shipments)[i] == FileMetadata(Some(f.name), Some(f.payloadId), Some(f.size), f.parentFolder)
  {
    if i > 0 {
      MetadataAt(shipments[1..], i - 1);
    }
  }

  /** What a successful `prepare_files` has prepared: the files found, in order, at most 10,000. */
  lemma PreparedSelection(selected: seq<Selected>, draws: seq<nat>)
    requires ProperSelection(selected) && PrepareOutgoing(selected, draws).Ok?
    ensures var files, found := PrepareOutgoing(selected, draws).value, FoundAll(selected);
            && 0 < |files| == |found| <= MAX_SELECTED && AllPlain(selected)
            && (forall i :: 0 <= i < |files| ==>
                  && found[i].rel != [] && files[i].name == found[i].rel[|found[i].rel| - 1]
                  && files[i].parentFolder == ParentOf(found[i].rel) && files[i].size == found[i].size
                  && 0 < files[i].payloadId)
            && (forall i, j :: 0 <= i < j < |files| ==> files[i].payloadId != files[j].payloadId)
            && Total(SizesOf(files)) <= MAX_TOTAL_TRANSFER_BYTES
  {
    CollectAllIff(selected, []);
    var candidates := CollectAll(selected, []).value;
    var none: seq<Candidate> := [];
    assert candidates[|none|..] == candidates;
    AssignMeans(candidates, {}, 0, draws);
    hide CollectAll, Assign, FoundAll, AllPlain, ParentOf, Total;
  }

  ghost predicate ReadyFor(root: Path, disk: Disk, rels: seq<Path>, processId: nat, choices: seq<Choice>) {
    && |choices| == |rels|
    && (forall p :: p in disk ==> !UnderTop(root, rels, p))
    && PartsFree(root, disk, rels, processId, choices)
    && WaysUsable(root, rels, choices)
  }

  /** Tree preservation. For every selection of trees with different, ordinary top names, whose entries all
      bear ordinary names: once `prepare_files` succeeds, and nothing on the receiver's disk stands where the
      tops go, `prepare` succeeds and gives every file found -- each once, in the order of the walk -- exactly
      its relative path below the download directory; and all destinations differ. */
  lemma {:induction false} TreePreserved(
    selected: seq<Selected>, draws: seq<nat>, shipments: seq<Shipment>,
    root: Path, disk: Disk, processId: nat, choices: seq<Choice>)
    requires GoodSelection(selected) && PrepareOutgoing(selected, draws).Ok?
    requires var files := PrepareOutgoing(selected, draws).value;
             |shipments| == |files| && forall i :: 0 <= i < |files| ==> shipments[i].file == files[i]
    requires ReadyFor(root, disk, RelsOf(FoundAll(selected)), processId, choices)
    ensures |shipments| == |FoundAll(selected)|
    ensures var prepared := Prepare(IntroductionOf(shipments), root, disk, processId, choices);
            && prepared.result.Ok?
            && PreparedApart(prepared)
            && (forall id :: id in prepared.result.value.files <==> HasId(shipments, id))
            && (forall i :: 0 <= i < |shipments| ==>
                  && shipments[i].file.payloadId in prepared.result.value.files
                  && prepared.result.value.files[shipments[i].file.payloadId].finalPath == root + FoundAll(selected)[i].rel)
    ensures forall i, j :: 0 <= i < j < |shipments| ==> root + FoundAll(selected)[i].rel != root + FoundAll(selected)[j].rel
  {
    hide Prepare, PrepareOutgoing, FoundAll, Rebuildable, Announces, Placed, FoldersOnly, Total, UnderTop, PartsFree, SizesOf, ParentOf;
    var files, found := PrepareOutgoing(selected, draws).value, FoundAll(selected);
    GoodIsProper(selected);
    PreparedSelection(selected, draws);
    SelectionIsRebuildable(selected);
    hide GoodSelection;
    var rels, ids, sizes := RelsOf(found), IdsOf(files), SizesOf(files);
    var metadata := MetadataOf(shipments);
    AnnouncesSelection(shipments, files, found);
    TreeIsRebuilt(root, disk, metadata, rels, ids, sizes, processId, choices);
    var pending := Prepare(IntroductionOf(shipments), root, disk, processId, choices).result.value.files;
    var after := Prepare(IntroductionOf(shipments), root, disk, processId, choices).disk;
    SelectionGrows(metadata, root, disk, processId, choices);
    PlacedMeans(shipments, files, found, root, processId, choices, pending, disk, after);
    assert forall i :: 0 <= i < |shipments| ==> rels[i] == found[i].rel;
  }

  lemma SelectionGrows(metadata: seq<FileMetadata>, root: Path, disk: Disk, processId: nat, choices: seq<Choice>)
    requires |choices| == |metadata| && Prepare(Introduction(metadata, [], []), root, disk, processId, choices).result.Ok?
    ensures Grown(disk, Prepare(Introduction(metadata, [], []), root, disk, processId, choices).disk)
  {
    PrepareFilesGrow(Preparing(disk, map[], map[], 0), root, metadata, processId, choices);
    hide PrepareFiles;
  }

  lemma GoodIsProper(selected: seq<Selected>)
    requires GoodSelection(selected)
    ensures ProperSelection(selected)
  {
  }

  lemma {:induction false} AnnouncesSelection(shipments: seq<Shipment>, files: seq<OutgoingFile>, found: seq<Found>)
    requires |shipments| == |files| == |found| && forall i :: 0 <= i < |files| ==> shipments[i].file == files[i]
    requires forall i :: 0 <= i < |files| ==>
               && found[i].rel != [] && files[i].name == found[i].rel[|found[i].rel| - 1]
               && files[i].parentFolder == ParentOf(found[i].rel) && files[i].size == found[i].size
    requires forall i, j :: 0 <= i < j < |files| ==> files[i].payloadId != files[j].payloadId
    ensures Announces(MetadataOf(shipments), RelsOf(found), IdsOf(files), SizesOf(files))
  {
    hide ParentOf;
    forall i | 0 <= i < |files|
      ensures MetadataOf(shipments)[i] ==
              FileMetadata(Some(found[i].rel[|found[i].rel| - 1]), Some(files[i].payloadId), Some(files[i].size), ParentOf(found[i].rel))
    {
      MetadataAt(shipments, i);
    }
    hide MetadataOf;
  }

  lemma {:induction false} PlacedMeans(
    shipments: seq<Shipment>, files: seq<OutgoingFile>, found: seq<Found>, root: Path, processId: nat, choices: seq<Choice>,
    pending: map<int, PendingFile>, disk: Disk, after: Disk)
    requires |shipments| == |files| == |found| == |choices| && forall i :: 0 <= i < |files| ==> shipments[i].file == files[i]
    requires forall i :: 0 <= i < |files| ==> 0 <= files[i].size && found[i].rel != []
    requires PartsFree(root, disk, RelsOf(found), processId, choices)
    requires Placed(pending, root, RelsOf(found), IdsOf(files), SizesOf(files), processId, choices, 0)
    requires (forall id :: id in pending <==> id in IdsOf(files)) && Grown(disk, after)
    ensures PartsApart(pending, after)
    ensures forall id :: id in pending <==> HasId(shipments, id)
    ensures forall i :: 0 <= i < |shipments| ==>
              && shipments[i].file.payloadId in pending
              && pending[shipments[i].file.payloadId].finalPath == root + found[i].rel
  {
    var ids, rels := IdsOf(files), RelsOf(found);
    hide UnderTop, PartName, SizesOf;
    IdsAreThose(shipments, files);
    assert forall i :: 0 <= i < |ids| ==> ids[i] in pending && pending[ids[i]].finalPath == root + rels[i];
    forall a, b | a in pending && b in pending
      ensures pending[a].finalPath != pending[b].partPath
    {
      var i :| 0 <= i < |ids| && ids[i] == a;
      var j :| 0 <= j < |ids| && ids[j] == b;
      FinalIsUnderTop(root, rels, i);
      assert !UnderTop(root, rels, PartAt(root, processId, choices, j));
    }
    forall l, b | IsLink(after, l) && b in pending
      ensures after[l].target != pending[b].partPath
    {
      var j :| 0 <= j < |ids| && ids[j] == b;
      assert IsLink(disk, l) && pending[b].partPath == PartAt(root, processId, choices, j);
    }
  }

  lemma IdsAreThose(shipments: seq<Shipment>, files: seq<OutgoingFile>)
    requires |shipments| == |files| && forall i :: 0 <= i < |files| ==> shipments[i].file == files[i]
    ensures forall id :: id in IdsOf(files) <==> HasId(shipments, id)
  {
    var ids := IdsOf(files);
    forall id
      ensures id in ids <==> HasId(shipments, id)
    {
      if id in ids {
        var i :| 0 <= i < |ids| && ids[i] == id;
        assert shipments[i].file.payloadId == id;
      }
      if HasId(shipments, id) {
        var i :| 0 <= i < |shipments| && shipments[i].file.payloadId == id;
        assert ids[i] == id;
      }
    }
  }

  lemma FinalIsUnderTop(root: Path, rels: seq<Path>, i: nat)
    requires i < |rels| && rels[i] != []
    ensures UnderTop(root, rels, root + rels[i])
  {
    assert root + [rels[i][0]] <= root + rels[i];
  }

  /** The whole way. When, after that, the receiver's loop succeeds on the sender's frames with anything
      harmless between them, every file found stands at its relative path with exactly the bytes read. */
  lemma {:induction false} TreeArrives(
    selected: seq<Selected>, draws: seq<nat>, shipments: seq<Shipment>,
    root: Path, disk: Disk, processId: nat, choices: seq<Choice>, buffers: Buffers, arrivals: seq<Arrival>)
    requires GoodSelection(selected) && PrepareOutgoing(selected, draws).Ok?
    requires var files := PrepareOutgoing(selected, draws).value;
             |shipments| == |files| && forall i :: 0 <= i < |files| ==> shipments[i].file == files[i]
    requires ReadyFor(root, disk, RelsOf(FoundAll(selected)), processId, choices)
    requires Benign(arrivals) && Frames(Payloads(arrivals)) == SentFrames(shipments)
    ensures |shipments| == |FoundAll(selected)|
    ensures var prepared := Prepare(IntroductionOf(shipments), root, disk, processId, choices);
            && prepared.result.Ok?
            && var out := ReceiveAll(StartOf(prepared.result.value, prepared.disk, buffers), arrivals);
            out.error.None? ==>
              forall i :: 0 <= i < |shipments| ==>
                var path := root + FoundAll(selected)[i].rel;
                path in out.world.disk && out.world.disk[path] == Regular(Source(shipments[i]))
  {
    hide Prepare, ReceiveAll, PrepareOutgoing, FoundAll, GoodSelection, PartsFree, Benign, Payloads, SentFrames, AllFit;
    hide PreparedApart, Expecting, DeliveredAll, WaysUsable, UnderTop;
    TreePreserved(selected, draws, shipments, root, disk, processId, choices);
    EndToEnd(shipments, root, disk, processId, choices, buffers, arrivals);
    var prepared := Prepare(IntroductionOf(shipments), root, disk, processId, choices);
    var w := StartOf(prepared.result.value, prepared.disk, buffers);
    var out := ReceiveAll(w, arrivals);
    if out.error.None? {
      var rels := RelsOf(FoundAll(selected));
      forall i | 0 <= i < |shipments|
        ensures root + rels[i] in out.world.disk && out.world.disk[root + rels[i]] == Regular(Source(shipments[i]))
      {
        AtItsPlace(w, shipments, out.world, i);
      }
    }
  }

  lemma AtItsPlace(w: World, shipments: seq<Shipment>, end: World, i: nat)
    requires Expecting(w.transfer, shipments) && DeliveredAll(w, shipments, end) && i < |shipments|
    requires forall j, k :: 0 <= j < k < |shipments| ==>
               w.transfer.files[shipments[j].file.payloadId].finalPath != w.transfer.files[shipments[k].file.payloadId].finalPath
    ensures var path := w.transfer.files[shipments[i].file.payloadId].finalPath;
            path in end.disk && end.disk[path] == Regular(Source(shipments[i]))
  {
    DistinctDestinationsKeepTheirFile(end.log, i);
    assert LastAt(end.log, end.log[i].path) == Some(end.log[i].content);
  }

  /** Different tops are needed: two selected folders of one name lose a file of one name. */
  lemma TwoRootsCollide(a: seq<string>, b: seq<string>, m: nat, n: nat)
    requires m + n <= MAX_TOTAL_TRANSFER_BYTES
    ensures var folder := (size: nat) => Folder([Entry("f", File(size))]);
            var selected := [Selected(a + ["d"], folder(m)), Selected(b + ["d"], folder(n))];
            PrepareOutgoing(selected, [1, 2]) == Ok([OutgoingFile("f", Some("d"), m, 1), OutgoingFile("f", Some("d"), n, 2)])
  {
    var first, second := Selected(a + ["d"], Folder([Entry("f", File(m))])), Selected(b + ["d"], Folder([Entry("f", File(n))]));
    var c1, c2 := Candidate(a + ["d"] + ["f"], Some("d"), m), Candidate(b + ["d"] + ["f"], Some("d"), n);
    OneFileFolder(a + ["d"], m, []);
    OneFileFolder(b + ["d"], n, [c1]);
    assert [first, second][1..] == [second] && [second][1..] == [];
    assert [c1] + [c2] == [c1, c2] && [] + [c1] == [c1];
    assert CollectAll([], [c1, c2]) == Ok([c1, c2]);
    assert CollectAll([second], [c1]) == Ok([c1, c2]);
    assert CollectAll([first, second], []) == Ok([c1, c2]);
    hide CollectAll, Collect;
    assert c1.path[|c1.path| - 1] == "f" && c2.path[|c2.path| - 1] == "f";
    AssignTwo(c1, c2);
  }

  lemma AssignTwo(c1: Candidate, c2: Candidate)
    requires c1.size + c2.size <= MAX_TOTAL_TRANSFER_BYTES
    requires c1.path != [] && c1.path[|c1.path| - 1] == "f" && c2.path != [] && c2.path[|c2.path| - 1] == "f"
    ensures Assign([c1, c2], {}, 0, [1, 2]) ==
            Ok([OutgoingFile("f", c1.parentFolder, c1.size, 1), OutgoingFile("f", c2.parentFolder, c2.size, 2)])
  {
    assert FirstFresh({}, [1, 2]) == Some((1, 1));
    assert FirstFresh({1}, [2]) == Some((2, 1));
    assert [c1, c2][1..] == [c2] && [c2][1..] == [] && [1, 2][1..] == [2] && [2][1..] == [];
    var first, second := OutgoingFile("f", c1.parentFolder, c1.size, 1), OutgoingFile("f", c2.parentFolder, c2.size, 2);
    assert Assign([], {1} + {2}, c1.size + c2.size, []) == Ok([]);
    assert [second] + [] == [second] && [first] + [second] == [first, second];
    assert Assign([c2], {1}, c1.size, [2]) == Ok([second]);
    assert {} + {1} == {1};
  }

  lemma OneFileFolder(path: Path, size: nat, files: seq<Candidate>)
    requires path != [] && path[|path| - 1] == "d" && |files| < 2
    ensures Collect(path, Folder([Entry("f", File(size))]), None, files) == Ok(files + [Candidate(path + ["f"], Some("d"), size)])
  {
    var e := Entry("f", File(size));
    assert [e][1..] == [] && Sort([e]) == [e];
    var tree := Folder([e]);
    assert Collect(path + ["f"], File(size), Some("d"), files) == Ok(files + [Candidate(path + ["f"], Some("d"), size)]);
    assert CollectEntries(tree, [e], path, "d", files) == Ok(files + [Candidate(path + ["f"], Some("d"), size)]);
  }
}
