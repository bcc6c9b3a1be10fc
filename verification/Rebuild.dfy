/** The receiver rebuilds the sender's tree: every file prepared from a flattened selection gets its own
    relative path (src/quick_share_receiver.rs:765-868, :1103-1185). */
module Rebuild {
  import opened Prelude
  import opened WireMessages
  import opened Paths
  import opened Transfers
  import opened TreeTheorems

  // ------------------------------------------------------------------
  // What is assumed of the names and of the disk

  predicate Ordinary(rel: Path) {
    rel != [] && forall k :: 0 <= k < |rel| ==> IsComponent(rel[k])
  }

  predicate PrefixFree(rels: seq<Path>) {
    forall i, j :: 0 <= i < |rels| && 0 <= j < |rels| && i != j ==> !(rels[i] <= rels[j])
  }

  predicate Rebuildable(rels: seq<Path>) {
    PrefixFree(rels) && forall i :: 0 <= i < |rels| ==> Ordinary(rels[i])
  }

  /** `p` stands at, or below, the top of one of the paths. */
  predicate UnderTop(root: Path, rels: seq<Path>, p: Path) {
    exists i :: 0 <= i < |rels| && rels[i] != [] && root + [rels[i][0]] <= p
  }

  predicate Inner(root: Path, rels: seq<Path>, p: Path) {
    exists i :: 0 <= i < |rels| && p < root + rels[i]
  }

  function PartAt(root: Path, processId: nat, choices: seq<Choice>, i: nat): Path
    requires i < |choices|
  {
    root + [PartName(processId, choices[i].part)]
  }

  /** No folder on the way to the file fails. */
  predicate WayUsable(root: Path, rel: Path, unusable: set<Path>) {
    forall k :: 0 < k < |rel| ==> root + rel[..k] !in unusable
  }

  /** The random part names are free, pairwise different and different from the tops, and no link leads to one. */
  ghost predicate PartsFree(root: Path, disk: Disk, rels: seq<Path>, processId: nat, choices: seq<Choice>) {
    && (forall i :: 0 <= i < |choices| ==>
          && !choices[i].openFails && PartAt(root, processId, choices, i) !in disk
          && !UnderTop(root, rels, PartAt(root, processId, choices, i)))
    && (forall i, j :: 0 <= i < j < |choices| ==> PartAt(root, processId, choices, i) != PartAt(root, processId, choices, j))
    && (forall l, i :: IsLink(disk, l) && 0 <= i < |choices| ==> disk[l].target != PartAt(root, processId, choices, i))
  }

  /** The folders on the way to every file can be looked at and made. */
  predicate WaysUsable(root: Path, rels: seq<Path>, choices: seq<Choice>) {
    |choices| == |rels| && forall i :: 0 <= i < |rels| ==> WayUsable(root, rels[i], choices[i].unusable)
  }

  /** Below the tops there is nothing but folders that lead to the files. */
  ghost predicate FoldersOnly(root: Path, rels: seq<Path>, disk: Disk) {
    forall p :: p in disk && UnderTop(root, rels, p) ==> disk[p] == Directory && Inner(root, rels, p)
  }

  // ------------------------------------------------------------------
  // Entering the folders of one file

  lemma {:induction false} EnterKnown(root: Path, rels: seq<Path>, disk: Disk, i: nat, k: nat, unusable: set<Path>)
    requires i < |rels| && Ordinary(rels[i]) && k < |rels[i]| && FoldersOnly(root, rels, disk)
    requires WayUsable(root, rels[i], unusable)
    ensures var (after, entered) := EnterFolders(disk, root + rels[i][..k], rels[i][k..|rels[i]| - 1], unusable);
            && entered == Ok(root + rels[i][..|rels[i]| - 1])
            && FoldersOnly(root, rels, after)
            && (forall p :: p in disk ==> p in after && after[p] == disk[p])
            && (forall p :: p in after && p !in disk ==> UnderTop(root, rels, p))
    decreases |rels[i]| - k
  {
    var rel := rels[i];
    var names := rel[k..|rel| - 1];
    if k < |rel| - 1 {
      SanitizeIsProjection(rel[k]);
      var next := root + rel[..k] + [rel[k]];
      assert next == root + rel[..k + 1];
      assert names[1..] == rel[k + 1..|rel| - 1];
      assert root + [rel[0]] <= next && UnderTop(root, rels, next);
      assert next < root + rel by { assert root + rel == next + rel[k + 1..]; }
      assert Inner(root, rels, next);
      var entered := if next in disk then disk else disk[next := Directory];
      hide SanitizeComponent, UnderTop, Inner;
      assert FoldersOnly(root, rels, entered);
      EnterKnown(root, rels, entered, i, k + 1, unusable);
    }
  }

  lemma JoinNotEmpty(parts: seq<string>)
    requires |parts| > 0 && parts[0] != ""
    ensures Join(parts) != ""
  {
    assert |Join(parts)| >= |parts[0]|;
  }

  /** `safe_parent_directory` undoes the joining of folder names. */
  lemma ParentIsEntered(root: Path, rels: seq<Path>, disk: Disk, i: nat, unusable: set<Path>)
    requires i < |rels| && Ordinary(rels[i]) && FoldersOnly(root, rels, disk) && WayUsable(root, rels[i], unusable)
    ensures var (after, entered) := SafeParentDirectory(disk, root, ParentOf(rels[i]), unusable);
            && entered == Ok(root + rels[i][..|rels[i]| - 1])
            && FoldersOnly(root, rels, after)
            && (forall p :: p in disk ==> p in after && after[p] == disk[p])
            && (forall p :: p in after && p !in disk ==> UnderTop(root, rels, p))
  {
    var rel := rels[i];
    var parts := rel[..|rel| - 1];
    hide FoldersOnly, UnderTop;
    if |rel| == 1 {
      assert root + parts == root;
    } else {
      assert forall k :: 0 <= k < |parts| ==> parts[k] == rel[k] && NoSeparators(parts[k]);
      SplitJoin(parts);
      JoinNotEmpty(parts);
      assert root + rel[..0] == root && rel[0..|rel| - 1] == parts;
      EnterKnown(root, rels, disk, i, 0, unusable);
    }
  }

  lemma PrefixBelow(root: Path, a: Path, b: Path)
    ensures root + a <= root + b <==> a <= b
  {
    assert a == (root + a)[|root|..] && b == (root + b)[|root|..];
    if a <= b {
      assert root + b == root + a + b[|a|..];
    }
    if root + a <= root + b {
      assert a == (root + b)[|root|..][..|a|];
    }
  }

  lemma FilesAreNotInner(root: Path, rels: seq<Path>, i: nat)
    requires i < |rels| && PrefixFree(rels)
    ensures !Inner(root, rels, root + rels[i])
  {
    forall j | 0 <= j < |rels|
      ensures !(root + rels[i] < root + rels[j])
    {
      PrefixBelow(root, rels[i], rels[j]);
    }
  }

  /** The place is free: folders are all there is below the tops, and no file's path leads through another. */
  lemma PlaceIsFree(root: Path, rels: seq<Path>, disk: Disk, i: nat, random: nat)
    requires i < |rels| && Rebuildable(rels) && FoldersOnly(root, rels, disk)
    ensures var rel := rels[i];
            UniqueDestination(disk, root + rel[..|rel| - 1], rel[|rel| - 1], random) == root + rel
  {
    var rel := rels[i];
    assert root + rel[..|rel| - 1] + [rel[|rel| - 1]] == root + rel;
    assert root + [rel[0]] <= root + rel && UnderTop(root, rels, root + rel);
    FilesAreNotInner(root, rels, i);
  }

  // ------------------------------------------------------------------
  // One file, then all

  /** What the sender announces of the files at `rels`. */
  ghost predicate Announces(metadata: seq<FileMetadata>, rels: seq<Path>, ids: seq<int>, sizes: seq<nat>) {
    && |metadata| == |rels| == |ids| == |sizes|
    && (forall i :: 0 <= i < |rels| ==>
          && rels[i] != [] && sizes[i] <= MAX_I64
          && metadata[i] == FileMetadata(Some(rels[i][|rels[i]| - 1]), Some(ids[i]), Some(sizes[i]), ParentOf(rels[i])))
    && (forall i, j :: 0 <= i < j < |ids| ==> ids[i] != ids[j])
  }

  /** The disk while the files before `n` have been prepared. */
  ghost predicate Midway(root: Path, before: Disk, rels: seq<Path>, processId: nat, choices: seq<Choice>, n: nat, disk: Disk)
    requires n <= |choices|
  {
    && FoldersOnly(root, rels, disk)
    && (forall p :: p in disk ==>
          p in before || UnderTop(root, rels, p) || exists k :: 0 <= k < n && p == PartAt(root, processId, choices, k))
  }

  lemma PrepareOne(
    p: Preparing, root: Path, before: Disk, metadata: seq<FileMetadata>, rels: seq<Path>, ids: seq<int>, sizes: seq<nat>,
    processId: nat, choices: seq<Choice>, n: nat)
    requires n < |rels| == |choices| && Rebuildable(rels) && Announces(metadata, rels, ids, sizes)
    requires PartsFree(root, before, rels, processId, choices) && Midway(root, before, rels, processId, choices, n, p.disk)
    requires WayUsable(root, rels[n], choices[n].unusable) && p.total + sizes[n] <= MAX_U64 && ids[n] !in p.files
    ensures var (next, error) := PrepareFile(p, root, metadata[n], processId, choices[n]);
            && error == None && Midway(root, before, rels, processId, choices, n + 1, next.disk)
            && next.files == p.files[ids[n] := PendingFile(sizes[n], 0, root + rels[n], PartAt(root, processId, choices, n))]
            && next.texts == p.texts && next.total == p.total + sizes[n]
  {
    var rel := rels[n];
    var partPath := PartAt(root, processId, choices, n);
    FileNameIsComponent(rel[|rel| - 1]);
    ParentIsEntered(root, rels, p.disk, n, choices[n].unusable);
    var disk := SafeParentDirectory(p.disk, root, ParentOf(rel), choices[n].unusable).0;
    PlaceIsFree(root, rels, disk, n, choices[n].fallback);
    assert partPath !in disk by {
      hide FoldersOnly, UnderTop, PartName;
    }
    PartJoins(root, before, rels, processId, choices, n, p.disk, disk);
    hide SafeParentDirectory, UniqueDestination, SanitizeFileName, Midway, PartName, UnderTop, FoldersOnly, PartsFree, Rebuildable;
  }

  lemma PartJoins(
    root: Path, before: Disk, rels: seq<Path>, processId: nat, choices: seq<Choice>, n: nat, disk: Disk, entered: Disk)
    requires n < |choices| && PartsFree(root, before, rels, processId, choices)
    requires Midway(root, before, rels, processId, choices, n, disk)
    requires FoldersOnly(root, rels, entered)
    requires forall p :: p in entered && p !in disk ==> UnderTop(root, rels, p)
    ensures Midway(root, before, rels, processId, choices, n + 1, entered[PartAt(root, processId, choices, n) := Regular([])])
  {
    var part := PartAt(root, processId, choices, n);
    hide UnderTop, Inner, PartAt;
    var made := entered[part := Regular([])];
    forall p | p in made
      ensures p in before || UnderTop(root, rels, p) || exists k :: 0 <= k < n + 1 && p == PartAt(root, processId, choices, k)
    {
    }
  }

  function Total(sizes: seq<nat>): nat {
    if sizes == [] then 0 else sizes[0] + Total(sizes[1..])
  }

  ghost predicate Placed(
    files: map<int, PendingFile>, root: Path, rels: seq<Path>, ids: seq<int>, sizes: seq<nat>, processId: nat, choices: seq<Choice>, n: nat)
    requires |rels| == |ids| == |sizes| == |choices|
  {
    forall i :: n <= i < |rels| ==>
      ids[i] in files && files[ids[i]] == PendingFile(sizes[i], 0, root + rels[i], PartAt(root, processId, choices, i))
  }

  lemma {:induction false} PrepareRest(
    p: Preparing, root: Path, before: Disk, metadata: seq<FileMetadata>, rels: seq<Path>, ids: seq<int>, sizes: seq<nat>,
    processId: nat, choices: seq<Choice>, n: nat)
    requires n <= |rels| == |choices| && Rebuildable(rels) && Announces(metadata, rels, ids, sizes)
    requires PartsFree(root, before, rels, processId, choices) && Midway(root, before, rels, processId, choices, n, p.disk)
    requires WaysUsable(root, rels, choices) && p.total + Total(sizes[n..]) <= MAX_U64
    requires forall i :: n <= i < |ids| ==> ids[i] !in p.files
    ensures var (end, error) := PrepareFiles(p, root, metadata[n..], processId, choices[n..]);
            && error == None && Placed(end.files, root, rels, ids, sizes, processId, choices, n)
            && (forall id :: id in p.files ==> id in end.files && end.files[id] == p.files[id])
            && (forall id :: id in end.files ==> id in p.files || id in ids)
            && end.texts == p.texts && end.total == p.total + Total(sizes[n..])
            && FoldersOnly(root, rels, end.disk)
    decreases |rels| - n
  {
    hide PrepareFile, Rebuildable, PartsFree;
    if n < |rels| {
      PrepareOne(p, root, before, metadata, rels, ids, sizes, processId, choices, n);
      var next := PrepareFile(p, root, metadata[n], processId, choices[n]).0;
      assert metadata[n..][0] == metadata[n] && metadata[n..][1..] == metadata[n + 1..];
      assert choices[n..][0] == choices[n] && choices[n..][1..] == choices[n + 1..];
      assert sizes[n..][0] == sizes[n] && sizes[n..][1..] == sizes[n + 1..];
      hide Midway, FoldersOnly;
      PrepareRest(next, root, before, metadata, rels, ids, sizes, processId, choices, n + 1);
    } else {
      hide FoldersOnly;
    }
  }

  /** The tree is rebuilt: when the paths are ordinary and prefix-free, nothing stands where their tops go,
      the folders can be made and the part names are free, `prepare` succeeds and gives every file exactly its relative path below the
      download directory, so all destinations differ. */
  lemma {:induction false} TreeIsRebuilt(
    root: Path, disk: Disk, metadata: seq<FileMetadata>, rels: seq<Path>, ids: seq<int>, sizes: seq<nat>,
    processId: nat, choices: seq<Choice>)
    requires rels != [] && |rels| == |choices| && Rebuildable(rels) && Announces(metadata, rels, ids, sizes)
    requires Total(sizes) <= MAX_TOTAL_TRANSFER_BYTES
    requires forall p :: p in disk ==> !UnderTop(root, rels, p)
    requires PartsFree(root, disk, rels, processId, choices) && WaysUsable(root, rels, choices)
    ensures var prepared := Prepare(Introduction(metadata, [], []), root, disk, processId, choices);
            && prepared.result.Ok?
            && Placed(prepared.result.value.files, root, rels, ids, sizes, processId, choices, 0)
            && (forall id :: id in prepared.result.value.files <==> id in ids)
            && prepared.result.value.totalBytes == Total(sizes)
            && FoldersOnly(root, rels, prepared.disk)
    ensures forall i, j :: 0 <= i < j < |rels| ==> root + rels[i] != root + rels[j]
  {
    PrepareRest(Preparing(disk, map[], map[], 0), root, disk, metadata, rels, ids, sizes, processId, choices, 0);
    assert metadata[0..] == metadata && choices[0..] == choices && sizes[0..] == sizes;
    forall i, j | 0 <= i < j < |rels|
      ensures root + rels[i] != root + rels[j]
    {
      assert rels[i] == (root + rels[i])[|root|..] && rels[j] == (root + rels[j])[|root|..];
      assert !(rels[i] <= rels[j]);
    }
    hide PrepareFiles, Placed, FoldersOnly, UnderTop, PartsFree, Rebuildable, Announces;
  }
}
