/** What `prepare` establishes, and what it leaves on the disk when it fails. */
module Preparation {
  import opened Prelude
  import opened WireMessages
  import opened Assembler
  import opened Paths
  import opened Transfers
  import opened TransferInvariant

  /** The disk only gained directories and empty files. */
  ghost predicate Grown(before: Disk, after: Disk) {
    && (forall p :: p in before ==> p in after && after[p] == before[p])
    && (forall p :: p in after && p !in before ==> after[p] == Directory || after[p] == Regular([]))
  }

  ghost predicate FilesSound(p: Preparing, root: Path, before: Disk) {
    && (forall id :: id in p.files ==>
          && p.files[id].received == 0 && p.files[id].expectedSize <= MAX_I64
          && p.files[id].partPath in p.disk && p.disk[p.files[id].partPath] == Regular([])
          && p.files[id].partPath !in before
          && PartShape(root, p.files[id].partPath))
    && (forall i, j :: i in p.files && j in p.files && i != j ==> p.files[i].partPath != p.files[j].partPath)
    && (forall x :: x in p.disk && x !in before && p.disk[x].Regular? ==> x in PartPaths(p.files))
  }

  ghost predicate PreparingSound(p: Preparing, root: Path, before: Disk) {
    && Grown(before, p.disk)
    && p.files.Keys !! p.texts.Keys
    && Sum(DeclaredOf(p.files)) + Sum(DeclaredTexts(p.texts)) == p.total
    && FilesSound(p, root, before)
  }

  lemma FoldersGrow(disk: Disk, root: Path, parentFolder: Option<string>, unusable: set<Path>)
    ensures var after := SafeParentDirectory(disk, root, parentFolder, unusable).0;
            && Grown(disk, after)
            && (forall x :: x in after && x !in disk ==> after[x] == Directory)
  {
    if parentFolder.Some? && parentFolder.value != "" {
      EnteredBelow(disk, root, root, Split(parentFolder.value), unusable);
    }
  }

  /** Different random numbers name different part files. */
  lemma PartNamesDiffer(a: nat, b: nat, m: nat, n: nat)
    requires PartName(a, m) == PartName(b, n)
    ensures a == b && m == n
  {
    var x, y, v, w := Decimal(a), Decimal(b), Decimal(m), Decimal(n);
    DecimalReads(a);
    DecimalReads(b);
    DecimalReads(m);
    DecimalReads(n);
    NoDash(x);
    NoDash(y);
    hide Decimal;
    hide PartName;
    FirstFields(".hirodrop-", x, v, y, w, ".part");
  }

  lemma FirstFields(head: string, x: string, v: string, y: string, w: string, tail: string)
    requires '-' !in x && '-' !in y && head + x + "-" + v + tail == head + y + "-" + w + tail
    ensures x == y && v == w
  {
    var s := head + x + "-" + v + tail;
    assert s[|head|..] == x + "-" + (v + tail) && s[|head|..] == y + "-" + (w + tail);
    FirstDash(x, v + tail, y, w + tail);
    assert (v + tail)[..|v|] == v && (w + tail)[..|w|] == w && |v| == |w|;
  }

  lemma NoDash(digits: string)
    requires forall i :: 0 <= i < |digits| ==> '0' <= digits[i] <= '9'
    ensures '-' !in digits
  {
  }

  lemma FirstDash(x: string, v: string, y: string, w: string)
    requires '-' !in x && '-' !in y && x + "-" + v == y + "-" + w
    ensures x == y && v == w
  {
    var s := x + "-" + v;
    assert forall i :: 0 <= i < |x| ==> s[i] == x[i] && s[i] != '-';
    assert forall i :: 0 <= i < |y| ==> s[i] == y[i] && s[i] != '-';
    assert s[|x|] == '-' && s[|y|] == '-' && |x| == |y|;
    assert s[..|x|] == x && s[..|y|] == y && s[|x| + 1..] == v && s[|y| + 1..] == w;
  }

  /** The name of a text: the time in decimal digits, and the ending that tells a URL. */
  lemma TextNameReads(isUrl: bool, now: nat) returns (digits: string)
    ensures TextName(isUrl, now) == "Quick Share " + digits + (if isUrl then ".url.txt" else ".txt")
    ensures (forall i :: 0 <= i < |digits| ==> '0' <= digits[i] <= '9') && ValueOf(digits) == now
  {
    digits := Decimal(now);
    DecimalReads(now);
    hide Decimal;
  }

  lemma PartNameShape(root: Path, processId: nat, random: nat)
    ensures PartShape(root, root + [PartName(processId, random)])
  {
    assert PartName(processId, random)[0] == '.';
  }

  lemma PrepareFileGrows(p: Preparing, root: Path, metadata: FileMetadata, processId: nat, choice: Choice)
    ensures Grown(p.disk, PrepareFile(p, root, metadata, processId, choice).0.disk)
  {
    FoldersGrow(p.disk, root, metadata.parentFolder, choice.unusable);
  }

  lemma PrepareFileKeepsFiles(p: Preparing, root: Path, before: Disk, metadata: FileMetadata, processId: nat, choice: Choice)
    requires FilesSound(p, root, before) && Grown(before, p.disk)
    requires PrepareFile(p, root, metadata, processId, choice).1.None?
    ensures FilesSound(PrepareFile(p, root, metadata, processId, choice).0, root, before)
  {
    FoldersGrow(p.disk, root, metadata.parentFolder, choice.unusable);
    PartNameShape(root, processId, choice.part);
    hide SafeParentDirectory, UniqueDestination, PartName, SanitizeFileName, PartShape;
    var disk := SafeParentDirectory(p.disk, root, metadata.parentFolder, choice.unusable).0;
    var next := PrepareFile(p, root, metadata, processId, choice).0;
    var id, partPath := metadata.payloadId.value, root + [PartName(processId, choice.part)];
    assert partPath !in disk && next.disk == disk[partPath := Regular([])];
    assert next.files == p.files[id := next.files[id]] && next.files[id].partPath == partPath;
    forall x | x in next.disk && x !in before && next.disk[x].Regular?
      ensures x in PartPaths(next.files)
    {
      if x == partPath {
        assert next.files[id].partPath == x;
      } else {
        assert x in p.disk && x in PartPaths(p.files);
        var i :| i in p.files && p.files[i].partPath == x;
        assert next.files[i].partPath == x;
      }
    }
  }

  lemma PrepareFileSound(p: Preparing, root: Path, before: Disk, metadata: FileMetadata, processId: nat, choice: Choice)
    requires PreparingSound(p, root, before) && p.texts == map[]
    requires PrepareFile(p, root, metadata, processId, choice).1.None?
    ensures var next := PrepareFile(p, root, metadata, processId, choice).0;
            PreparingSound(next, root, before) && next.texts == map[]
  {
    PrepareFileAdds(p, root, metadata, processId, choice);
    PrepareFileGrows(p, root, metadata, processId, choice);
    PrepareFileKeepsFiles(p, root, before, metadata, processId, choice);
    hide FilesSound, PrepareFile, Sum;
    var next := PrepareFile(p, root, metadata, processId, choice).0;
    var id := metadata.payloadId.value;
    SumUpdate(DeclaredOf(p.files), id, metadata.size.value);
    assert DeclaredOf(next.files) == DeclaredOf(p.files)[id := metadata.size.value];
    assert DeclaredOf(p.files) - {id} == DeclaredOf(p.files);
  }

  /** A file taken up is a new entry with its declared size. */
  lemma PrepareFileAdds(p: Preparing, root: Path, metadata: FileMetadata, processId: nat, choice: Choice)
    requires PrepareFile(p, root, metadata, processId, choice).1.None?
    ensures var next := PrepareFile(p, root, metadata, processId, choice).0;
            && metadata.payloadId.Some? && ValidSize(metadata.size) && metadata.payloadId.value !in p.files
            && metadata.payloadId.value in next.files
            && next.files == p.files[metadata.payloadId.value := next.files[metadata.payloadId.value]]
            && next.files[metadata.payloadId.value].expectedSize == metadata.size.value
            && next.texts == p.texts && next.total == p.total + metadata.size.value
  {
    hide SafeParentDirectory, UniqueDestination, PartName, SanitizeFileName;
  }

  lemma {:induction false} PrepareFilesSound(
    p: Preparing, root: Path, before: Disk, files: seq<FileMetadata>, processId: nat, choices: seq<Choice>)
    requires PreparingSound(p, root, before) && p.texts == map[] && |choices| == |files|
    requires PrepareFiles(p, root, files, processId, choices).1.None?
    ensures var next := PrepareFiles(p, root, files, processId, choices).0;
            PreparingSound(next, root, before) && next.texts == map[]
    decreases |files|
  {
    hide PreparingSound, PrepareFile;
    if files != [] {
      PrepareFileSound(p, root, before, files[0], processId, choices[0]);
      PrepareFilesSound(PrepareFile(p, root, files[0], processId, choices[0]).0, root, before, files[1..], processId, choices[1..]);
    }
  }

  lemma {:induction false} PrepareFilesGrow(p: Preparing, root: Path, files: seq<FileMetadata>, processId: nat, choices: seq<Choice>)
    requires |choices| == |files|
    ensures Grown(p.disk, PrepareFiles(p, root, files, processId, choices).0.disk)
    decreases |files|
  {
    if files != [] {
      PrepareFileGrows(p, root, files[0], processId, choices[0]);
      PrepareFilesGrow(PrepareFile(p, root, files[0], processId, choices[0]).0, root, files[1..], processId, choices[1..]);
      hide PrepareFile;
    }
  }

  lemma {:induction false} PrepareTextsSound(p: Preparing, root: Path, before: Disk, texts: seq<TextMetadata>)
    requires PreparingSound(p, root, before) && PrepareTexts(p, texts).1.None?
    ensures PreparingSound(PrepareTexts(p, texts).0, root, before)
    decreases |texts|
  {
    if texts != [] {
      var next := PrepareText(p, texts[0]).0;
      var id := texts[0].payloadId.value;
      assert DeclaredTexts(next.texts) == DeclaredTexts(p.texts)[id := texts[0].size.value];
      SumUpdate(DeclaredTexts(p.texts), id, texts[0].size.value);
      assert DeclaredTexts(p.texts) - {id} == DeclaredTexts(p.texts);
      hide Sum;
      assert next.files == p.files && next.disk == p.disk;
      assert FilesSound(next, root, before);
      PrepareTextsSound(next, root, before, texts[1..]);
    }
  }

  lemma {:induction false} PrepareTextsKeepDisk(p: Preparing, texts: seq<TextMetadata>)
    ensures PrepareTexts(p, texts).0.disk == p.disk
    decreases |texts|
  {
    if texts != [] {
      PrepareTextsKeepDisk(PrepareText(p, texts[0]).0, texts[1..]);
    }
  }

  /** No destination, and no link on the disk, happens to have the random name of a part file. */
  ghost predicate PartsApart(files: map<int, PendingFile>, disk: Disk) {
    && (forall i, j :: i in files && j in files ==> files[i].finalPath != files[j].partPath)
    && (forall p, i :: IsLink(disk, p) && i in files ==> disk[p].target != files[i].partPath)
  }

  /** For a transfer that `prepare` has accepted. */
  ghost predicate PreparedApart(prepared: Prepared)
    requires prepared.result.Ok?
  {
    PartsApart(prepared.result.value.files, prepared.disk)
  }

  function StartOf(transfer: Transfer, disk: Disk, buffers: Buffers): World {
    World(transfer, buffers, disk, [])
  }

  lemma SumOfZeros(m: map<int, nat>)
    requires forall k :: k in m ==> m[k] == 0
    ensures Sum(m) == 0
    decreases |m|
  {
    if k :| k in m {
      SumRemove(m, k);
      SumOfZeros(m - {k});
    }
  }

  /** A successful `prepare` establishes the invariant of the whole transfer: accounts open at zero, the
      offer within 100 GiB, one fresh empty part file per file and no other new file, nothing overwritten. */
  lemma PrepareEstablishesSound(
    introduction: Introduction, root: Path, disk: Disk, processId: nat, choices: seq<Choice>, buffers: Buffers)
    requires |choices| == |introduction.files|
    requires Prepare(introduction, root, disk, processId, choices).result.Ok?
    requires PreparedApart(Prepare(introduction, root, disk, processId, choices))
    ensures var prepared := Prepare(introduction, root, disk, processId, choices);
            var t := prepared.result.value;
            && Sound(StartOf(t, prepared.disk, buffers))
            && t.receivedBytes == 0 && t.totalBytes <= MAX_TOTAL_TRANSFER_BYTES
            && Grown(disk, prepared.disk)
            && (forall p :: p in prepared.disk && p !in disk ==> (prepared.disk[p].Regular? <==> p in PartPaths(t.files)))
            && (forall p :: p in PartPaths(t.files) ==> p !in disk)
  {
    hide Sum, PrepareFiles, PrepareTexts, PreparingSound, Sound, Grown;
    var p0 := Preparing(disk, map[], map[], 0);
    NothingPreparedYet(root, disk);
    PrepareFilesSound(p0, root, disk, introduction.files, processId, choices);
    var p1 := PrepareFiles(p0, root, introduction.files, processId, choices).0;
    PrepareTextsSound(p1, root, disk, introduction.texts);
    var p2 := PrepareTexts(p1, introduction.texts).0;
    var previews := set id | id in introduction.previews;
    PreparedIsSound(p2, root, disk, previews, buffers);
  }

  lemma NothingPreparedYet(root: Path, disk: Disk)
    ensures PreparingSound(Preparing(disk, map[], map[], 0), root, disk)
  {
    assert DeclaredOf(map[]) == map[] && DeclaredTexts(map[]) == map[];
    SumOfZeros(map[]);
  }

  lemma PreparedIsSound(p: Preparing, root: Path, before: Disk, previews: set<int>, buffers: Buffers)
    requires PreparingSound(p, root, before) && p.total <= MAX_TOTAL_TRANSFER_BYTES && PartsApart(p.files, p.disk)
    ensures var t := Transfer(p.files, p.texts, previews, root, [], p.total, 0);
            && Sound(StartOf(t, p.disk, buffers))
            && Grown(before, p.disk)
            && (forall x :: x in p.disk && x !in before ==> (p.disk[x].Regular? <==> x in PartPaths(p.files)))
            && (forall x :: x in PartPaths(p.files) ==> x !in before)
  {
    hide Sum;
    SumOfZeros(ReceivedOf(p.files));
    var w := StartOf(Transfer(p.files, p.texts, previews, root, [], p.total, 0), p.disk, buffers);
    assert w.log == [];
    assert Accounts(w);
    assert PartsSound(w);
    assert LogSound(w);
  }

  lemma {:induction false} FirstPartStays(p: Preparing, root: Path, files: seq<FileMetadata>, processId: nat, choices: seq<Choice>)
    requires |choices| == |files| && files != []
    requires PrepareFile(p, root, files[0], processId, choices[0]).1.None?
    ensures var part := root + [PartName(processId, choices[0].part)];
            var after := PrepareFiles(p, root, files, processId, choices).0.disk;
            part !in p.disk && part in after && after[part].Regular?
  {
    FoldersGrow(p.disk, root, files[0].parentFolder, choices[0].unusable);
    var next := PrepareFile(p, root, files[0], processId, choices[0]).0;
    PrepareFilesGrow(next, root, files[1..], processId, choices[1..]);
    assert PrepareFiles(p, root, files, processId, choices) == PrepareFiles(next, root, files[1..], processId, choices[1..]);
    hide PrepareFiles;
  }

  lemma RefusedFirstFileMakesNothing(p: Preparing, root: Path, metadata: FileMetadata, processId: nat, choice: Choice)
    requires p.files == map[] && PrepareFile(p, root, metadata, processId, choice).1.Some?
    ensures var after := PrepareFile(p, root, metadata, processId, choice).0.disk;
            forall x :: x in after && x !in p.disk ==> after[x] == Directory
  {
    FoldersGrow(p.disk, root, metadata.parentFolder, choice.unusable);
  }

  // ------------------------------------------------------------------
  // What a failing `prepare` leaves

  /** The folder names after sanitising, as long as there are any. */
  function Names(components: seq<string>): (r: Option<seq<string>>)
    ensures r.Some? ==> |r.value| == |components|
  {
    if components == [] then Some([])
    else if SanitizeComponent(components[0]).None? || Names(components[1..]).None? then None
    else Some([SanitizeComponent(components[0]).value] + Names(components[1..]).value)
  }

  /** On the way down from `directory` nothing but a directory is met, and every folder can be looked at or made. */
  predicate WayIsClear(disk: Disk, directory: Path, names: seq<string>, unusable: set<Path>) {
    forall n :: 1 <= n <= |names| ==>
      var folder := directory + names[..n];
      folder !in unusable && (folder in disk ==> disk[folder].Directory?)
  }

  /** The folders can be entered exactly when every name can be sanitised and the way is clear; and those made are
      on that way. */
  lemma {:induction false} EntersIff(disk: Disk, directory: Path, components: seq<string>, unusable: set<Path>)
    ensures var (after, entered) := EnterFolders(disk, directory, components, unusable);
            && (entered.Ok? <==> Names(components).Some? && WayIsClear(disk, directory, Names(components).value, unusable))
            && (entered.Ok? ==>
                  forall x :: x in after <==>
                    x in disk || exists n :: 1 <= n <= |components| && x == directory + Names(components).value[..n])
    decreases |components|
  {
    if components == [] {
    } else if SanitizeComponent(components[0]).Some? {
      hide SanitizeComponent;
      var name := SanitizeComponent(components[0]).value;
      var next, rest := directory + [name], components[1..];
      var mid := if next in disk then disk else disk[next := Directory];
      EntersIff(mid, next, rest, unusable);
      if Names(rest).Some? {
        var names, tail := Names(components).value, Names(rest).value;
        OneFolderDown(disk, directory, name, tail, unusable);
        hide WayIsClear;
        if EnterFolders(disk, directory, components, unusable).1.Ok? {
          FoldersMade(disk, directory, name, tail, EnterFolders(mid, next, rest, unusable).0);
        }
      }
    }
  }

  lemma OneFolderDown(disk: Disk, directory: Path, name: string, tail: seq<string>, unusable: set<Path>)
    ensures var next := directory + [name];
            var mid := if next in disk then disk else disk[next := Directory];
            WayIsClear(disk, directory, [name] + tail, unusable)
            <==> next !in unusable && (next in disk ==> disk[next].Directory?) && WayIsClear(mid, next, tail, unusable)
  {
    var next, names := directory + [name], [name] + tail;
    var mid := if next in disk then disk else disk[next := Directory];
    forall n | 1 <= n <= |tail|
      ensures next + tail[..n] == directory + names[..n + 1] && next + tail[..n] != next
    {
      assert names[..n + 1] == [name] + tail[..n];
      assert |next + tail[..n]| > |next|;
    }
    assert directory + names[..1] == next;
    if WayIsClear(disk, directory, names, unusable) {
      forall n | 1 <= n <= |tail|
        ensures next + tail[..n] !in unusable && (next + tail[..n] in mid ==> mid[next + tail[..n]].Directory?)
      {
        assert directory + names[..n + 1] !in unusable;
      }
      assert directory + names[..1] !in unusable;
    }
    if next !in unusable && (next in disk ==> disk[next].Directory?) && WayIsClear(mid, next, tail, unusable) {
      forall n | 1 <= n <= |names|
        ensures directory + names[..n] !in unusable
        ensures directory + names[..n] in disk ==> disk[directory + names[..n]].Directory?
      {
        if n > 1 {
          assert next + tail[..n - 1] == directory + names[..n];
        }
      }
    }
  }

  lemma FoldersMade(disk: Disk, directory: Path, name: string, tail: seq<string>, after: Disk)
    requires var next := directory + [name];
             var mid := if next in disk then disk else disk[next := Directory];
             forall x :: x in after <==> x in mid || exists n :: 1 <= n <= |tail| && x == next + tail[..n]
    ensures forall x :: x in after <==> x in disk || exists n :: 1 <= n <= 1 + |tail| && x == directory + ([name] + tail)[..n]
  {
    var next, names := directory + [name], [name] + tail;
    forall n | 1 <= n <= |names|
      ensures directory + names[..n] == next + tail[..n - 1]
    {
      assert names[..n] == [name] + tail[..n - 1];
    }
    assert next + tail[..0] == next;
    forall x
      ensures x in after <==> x in disk || exists n :: 1 <= n <= |names| && x == directory + names[..n]
    {
      if n :| 1 <= n <= |tail| && x == next + tail[..n] {
        assert x == directory + names[..n + 1];
      }
      if x == next {
        assert x == directory + names[..1];
      }
      if n :| 1 <= n <= |names| && x == directory + names[..n] {
        assert x == next + tail[..n - 1];
      }
    }
  }

  /** The folder asked for can be entered, and its way does not lead over the path of the part file. */
  predicate FolderOpen(disk: Disk, root: Path, parentFolder: Option<string>, unusable: set<Path>, part: string) {
    parentFolder.None? || parentFolder.value == ""
    || (var names := Names(Split(parentFolder.value));
        names.Some? && WayIsClear(disk, root, names.value, unusable) && names.value[0] != part)
  }

  /** An entry that is first in its introduction gets its part file: it has an id, a size that is not negative, and
      a name that can be sanitised; its folder can be entered; and the part file is not there yet and can be
      opened. */
  predicate GetsPart(disk: Disk, root: Path, metadata: FileMetadata, processId: nat, choice: Choice) {
    var part := PartName(processId, choice.part);
    && metadata.payloadId.Some? && ValidSize(metadata.size)
    && metadata.name.Some? && SanitizeFileName(metadata.name.value).Some?
    && FolderOpen(disk, root, metadata.parentFolder, choice.unusable, part)
    && root + [part] !in disk && !choice.openFails
  }

  lemma ParentIff(disk: Disk, root: Path, parentFolder: Option<string>, unusable: set<Path>, part: string)
    ensures var (after, parent) := SafeParentDirectory(disk, root, parentFolder, unusable);
            FolderOpen(disk, root, parentFolder, unusable, part) && root + [part] !in disk <==> parent.Ok? && root + [part] !in after
  {
    if parentFolder.Some? && parentFolder.value != "" {
      var components := Split(parentFolder.value);
      EntersIff(disk, root, components, unusable);
      var (after, entered) := EnterFolders(disk, root, components, unusable);
      if entered.Ok? {
        var names := Names(components).value;
        forall n | 1 <= n <= |names|
          ensures root + [part] == root + names[..n] <==> n == 1 && names[0] == part
        {
          assert root + [part] == root + names[..n] ==> |names[..n]| == 1;
          assert n == 1 ==> names[..1] == [names[0]];
          assert root + names[..1] == root + [names[0]];
          assert (root + [part])[|root|] == part && (root + [names[0]])[|root|] == names[0];
        }
        if names[0] == part {
          assert root + [part] == root + names[..1];
        }
        hide WayIsClear, Names, EnterFolders;
      }
    }
  }

  lemma GetsPartIff(disk: Disk, root: Path, metadata: FileMetadata, processId: nat, choice: Choice)
    ensures PrepareFile(Preparing(disk, map[], map[], 0), root, metadata, processId, choice).1.None?
            <==> GetsPart(disk, root, metadata, processId, choice)
  {
    ParentIff(disk, root, metadata.parentFolder, choice.unusable, PartName(processId, choice.part));
    hide SafeParentDirectory, FolderOpen, SanitizeFileName, UniqueDestination, PartName;
    var (after, parent) := SafeParentDirectory(disk, root, metadata.parentFolder, choice.unusable);
    var part := root + [PartName(processId, choice.part)];
    if metadata.payloadId.Some? && ValidSize(metadata.size) && metadata.name.Some? && SanitizeFileName(metadata.name.value).Some? {
      var step := PrepareFile(Preparing(disk, map[], map[], 0), root, metadata, processId, choice);
      if parent.Err? {
        assert step.1.Some?;
      } else if part in after || choice.openFails {
        assert step.1.Some?;
      } else {
        assert step.1.None?;
      }
    }
  }

  /** A failing `prepare` leaves files behind exactly when its first entry gets its part file: nothing after that
      point is undone. */
  lemma FailedPrepareLeavesPartsIff(introduction: Introduction, root: Path, disk: Disk, processId: nat, choices: seq<Choice>)
    requires |choices| == |introduction.files|
    requires Prepare(introduction, root, disk, processId, choices).result.Err?
    ensures var after := Prepare(introduction, root, disk, processId, choices).disk;
            (exists x :: x in after && x !in disk && after[x].Regular?)
            <==> introduction.files != [] && GetsPart(disk, root, introduction.files[0], processId, choices[0])
  {
    var p0 := Preparing(disk, map[], map[], 0);
    var p1 := PrepareFiles(p0, root, introduction.files, processId, choices).0;
    PrepareTextsKeepDisk(p1, introduction.texts);
    assert introduction.files != [] || introduction.texts != [] ==>
      Prepare(introduction, root, disk, processId, choices).disk == p1.disk;
    if introduction.files != [] {
      GetsPartIff(disk, root, introduction.files[0], processId, choices[0]);
      hide GetsPart;
      if PrepareFile(p0, root, introduction.files[0], processId, choices[0]).1.None? {
        FirstPartStays(p0, root, introduction.files, processId, choices);
      } else {
        RefusedFirstFileMakesNothing(p0, root, introduction.files[0], processId, choices[0]);
      }
    }
  }

  /** Such an input: two entries with one id. The second is refused, and by then the part files of both are on the
      disk. */
  lemma RefusedTwinsLeaveParts(processId: nat, p: nat, q: nat)
    requires PartName(processId, p) != PartName(processId, q)
    requires PartName(processId, p) != "a" && PartName(processId, q) != "a"
    ensures var twice := FileMetadata(Some("a"), Some(1), Some(1), None);
            var prepared := Prepare(
              Introduction([twice, twice], [], []), ["d"], map[["d"] := Directory], processId, [Choice(p, 0, false), Choice(q, 0, false)]);
            && prepared.result == Err(UnsafeMetadata)
            && prepared.disk == map[
                 ["d"] := Directory, ["d", PartName(processId, p)] := Regular([]), ["d", PartName(processId, q)] := Regular([])]
  {
    var twice := FileMetadata(Some("a"), Some(1), Some(1), None);
    var disk: Disk := map[["d"] := Directory];
    var partP, partQ := ["d"] + [PartName(processId, p)], ["d"] + [PartName(processId, q)];
    assert partP[1] == PartName(processId, p) && partQ[1] == PartName(processId, q);
    assert partP == ["d", PartName(processId, p)] && partQ == ["d", PartName(processId, q)];
    assert IsComponent("a") by { assert "a"[0] == 'a'; }
    FileNameIsComponent("a");
    hide PartName, SanitizeFileName, Numbered, FirstFree, IsComponent;
    var p0 := Preparing(disk, map[], map[], 0);
    var (p1, error) := PrepareFile(p0, ["d"], twice, processId, Choice(p, 0, false));
    assert error == None && 1 in p1.files && p1.disk == disk[partP := Regular([])] && p1.total == 1;
    var last := PrepareFile(p1, ["d"], twice, processId, Choice(q, 0, false));
    assert last.1 == Some(UnsafeMetadata) && last.0.disk == p1.disk[partQ := Regular([])];
    hide PrepareFile;
    assert [twice, twice][1..] == [twice] && [Choice(p, 0, false), Choice(q, 0, false)][1..] == [Choice(q, 0, false)];
    assert PrepareFiles(p1, ["d"], [twice], processId, [Choice(q, 0, false)]) == last;
    assert PrepareFiles(p0, ["d"], [twice, twice], processId, [Choice(p, 0, false), Choice(q, 0, false)]) == last;
  }
}
