/** Flattening what the user selected (`prepare_files`, `collect_selected_path`,
    src/quick_share_sender.rs:266-385). */
module Trees {
  import opened Prelude
  import opened Paths
  import opened Sending

  const MAX_SELECTED: nat := 10_000

  /** What stands at a path. `Unreadable` is a path whose metadata or entries cannot be read; the entries of a
      folder are in the order in which the directory is read. */
  datatype Tree = File(size: nat) | Folder(entries: seq<Entry>) | Link | Special | Unreadable

  datatype Entry = Entry(name: string, tree: Tree)

  /** A selected path; it is empty when it has no last component, like "/". */
  datatype Selected = Selected(path: Path, tree: Tree)

  datatype Candidate = Candidate(path: Path, parentFolder: Option<string>, size: nat)

  datatype PrepareError = InvalidFile | TransferTooLarge | StillDrawing

  // ------------------------------------------------------------------
  // Names in order

  predicate Less(a: string, b: string) {
    b != "" && (a == "" || a[0] < b[0] || (a[0] == b[0] && Less(a[1..], b[1..])))
  }

  lemma {:induction false} LessIsStrict(a: string, b: string)
    ensures !(Less(a, b) && Less(b, a)) && !Less(a, a)
    ensures a == b || Less(a, b) || Less(b, a)
  {
    if a != "" && b != "" {
      LessIsStrict(a[1..], b[1..]);
      assert a == [a[0]] + a[1..] && b == [b[0]] + b[1..];
    }
    if a != "" {
      LessIsStrict(a[1..], a[1..]);
    }
  }

  lemma {:induction false} LessIsTransitive(a: string, b: string, c: string)
    requires Less(a, b) && Less(b, c)
    ensures Less(a, c)
  {
    if a != "" && a[0] == b[0] == c[0] {
      LessIsTransitive(a[1..], b[1..], c[1..]);
    }
  }

  /** The names agree in their first `k` characters, and then the one ends or has the smaller character. */
  predicate SmallerAt(a: string, b: string, k: nat) {
    k <= |a| && k < |b| && a[..k] == b[..k] && (k == |a| || a[k] < b[k])
  }

  lemma {:induction false} LessIff(a: string, b: string)
    ensures Less(a, b) <==> exists k: nat :: SmallerAt(a, b, k)
  {
    if b != "" && a != "" && a[0] == b[0] {
      LessIff(a[1..], b[1..]);
      if k: nat :| SmallerAt(a[1..], b[1..], k) {
        assert a[..k + 1] == [a[0]] + a[1..][..k] && b[..k + 1] == [b[0]] + b[1..][..k];
        assert SmallerAt(a, b, k + 1);
      }
      if k: nat :| SmallerAt(a, b, k) {
        assert k > 0;
        assert a[1..][..k - 1] == a[..k][1..] && b[1..][..k - 1] == b[..k][1..];
        assert SmallerAt(a[1..], b[1..], k - 1);
      }
    } else {
      if Less(a, b) {
        assert SmallerAt(a, b, 0);
      }
      if k: nat :| SmallerAt(a, b, k) {
        assert k > 0 ==> a[..k][0] == b[..k][0];
      }
    }
  }

  function Insert(e: Entry, sorted: seq<Entry>): (r: seq<Entry>)
    ensures multiset(r) == multiset(sorted) + multiset{e}
  {
    if sorted == [] || !Less(sorted[0].name, e.name) then [e] + sorted
    else
      assert sorted == [sorted[0]] + sorted[1..];
      [sorted[0]] + Insert(e, sorted[1..])
  }

  /** `sort_by_key` on the file names. */
  function Sort(entries: seq<Entry>): (r: seq<Entry>)
    ensures multiset(r) == multiset(entries)
    ensures |r| == |entries|
  {
    if entries == [] then []
    else
      assert entries == [entries[0]] + entries[1..];
      var r := Insert(entries[0], Sort(entries[1..]));
      assert |multiset(r)| == |multiset(entries)|;
      r
  }

  lemma SortMember(entries: seq<Entry>, e: Entry)
    ensures e in Sort(entries) <==> e in entries
  {
    assert e in multiset(Sort(entries)) <==> e in multiset(entries);
  }

  predicate Increasing(entries: seq<Entry>) {
    forall i, j :: 0 <= i < j < |entries| ==> Less(entries[i].name, entries[j].name)
  }

  predicate DistinctNames(entries: seq<Entry>) {
    forall i, j :: 0 <= i < j < |entries| ==> entries[i].name != entries[j].name
  }

  lemma InsertMembers(e: Entry, sorted: seq<Entry>)
    ensures forall x :: x in Insert(e, sorted) <==> x == e || x in sorted
  {
    forall x
      ensures x in Insert(e, sorted) <==> x == e || x in sorted
    {
      assert x in multiset(Insert(e, sorted)) <==> x in multiset(sorted) + multiset{e};
    }
  }

  lemma {:induction false} InsertIncreasing(e: Entry, sorted: seq<Entry>)
    requires Increasing(sorted) && forall x :: x in sorted ==> x.name != e.name
    ensures Increasing(Insert(e, sorted))
  {
    if sorted == [] {
    } else if Less(sorted[0].name, e.name) {
      InsertIncreasing(e, sorted[1..]);
      InsertMembers(e, sorted[1..]);
      var rest := Insert(e, sorted[1..]);
      hide Less;
      forall k | 0 <= k < |rest|
        ensures Less(sorted[0].name, rest[k].name)
      {
        assert rest[k] in rest;
      }
    } else {
      LessIsStrict(e.name, sorted[0].name);
      forall i | 0 <= i < |sorted|
        ensures Less(e.name, sorted[i].name)
      {
        if i > 0 {
          LessIsTransitive(e.name, sorted[0].name, sorted[i].name);
        }
      }
    }
  }

  lemma {:induction false} SortIncreasing(entries: seq<Entry>)
    requires DistinctNames(entries)
    ensures Increasing(Sort(entries))
  {
    if entries != [] {
      SortIncreasing(entries[1..]);
      forall x | x in Sort(entries[1..])
        ensures x.name != entries[0].name
      {
        SortMember(entries[1..], x);
      }
      InsertIncreasing(entries[0], Sort(entries[1..]));
    }
  }

  // ------------------------------------------------------------------
  // collect_selected_path

  function ChildFolder(parentFolder: Option<string>, name: string): string {
    match parentFolder
    case Some(parent) => parent + "/" + name
    case None => name
  }

  function Collect(path: Path, tree: Tree, parentFolder: Option<string>, files: seq<Candidate>):
    Result<seq<Candidate>, PrepareError>
    decreases tree, 1, 0
  {
    if |files| >= MAX_SELECTED then Err(InvalidFile)
    else
      match tree
      case Link => Err(InvalidFile)
      case Special => Err(InvalidFile)
      case Unreadable => Err(InvalidFile)
      case File(size) => Ok(files + [Candidate(path, parentFolder, size)])
      case Folder(entries) =>
        if path == [] then Err(InvalidFile)
        else
          assert forall e :: e in Sort(entries) ==> e in entries by {
            forall e | e in Sort(entries) ensures e in entries { SortMember(entries, e); }
          }
          CollectEntries(tree, Sort(entries), path, ChildFolder(parentFolder, path[|path| - 1]), files)
  }

  function CollectEntries(tree: Tree, entries: seq<Entry>, path: Path, folder: string, files: seq<Candidate>):
    Result<seq<Candidate>, PrepareError>
    requires tree.Folder? && forall e :: e in entries ==> e in tree.entries
    decreases tree, 0, |entries|
  {
    if entries == [] then Ok(files)
    else
      assert entries[0] in tree.entries;
      match Collect(path + [entries[0].name], entries[0].tree, Some(folder), files)
      case Err(e) => Err(e)
      case Ok(more) => CollectEntries(tree, entries[1..], path, folder, more)
  }

  function CollectAll(selected: seq<Selected>, files: seq<Candidate>): Result<seq<Candidate>, PrepareError> {
    if selected == [] then Ok(files)
    else
      match Collect(selected[0].path, selected[0].tree, None, files)
      case Err(e) => Err(e)
      case Ok(more) => CollectAll(selected[1..], more)
  }

  // ------------------------------------------------------------------
  // prepare_files

  /** `next_u64() & i64::MAX`. */
  function Masked(draw: nat): int {
    draw % 0x8000_0000_0000_0000
  }

  /** The first draw that is neither zero nor taken, and how many draws it took. */
  function FirstFresh(ids: set<int>, draws: seq<nat>): (r: Option<(int, nat)>)
    ensures r.Some? ==> 0 < r.value.0 <= MAX_I64 && r.value.0 !in ids && 0 < r.value.1 <= |draws|
  {
    if draws == [] then None
    else if Masked(draws[0]) != 0 && Masked(draws[0]) !in ids then Some((Masked(draws[0]), 1))
    else
      var later := FirstFresh(ids, draws[1..]);
      if later.None? then None else Some((later.value.0, later.value.1 + 1))
  }

  /** The id is the first of the draws, cut to 63 bits, that is neither zero nor taken. */
  lemma {:induction false} FirstFreshIff(ids: set<int>, draws: seq<nat>, id: int, n: nat)
    ensures FirstFresh(ids, draws) == Some((id, n)) <==>
              && 0 < n <= |draws| && id == draws[n - 1] % 0x8000_0000_0000_0000 && id != 0 && id !in ids
              && forall i :: 0 <= i < n - 1 ==>
                   draws[i] % 0x8000_0000_0000_0000 == 0 || draws[i] % 0x8000_0000_0000_0000 in ids
    decreases |draws|
  {
    if draws != [] && (Masked(draws[0]) == 0 || Masked(draws[0]) in ids) && n > 0 {
      FirstFreshIff(ids, draws[1..], id, n - 1);
      assert forall i :: 0 <= i < |draws| - 1 ==> draws[1..][i] == draws[i + 1];
    }
  }

  /** The second loop of `prepare_files`. `draws` are the random numbers; a run that uses them all up is one
      that is still drawing. */
  function Assign(candidates: seq<Candidate>, ids: set<int>, total: nat, draws: seq<nat>): Result<seq<OutgoingFile>, PrepareError> {
    if candidates == [] then Ok([])
    else
      var c := candidates[0];
      if total + c.size > MAX_TOTAL_TRANSFER_BYTES then Err(TransferTooLarge)
      else if c.path == [] || c.path[|c.path| - 1] == "" then Err(InvalidFile)
      else
        var drawn := FirstFresh(ids, draws);
        if drawn.None? then Err(StillDrawing)
        else
          var (id, used) := drawn.value;
          match Assign(candidates[1..], ids + {id}, total + c.size, draws[used..])
          case Err(e) => Err(e)
          case Ok(rest) => Ok([OutgoingFile(c.path[|c.path| - 1], c.parentFolder, c.size, id)] + rest)
  }

  function PrepareOutgoing(selected: seq<Selected>, draws: seq<nat>): Result<seq<OutgoingFile>, PrepareError> {
    if selected == [] then Err(InvalidFile)
    else
      match CollectAll(selected, [])
      case Err(e) => Err(e)
      case Ok(candidates) => if candidates == [] then Err(InvalidFile) else Assign(candidates, {}, 0, draws)
  }

  method FreshId(ids: set<int>, draws: seq<nat>) returns (r: Option<(int, nat)>)
    ensures r == FirstFresh(ids, draws)
  {
    var used := 0;
    while used < |draws|
      invariant 0 <= used <= |draws|
      invariant FirstFresh(ids, draws) ==
                var later := FirstFresh(ids, draws[used..]);
                if later.None? then None else Some((later.value.0, later.value.1 + used))
    {
      var id := Masked(draws[used]);
      assert draws[used..][0] == draws[used] && draws[used..][1..] == draws[used + 1..];
      used := used + 1;
      if id != 0 && id !in ids {
        return Some((id, used));
      }
    }
    assert draws[used..] == [];
    r := None;
  }

  method PrepareSelected(selected: seq<Selected>, draws: seq<nat>) returns (r: Result<seq<OutgoingFile>, PrepareError>)
    ensures r == PrepareOutgoing(selected, draws)
  {
    if selected == [] {
      return Err(InvalidFile);
    }
    var selection := new Selection();
    var i := 0;
    while i < |selected|
      invariant 0 <= i <= |selected|
      invariant CollectAll(selected, []) == CollectAll(selected[i..], selection.files)
    {
      assert selected[i..][0] == selected[i] && selected[i..][1..] == selected[i + 1..];
      var failed := selection.Add(selected[i].path, selected[i].tree, None);
      if failed.Some? {
        return Err(failed.value);
      }
      i := i + 1;
    }
    assert selected[i..] == [];
    if selection.files == [] {
      return Err(InvalidFile);
    }
    r := AssignIds(selection.files, draws);
  }

  /** A result with `files` put before it. */
  function Onto(files: seq<OutgoingFile>, r: Result<seq<OutgoingFile>, PrepareError>): Result<seq<OutgoingFile>, PrepareError> {
    match r
    case Err(e) => Err(e)
    case Ok(rest) => Ok(files + rest)
  }

  lemma OntoTwice(files: seq<OutgoingFile>, file: OutgoingFile, r: Result<seq<OutgoingFile>, PrepareError>)
    ensures Onto(files, Onto([file], r)) == Onto(files + [file], r)
  {
    if r.Ok? {
      assert files + ([file] + r.value) == files + [file] + r.value;
    }
  }

  lemma AssignStep(candidates: seq<Candidate>, ids: set<int>, total: nat, draws: seq<nat>)
    requires candidates != []
    ensures var c := candidates[0];
            Assign(candidates, ids, total, draws) ==
            if total + c.size > MAX_TOTAL_TRANSFER_BYTES then Err(TransferTooLarge)
            else if c.path == [] || c.path[|c.path| - 1] == "" then Err(InvalidFile)
            else if FirstFresh(ids, draws).None? then Err(StillDrawing)
            else
              var (id, used) := FirstFresh(ids, draws).value;
              Onto([OutgoingFile(c.path[|c.path| - 1], c.parentFolder, c.size, id)],
                   Assign(candidates[1..], ids + {id}, total + c.size, draws[used..]))
  {
  }

  lemma AssignNone(ids: set<int>, total: nat, draws: seq<nat>)
    ensures Assign([], ids, total, draws) == Ok([])
  {
  }

  method AssignIds(candidates: seq<Candidate>, draws: seq<nat>) returns (r: Result<seq<OutgoingFile>, PrepareError>)
    ensures r == Assign(candidates, {}, 0, draws)
  {
    var ids: set<int>, total: nat, left, files: seq<OutgoingFile> := {}, 0, draws, [];
    var i := 0;
    ghost var whole := Assign(candidates, {}, 0, draws);
    assert candidates[0..] == candidates && (whole.Ok? ==> files + whole.value == whole.value);
    hide Assign, FirstFresh;
    while i < |candidates|
      invariant 0 <= i <= |candidates| && total <= MAX_TOTAL_TRANSFER_BYTES
      invariant whole == Onto(files, Assign(candidates[i..], ids, total, left))
    {
      var c := candidates[i];
      assert candidates[i..][0] == c && candidates[i..][1..] == candidates[i + 1..];
      AssignStep(candidates[i..], ids, total, left);
      if total + c.size > MAX_TOTAL_TRANSFER_BYTES {
        return Err(TransferTooLarge);
      }
      total := total + c.size;
      if c.path == [] || c.path[|c.path| - 1] == "" {
        return Err(InvalidFile);
      }
      var drawn := FreshId(ids, left);
      if drawn.None? {
        return Err(StillDrawing);
      }
      var (id, used) := drawn.value;
      ids, left := ids + {id}, left[used..];
      var file := OutgoingFile(c.path[|c.path| - 1], c.parentFolder, c.size, id);
      OntoTwice(files, file, Assign(candidates[i + 1..], ids, total, left));
      files := files + [file];
      i := i + 1;
    }
    assert candidates[i..] == [] && files + [] == files;
    AssignNone(ids, total, left);
    r := Ok(files);
  }

  /** The list that `collect_selected_path` pushes into. */
  class Selection {
    var files: seq<Candidate>

    constructor ()
      ensures files == []
    {
      files := [];
    }

    method Add(path: Path, tree: Tree, parentFolder: Option<string>) returns (error: Option<PrepareError>)
      modifies this
      ensures match Collect(path, tree, parentFolder, old(files))
              case Ok(all) => error == None && files == all
              case Err(e) => error == Some(e)
      decreases tree
    {
      if |files| >= MAX_SELECTED {
        return Some(InvalidFile);
      }
      match tree {
        case Link => return Some(InvalidFile);
        case Special => return Some(InvalidFile);
        case Unreadable => return Some(InvalidFile);
        case File(size) =>
          files := files + [Candidate(path, parentFolder, size)];
          return None;
        case Folder(unsorted) =>
          if path == [] {
            return Some(InvalidFile);
          }
          var folder := ChildFolder(parentFolder, path[|path| - 1]);
          var entries := Sort(unsorted);
          SortKeepsMembers(unsorted);
          var i := 0;
          while i < |entries|
            invariant 0 <= i <= |entries|
            invariant CollectEntries(tree, entries, path, folder, old(files))
                   == CollectEntries(tree, entries[i..], path, folder, files)
          {
            assert entries[i..][0] == entries[i] && entries[i..][1..] == entries[i + 1..];
            assert entries[i] in unsorted;
            var failed := Add(path + [entries[i].name], entries[i].tree, Some(folder));
            if failed.Some? {
              return failed;
            }
            i := i + 1;
          }
          assert entries[i..] == [];
          return None;
      }
    }
  }

  lemma SortKeepsMembers(entries: seq<Entry>)
    ensures forall e :: e in Sort(entries) <==> e in entries
  {
    forall e
      ensures e in Sort(entries) <==> e in entries
    {
      SortMember(entries, e);
    }
  }

  // ------------------------------------------------------------------
  // Independent references: which files there are, and in what order

  /** Regular files and folders only. */
  predicate Plain(tree: Tree) {
    match tree
    case File(_) => true
    case Folder(entries) => forall e :: e in entries ==> Plain(e.tree)
    case _ => false
  }

  /** Walking `rel` from `tree` ends at a regular file of that size. */
  predicate HasFile(tree: Tree, rel: Path, size: nat)
    decreases |rel|
  {
    if rel == [] then tree == File(size)
    else tree.Folder? && exists e :: e in tree.entries && e.name == rel[0] && HasFile(e.tree, rel[1..], size)
  }

  /** No folder lists a name twice. */
  predicate ProperTree(tree: Tree) {
    tree.Folder? ==> DistinctNames(tree.entries) && forall e :: e in tree.entries ==> ProperTree(e.tree)
  }

  datatype Found = Found(rel: Path, size: nat)

  /** The files below `tree`, which stands at `at`, folders in the order of their names. */
  function FilesOf(at: Path, tree: Tree): seq<Found>
    decreases tree, 1, 0
  {
    match tree
    case File(size) => [Found(at, size)]
    case Folder(entries) =>
      assert forall e :: e in Sort(entries) ==> e in entries by { SortKeepsMembers(entries); }
      FilesIn(at, tree, Sort(entries))
    case _ => []
  }

  function FilesIn(at: Path, tree: Tree, entries: seq<Entry>): seq<Found>
    requires tree.Folder? && forall e :: e in entries ==> e in tree.entries
    decreases tree, 0, |entries|
  {
    if entries == [] then []
    else
      assert entries[0] in tree.entries;
      FilesOf(at + [entries[0].name], entries[0].tree) + FilesIn(at, tree, entries[1..])
  }

  /** Whether the last thing the walk looks at is a file. */
  predicate EndsInFile(tree: Tree)
    decreases tree
  {
    match tree
    case File(_) => true
    case Folder(entries) =>
      entries != [] &&
      var last := Sort(entries)[|entries| - 1];
      assert last in entries by { SortMember(entries, last); }
      EndsInFile(last.tree)
    case _ => false
  }
}
