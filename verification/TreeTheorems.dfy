/** The walk finds every regular file once, in order, with its own relative path -- or fails for a stated reason. */
module TreeTheorems {
  import opened Prelude
  import opened Paths
  import opened Trees

  // ------------------------------------------------------------------
  // The walk and its reference

  function ParentOf(rel: Path): Option<string>
    requires rel != []
  {
    if |rel| == 1 then None else Some(Join(rel[..|rel| - 1]))
  }

  function CandidatesOf(base: Path, found: seq<Found>): (r: seq<Candidate>)
    requires forall f :: f in found ==> f.rel != []
    ensures |r| == |found|
    ensures forall i :: 0 <= i < |r| ==> r[i] == Candidate(base + found[i].rel, ParentOf(found[i].rel), found[i].size)
  {
    seq(|found|, i requires 0 <= i < |found| =>
      assert found[i] in found;
      Candidate(base + found[i].rel, ParentOf(found[i].rel), found[i].size))
  }

  lemma CandidatesAppend(base: Path, a: seq<Found>, b: seq<Found>)
    requires forall f :: f in a || f in b ==> f.rel != []
    ensures CandidatesOf(base, a + b) == CandidatesOf(base, a) + CandidatesOf(base, b)
  {
  }

  lemma {:induction false} FoundBelow(at: Path, tree: Tree)
    ensures forall f :: f in FilesOf(at, tree) ==> at <= f.rel
    decreases tree, 1, 0
  {
    if tree.Folder? {
      SortKeepsMembers(tree.entries);
      FoundInBelow(at, tree, Sort(tree.entries));
    }
  }

  lemma {:induction false} FoundInBelow(at: Path, tree: Tree, entries: seq<Entry>)
    requires tree.Folder? && forall e :: e in entries ==> e in tree.entries
    ensures forall f :: f in FilesIn(at, tree, entries) ==> at <= f.rel
    decreases tree, 0, |entries|
  {
    if entries != [] {
      assert entries[0] in tree.entries;
      FoundBelow(at + [entries[0].name], entries[0].tree);
      FoundInBelow(at, tree, entries[1..]);
    }
  }

  /** How many files the walk has when it looks at its last thing. */
  function BeforeLast(count: nat, endsInFile: bool): int {
    count - if endsInFile then 1 else 0
  }

  lemma {:induction false} EndsMeansSome(at: Path, tree: Tree)
    requires EndsInFile(tree)
    ensures FilesOf(at, tree) != []
    decreases tree, 1, 0
  {
    if tree.Folder? {
      var entries := Sort(tree.entries);
      SortKeepsMembers(tree.entries);
      LastMeansSome(at, tree, entries);
    }
  }

  lemma {:induction false} LastMeansSome(at: Path, tree: Tree, entries: seq<Entry>)
    requires tree.Folder? && (forall e :: e in entries ==> e in tree.entries) && entries != []
    requires EndsInFile(entries[|entries| - 1].tree)
    ensures FilesIn(at, tree, entries) != []
    decreases tree, 0, |entries|
  {
    assert entries[0] in tree.entries;
    if |entries| == 1 {
      EndsMeansSome(at + [entries[0].name], entries[0].tree);
    } else {
      LastMeansSome(at, tree, entries[1..]);
    }
  }

  /** `ParentOf` grows like the folder names passed down. */
  lemma ParentGrows(rel: Path, name: string)
    requires rel != []
    ensures ParentOf(rel + [name]) == Some(ChildFolder(ParentOf(rel), rel[|rel| - 1]))
  {
    assert (rel + [name])[..|rel|] == rel;
    if |rel| > 1 {
      JoinAppend(rel[..|rel| - 1], rel[|rel| - 1]);
      assert rel[..|rel| - 1] + [rel[|rel| - 1]] == rel;
    }
  }

  ghost predicate CollectsLike(
    r: Result<seq<Candidate>, PrepareError>, plain: bool, base: Path, files: seq<Candidate>, found: seq<Found>, endsInFile: bool)
    requires forall f :: f in found ==> f.rel != []
  {
    r == if plain && |files| + BeforeLast(|found|, endsInFile) < MAX_SELECTED
         then Ok(files + CandidatesOf(base, found)) else Err(InvalidFile)
  }

  lemma CountAtLeast(at: Path, tree: Tree)
    ensures BeforeLast(|FilesOf(at, tree)|, EndsInFile(tree)) >= 0
  {
    if EndsInFile(tree) {
      EndsMeansSome(at, tree);
    }
  }

  lemma CountInAtLeast(at: Path, tree: Tree, entries: seq<Entry>)
    requires tree.Folder? && (forall e :: e in entries ==> e in tree.entries) && entries != []
    ensures BeforeLast(|FilesIn(at, tree, entries)|, EndsInFile(entries[|entries| - 1].tree)) >= 0
  {
    if EndsInFile(entries[|entries| - 1].tree) {
      LastMeansSome(at, tree, entries);
    }
  }

  /** The walk from one path: it returns all the files below with their paths and folders, exactly when there
      is nothing but regular files and folders and fewer than 10,000 files stand before the last thing it
      looks at. */
  lemma {:induction false} CollectIff(base: Path, rel: Path, tree: Tree, files: seq<Candidate>)
    requires rel != []
    ensures forall f :: f in FilesOf(rel, tree) ==> f.rel != []
    ensures CollectsLike(Collect(base + rel, tree, ParentOf(rel), files), Plain(tree), base, files, FilesOf(rel, tree), EndsInFile(tree))
    decreases tree, 1, 0
  {
    FoundBelow(rel, tree);
    CountAtLeast(rel, tree);
    if tree.File? {
      assert CandidatesOf(base, FilesOf(rel, tree)) == [Candidate(base + rel, ParentOf(rel), tree.size)];
    }
    if tree.Folder? && |files| < MAX_SELECTED {
      var entries := Sort(tree.entries);
      SortKeepsMembers(tree.entries);
      assert (base + rel)[|base + rel| - 1] == rel[|rel| - 1];
      if entries == [] {
        assert files + CandidatesOf(base, []) == files;
      } else {
        CollectEntriesIff(base, rel, tree, entries, files);
        assert Plain(tree) <==> forall e :: e in entries ==> Plain(e.tree);
      }
    }
  }

  lemma {:induction false} CollectEntriesIff(base: Path, rel: Path, tree: Tree, entries: seq<Entry>, files: seq<Candidate>)
    requires rel != [] && tree.Folder? && (forall e :: e in entries ==> e in tree.entries) && entries != []
    ensures forall f :: f in FilesIn(rel, tree, entries) ==> f.rel != []
    ensures CollectsLike(
      CollectEntries(tree, entries, base + rel, ChildFolder(ParentOf(rel), rel[|rel| - 1]), files),
      forall e :: e in entries ==> Plain(e.tree), base, files, FilesIn(rel, tree, entries), EndsInFile(entries[|entries| - 1].tree))
    decreases tree, 0, |entries|
  {
    var e, rest := entries[0], entries[1..];
    assert e in tree.entries && entries == [e] + rest;
    var at := rel + [e.name];
    ParentGrows(rel, e.name);
    assert base + at == base + rel + [e.name];
    CollectIff(base, at, e.tree, files);
    FoundInBelow(rel, tree, entries);
    FoundBelow(at, e.tree);
    var first := FilesOf(at, e.tree);
    CountAtLeast(at, e.tree);
    if rest == [] {
      assert FilesIn(rel, tree, rest) == [];
      assert FilesIn(rel, tree, entries) == first;
      OneEntry(tree, entries, base + rel, ChildFolder(ParentOf(rel), rel[|rel| - 1]), files);
    } else {
      var more := files + CandidatesOf(base, first);
      FoundInBelow(rel, tree, rest);
      CollectEntriesIff(base, rel, tree, rest, more);
      CountInAtLeast(rel, tree, rest);
      assert rest[|rest| - 1] == entries[|entries| - 1];
      Joined(base, files, first, FilesIn(rel, tree, rest));
      hide Plain, EndsInFile, Collect, CandidatesOf, ParentOf, ChildFolder, Join;
      assert FilesIn(rel, tree, entries) == first + FilesIn(rel, tree, rest);
    }
  }

  lemma OneEntry(tree: Tree, entries: seq<Entry>, path: Path, folder: string, files: seq<Candidate>)
    requires tree.Folder? && (forall e :: e in entries ==> e in tree.entries) && |entries| == 1
    ensures CollectEntries(tree, entries, path, folder, files)
         == (assert entries[0] in tree.entries; Collect(path + [entries[0].name], entries[0].tree, Some(folder), files))
  {
    assert entries[0] in tree.entries;
  }

  lemma Joined(base: Path, files: seq<Candidate>, first: seq<Found>, rest: seq<Found>)
    requires forall f :: f in first || f in rest ==> f.rel != []
    ensures files + CandidatesOf(base, first) + CandidatesOf(base, rest) == files + CandidatesOf(base, first + rest)
    ensures |files + CandidatesOf(base, first)| == |files| + |first|
  {
    CandidatesAppend(base, first, rest);
  }

  // ------------------------------------------------------------------
  // Every regular file, once, in order

  predicate PathLess(a: Path, b: Path) {
    b != [] && (a == [] || Less(a[0], b[0]) || (a[0] == b[0] && PathLess(a[1..], b[1..])))
  }

  lemma {:induction false} PathLessBelow(at: Path, a: Path, b: Path)
    ensures PathLess(at + a, at + b) <==> PathLess(a, b)
  {
    if at == [] {
      assert at + a == a && at + b == b;
    } else {
      LessIsStrict(at[0], at[0]);
      assert (at + a)[1..] == at[1..] + a && (at + b)[1..] == at[1..] + b;
      PathLessBelow(at[1..], a, b);
    }
  }

  lemma LaterName(at: Path, m: string, n: string, a: Path, b: Path)
    requires Less(m, n) && at + [m] <= a && at + [n] <= b
    ensures PathLess(a, b)
  {
    var x, y := a[|at|..], b[|at|..];
    assert a == at + x && b == at + y;
    assert x[0] == (at + [m])[|at|] == m && y[0] == (at + [n])[|at|] == n;
    PathLessBelow(at, x, y);
  }

  lemma {:induction false} FoundIff(at: Path, tree: Tree, f: Found)
    ensures f in FilesOf(at, tree) <==> at <= f.rel && HasFile(tree, f.rel[|at|..], f.size)
    decreases tree, 1, 0
  {
    match tree
    case File(_) =>
      if at <= f.rel && f.rel[|at|..] == [] {
        assert f.rel == at;
      }
    case Folder(entries) =>
      SortKeepsMembers(entries);
      FoundInIff(at, tree, Sort(entries), f);
      assert forall e :: e in Sort(entries) <==> e in entries;
    case _ =>
  }

  predicate HasFileIn(entries: seq<Entry>, rel: Path, size: nat) {
    rel != [] && exists e :: e in entries && e.name == rel[0] && HasFile(e.tree, rel[1..], size)
  }

  lemma {:induction false} FoundInIff(at: Path, tree: Tree, entries: seq<Entry>, f: Found)
    requires tree.Folder? && forall e :: e in entries ==> e in tree.entries
    ensures f in FilesIn(at, tree, entries) <==> at <= f.rel && HasFileIn(entries, f.rel[|at|..], f.size)
    decreases tree, 0, |entries|
  {
    if entries != [] {
      var e, rest := entries[0], entries[1..];
      assert e in tree.entries && entries == [e] + rest;
      FoundIff(at + [e.name], e.tree, f);
      FoundInIff(at, tree, rest, f);
      if at <= f.rel && f.rel[|at|..] != [] {
        assert f.rel[|at|..][1..] == f.rel[|at + [e.name]|..];
        assert at + [e.name] <= f.rel <==> f.rel[|at|..][0] == e.name;
      }
    }
  }

  predicate FoundIncreasing(found: seq<Found>) {
    forall i, j :: 0 <= i < j < |found| ==> PathLess(found[i].rel, found[j].rel)
  }

  lemma {:induction false} FoundInOrder(at: Path, tree: Tree)
    requires ProperTree(tree)
    ensures FoundIncreasing(FilesOf(at, tree))
    decreases tree, 1, 0
  {
    if tree.Folder? {
      SortKeepsMembers(tree.entries);
      SortIncreasing(tree.entries);
      FoundInInOrder(at, tree, Sort(tree.entries));
    }
  }

  lemma {:induction false} FoundInInOrder(at: Path, tree: Tree, entries: seq<Entry>)
    requires tree.Folder? && ProperTree(tree) && (forall e :: e in entries ==> e in tree.entries) && Increasing(entries)
    ensures FoundIncreasing(FilesIn(at, tree, entries))
    decreases tree, 0, |entries|
  {
    if entries != [] {
      var e := entries[0];
      assert e in tree.entries;
      FoundInOrder(at + [e.name], e.tree);
      FoundInInOrder(at, tree, entries[1..]);
      FoundBelow(at + [e.name], e.tree);
      var first, later := FilesOf(at + [e.name], e.tree), FilesIn(at, tree, entries[1..]);
      forall i, j | 0 <= i < |first| && 0 <= j < |later|
        ensures PathLess(first[i].rel, later[j].rel)
      {
        var n := InLaterEntry(at, tree, entries, later[j]);
        LaterName(at, e.name, n, first[i].rel, later[j].rel);
      }
    }
  }

  lemma InLaterEntry(at: Path, tree: Tree, entries: seq<Entry>, f: Found) returns (n: string)
    requires tree.Folder? && (forall e :: e in entries ==> e in tree.entries) && Increasing(entries) && entries != []
    requires f in FilesIn(at, tree, entries[1..])
    ensures Less(entries[0].name, n) && at + [n] <= f.rel
  {
    FoundInIff(at, tree, entries[1..], f);
    var rel := f.rel[|at|..];
    var e :| e in entries[1..] && e.name == rel[0] && HasFile(e.tree, rel[1..], f.size);
    n := e.name;
    assert f.rel == at + rel && rel == [n] + rel[1..];
  }

  /** The walk below `tree` is the one strictly increasing list of exactly the regular files below it. */
  lemma {:induction false} WalkIsEnumeration(at: Path, tree: Tree)
    requires ProperTree(tree)
    ensures FoundIncreasing(FilesOf(at, tree))
    ensures forall f :: f in FilesOf(at, tree) <==> at <= f.rel && HasFile(tree, f.rel[|at|..], f.size)
  {
    FoundInOrder(at, tree);
    forall f
      ensures f in FilesOf(at, tree) <==> at <= f.rel && HasFile(tree, f.rel[|at|..], f.size)
    {
      FoundIff(at, tree, f);
    }
  }

  /** No file stands inside another file. */
  lemma {:induction false} FilesAreLeaves(tree: Tree, a: Path, b: Path, m: nat, n: nat)
    requires ProperTree(tree) && HasFile(tree, a, m) && HasFile(tree, b, n) && a <= b
    ensures a == b && m == n
    decreases |a|
  {
    if a != [] {
      var d :| d in tree.entries && d.name == a[0] && HasFile(d.tree, a[1..], m);
      var e :| e in tree.entries && e.name == b[0] && HasFile(e.tree, b[1..], n);
      SameEntry(tree.entries, d, e);
      FilesAreLeaves(d.tree, a[1..], b[1..], m, n);
      assert a == [a[0]] + a[1..] && b == [b[0]] + b[1..];
    }
  }

  lemma SameEntry(entries: seq<Entry>, d: Entry, e: Entry)
    requires DistinctNames(entries) && d in entries && e in entries && d.name == e.name
    ensures d == e
  {
    var i, j :| 0 <= i < |entries| && entries[i] == d && 0 <= j < |entries| && entries[j] == e;
  }
}
