/** Names, paths and the part of the file system the receiver touches
    (src/quick_share_receiver.rs:1103-1185). */
module Paths {
  import opened Prelude

  // ------------------------------------------------------------------
  // Names

  predicate IsSeparator(c: char) {
    c == '/' || c == '\\'
  }

  /** Unicode general category Cc. */
  predicate IsControl(c: char) {
    (c as int) < 0x20 || 0x7f <= (c as int) <= 0x9f
  }

  /** Unicode property White_Space. */
  predicate IsWhitespace(c: char) {
    var n := c as int;
    || 0x09 <= n <= 0x0d || n == 0x20 || n == 0x85 || n == 0xa0 || n == 0x1680
    || 0x2000 <= n <= 0x200a || n == 0x2028 || n == 0x2029 || n == 0x202f || n == 0x205f || n == 0x3000
  }

  predicate IsForbidden(c: char) {
    IsControl(c) || IsSeparator(c) || c == '<' || c == '>' || c == ':' || c == '"' || c == '|' || c == '?' || c == '*'
  }

  predicate IsBlank(s: string) {
    forall i :: 0 <= i < |s| ==> IsWhitespace(s[i])
  }

  predicate IsDots(s: string) {
    s == "." || s == ".."
  }

  function Clean(s: string): (r: string)
    ensures |r| == |s|
    ensures forall i :: 0 <= i < |s| ==> r[i] == if IsForbidden(s[i]) then '_' else s[i]
  {
    seq(|s|, i requires 0 <= i < |s| => if IsForbidden(s[i]) then '_' else s[i])
  }

  function SanitizeComponent(s: string): Option<string> {
    if s == "" || IsDots(s) then None
    else if IsBlank(Clean(s)) then None
    else Some(Clean(s))
  }

  /** The pieces between separators, as `str::split` gives them: always at least one. */
  function Split(s: string): (r: seq<string>)
    ensures |r| > 0
    ensures forall i, j :: 0 <= i < |r| && 0 <= j < |r[i]| ==> !IsSeparator(r[i][j])
  {
    if s == "" then [""]
    else
      var rest := Split(s[1..]);
      if IsSeparator(s[0]) then [""] + rest else [[s[0]] + rest[0]] + rest[1..]
  }

  function SanitizeFileName(name: string): Option<string> {
    var leaf := Split(name)[|Split(name)| - 1];
    if leaf == "" || IsDots(leaf) then None else SanitizeComponent(leaf)
  }

  /** A name that can only ever denote an entry of its own directory. */
  predicate IsComponent(s: string) {
    && s != "" && !IsDots(s) && !IsBlank(s)
    && (forall i :: 0 <= i < |s| ==> !IsForbidden(s[i]))
  }

  /** Sanitising yields ordinary components, and its fixed points are exactly the ordinary components. */
  lemma SanitizeIsProjection(s: string)
    ensures SanitizeComponent(s).Some? ==> IsComponent(SanitizeComponent(s).value)
    ensures SanitizeComponent(s).Some? ==> SanitizeComponent(SanitizeComponent(s).value) == SanitizeComponent(s)
    ensures SanitizeComponent(s) == Some(s) <==> IsComponent(s)
  {
    var r := Clean(s);
    assert r == "." ==> s[0] == r[0];
    assert r == ".." ==> s[0] == r[0] && s[1] == r[1];
    assert Clean(r) == r;
    if IsComponent(s) {
      assert r == s;
    }
    if r == s {
      assert forall i :: 0 <= i < |s| ==> r[i] == s[i] && !IsForbidden(s[i]);
    }
  }

  /** A name is refused exactly when it is empty, a dot name, or nothing but printable white space. */
  lemma RefusedIff(s: string)
    ensures SanitizeComponent(s).None? <==> s == "" || IsDots(s) || (IsBlank(s) && forall i :: 0 <= i < |s| ==> !IsForbidden(s[i]))
  {
    if IsBlank(Clean(s)) {
      forall i | 0 <= i < |s|
        ensures !IsForbidden(s[i]) && IsWhitespace(s[i])
      {
        assert IsWhitespace(Clean(s)[i]);
      }
    }
  }

  /** The white space that is no control character: the space separators and the two line separators. */
  const PRINTABLE_SPACE: set<int> := {
    0x20, 0xa0, 0x1680, 0x2000, 0x2001, 0x2002, 0x2003, 0x2004, 0x2005, 0x2006, 0x2007, 0x2008, 0x2009, 0x200a,
    0x2028, 0x2029, 0x202f, 0x205f, 0x3000}

  lemma RefusedNames(s: string)
    ensures SanitizeComponent(s).None? <==> s in {"", ".", ".."} || forall i :: 0 <= i < |s| ==> s[i] as int in PRINTABLE_SPACE
  {
    RefusedIff(s);
    hide SanitizeComponent;
    forall c: char
      ensures c as int in PRINTABLE_SPACE <==> IsWhitespace(c) && !IsForbidden(c)
    {
      SpaceIs(c);
    }
  }

  lemma SpaceIs(c: char)
    ensures c as int in PRINTABLE_SPACE <==> IsWhitespace(c) && !IsForbidden(c)
  {
  }

  /** What a sanitised name is made of: forbidden characters and controls are replaced one by one, all others stay. */
  lemma SanitizedShape(s: string)
    ensures SanitizeComponent(s).Some? ==>
              var r := SanitizeComponent(s).value;
              && |r| == |s|
              && forall i :: 0 <= i < |s| ==>
                   r[i] == if s[i] in "<>:/|?*\"\\" || s[i] as int < 0x20 || 0x7f <= s[i] as int <= 0x9f then '_' else s[i]
  {
  }

  lemma FileNameIsComponent(name: string)
    ensures SanitizeFileName(name).Some? ==> IsComponent(SanitizeFileName(name).value)
    ensures IsComponent(name) ==> SanitizeFileName(name) == Some(name)
  {
    SanitizeIsProjection(Split(name)[|Split(name)| - 1]);
    if IsComponent(name) {
      SplitWhole(name);
      SanitizeIsProjection(name);
    }
  }

  predicate NoSeparators(s: string) {
    forall i :: 0 <= i < |s| ==> !IsSeparator(s[i])
  }

  lemma {:induction false} SplitWhole(s: string)
    requires NoSeparators(s)
    ensures Split(s) == [s]
  {
    if s != "" {
      SplitWhole(s[1..]);
      assert [s[0]] + s[1..] == s;
    }
  }

  lemma {:induction false} LastPiece(folder: string, separator: char, leaf: string)
    requires IsSeparator(separator) && NoSeparators(leaf)
    ensures var pieces := Split(folder + [separator] + leaf); |pieces| > 1 && pieces[|pieces| - 1] == leaf
  {
    var whole := folder + [separator] + leaf;
    if folder == "" {
      assert whole[0] == separator && whole[1..] == leaf;
      SplitWhole(leaf);
    } else {
      assert whole[1..] == folder[1..] + [separator] + leaf;
      LastPiece(folder[1..], separator, leaf);
    }
  }

  /** Of a name with separators, of either kind, what stands after the last of them is kept. */
  lemma FileNameIsLeaf(folder: string, separator: char, leaf: string)
    requires (separator == '/' || separator == '\\') && forall i :: 0 <= i < |leaf| ==> leaf[i] != '/' && leaf[i] != '\\'
    ensures SanitizeFileName(folder + [separator] + leaf) == SanitizeComponent(leaf) == SanitizeFileName(leaf)
    ensures IsComponent(leaf) ==> SanitizeFileName(folder + [separator] + leaf) == Some(leaf)
  {
    LastPiece(folder, separator, leaf);
    SplitWhole(leaf);
    SanitizeIsProjection(leaf);
    hide Split, Clean;
  }

  function Join(parts: seq<string>): string
    requires |parts| > 0
  {
    if |parts| == 1 then parts[0] else parts[0] + "/" + Join(parts[1..])
  }

  lemma {:induction false} SplitAtSeparator(s: string, rest: string)
    requires NoSeparators(s)
    ensures Split(s + "/" + rest) == [s] + Split(rest)
  {
    var whole := s + "/" + rest;
    if s == "" {
      assert whole[1..] == rest;
    } else {
      assert whole[1..] == s[1..] + "/" + rest;
      SplitAtSeparator(s[1..], rest);
      assert [s[0]] + s[1..] == s;
    }
  }

  /** Splitting inverts joining. */
  lemma {:induction false} SplitJoin(parts: seq<string>)
    requires |parts| > 0 && forall i :: 0 <= i < |parts| ==> NoSeparators(parts[i])
    ensures Split(Join(parts)) == parts
  {
    if |parts| == 1 {
      SplitWhole(parts[0]);
    } else {
      SplitJoin(parts[1..]);
      SplitAtSeparator(parts[0], Join(parts[1..]));
      assert parts == [parts[0]] + parts[1..];
    }
  }

  lemma {:induction false} JoinAppend(parts: seq<string>, last: string)
    requires |parts| > 0
    ensures Join(parts + [last]) == Join(parts) + "/" + last
  {
    if |parts| > 1 {
      JoinAppend(parts[1..], last);
      assert (parts + [last])[1..] == parts[1..] + [last];
    } else {
      assert (parts + [last])[1..] == [last];
    }
  }

  // ------------------------------------------------------------------
  // The disk

  type Path = seq<string>

  /** The target of a link is the path it leads to, with no further links on the way to its last name. */
  datatype Node = Regular(content: bytes) | Directory | Symlink(target: Path)

  type Disk = map<Path, Node>

  predicate IsLink(disk: Disk, p: Path) {
    p in disk && disk[p].Symlink?
  }

  predicate IsDirectory(disk: Disk, p: Path) {
    p in disk && disk[p].Directory?
  }

  /** The number of links one look-up follows at most. */
  const MAX_LINKS: nat := 40

  function Follow(disk: Disk, p: Path, links: nat): Option<Path>
    decreases links
  {
    if !IsLink(disk, p) then Some(p)
    else if links == 0 then None
    else Follow(disk, disk[p].target, links - 1)
  }

  /** Where the links from `p` on end; None if there are too many of them. */
  function RealPath(disk: Disk, p: Path): Option<Path> {
    Follow(disk, p, MAX_LINKS)
  }

  /** Every path but the last is a link, to the next one; the last is none. */
  predicate Chain(disk: Disk, way: seq<Path>) {
    && way != [] && !IsLink(disk, way[|way| - 1])
    && forall i :: 0 <= i < |way| - 1 ==> IsLink(disk, way[i]) && disk[way[i]].target == way[i + 1]
  }

  ghost predicate LeadsTo(disk: Disk, p: Path, end: Path, links: nat) {
    exists way :: Chain(disk, way) && way[0] == p && way[|way| - 1] == end && |way| <= links + 1
  }

  lemma {:induction false} FollowIff(disk: Disk, p: Path, end: Path, links: nat)
    ensures Follow(disk, p, links) == Some(end) <==> LeadsTo(disk, p, end, links)
    decreases links
  {
    if !IsLink(disk, p) {
      assert Chain(disk, [p]) && |[p]| <= links + 1;
      forall way | Chain(disk, way) && way[0] == p
        ensures |way| == 1
      {
        assert way[0] == p;
      }
    } else if links > 0 {
      var next := disk[p].target;
      FollowIff(disk, next, end, links - 1);
      if LeadsTo(disk, next, end, links - 1) {
        var way :| Chain(disk, way) && way[0] == next && way[|way| - 1] == end && |way| <= links;
        var longer := [p] + way;
        assert forall i :: 0 <= i < |longer| - 1 ==> IsLink(disk, longer[i]) && disk[longer[i]].target == longer[i + 1];
        assert longer[|longer| - 1] == end && Chain(disk, longer);
      }
      if LeadsTo(disk, p, end, links) {
        var way :| Chain(disk, way) && way[0] == p && way[|way| - 1] == end && |way| <= links + 1;
        assert |way| > 1;
        var rest := way[1..];
        assert forall i :: 0 <= i < |rest| ==> rest[i] == way[i + 1];
        assert Chain(disk, rest) && rest[0] == next;
      }
    }
  }

  /** A path leads to the end of its chain of links, if there are at most 40 of them. */
  lemma RealPathIff(disk: Disk, p: Path, end: Path)
    ensures RealPath(disk, p) == Some(end) <==> LeadsTo(disk, p, end, 40)
  {
    FollowIff(disk, p, end, 40);
    hide Follow, LeadsTo;
  }

  /** `Path::exists` follows symbolic links. */
  predicate Exists(disk: Disk, p: Path) {
    var end := RealPath(disk, p);
    end.Some? && end.value in disk
  }

  predicate HasFolder(disk: Disk, p: Path) {
    p != [] && IsDirectory(disk, p[..|p| - 1])
  }

  /** Where `fs::write` puts the bytes: at the end of the links, in a file that is there or in a new one. The
      folder of a path that is no link is the one its caller has looked into. */
  function WriteTarget(disk: Disk, p: Path): Option<Path> {
    match RealPath(disk, p)
    case None => None
    case Some(end) =>
      if end in disk then if disk[end].Directory? then None else Some(end)
      else if end == p || HasFolder(disk, end) then Some(end)
      else None
  }

  /** Bytes are put into a regular file that is there, or into a new one: at the path itself, or where a link leads
      and a folder is. */
  lemma WritesWhere(disk: Disk, p: Path, end: Path)
    ensures WriteTarget(disk, p) == Some(end) <==>
            && RealPath(disk, p) == Some(end)
            && (if end in disk then disk[end].Regular? else end == p || (end != [] && IsDirectory(disk, end[..|end| - 1])))
  {
    EndIsSelfOrTarget(disk, p, MAX_LINKS);
    hide Follow;
  }

  /** A link leads from `p` or from elsewhere to where the bytes are put. */
  lemma {:induction false} EndIsSelfOrTarget(disk: Disk, p: Path, links: nat)
    ensures var end := Follow(disk, p, links);
            end.Some? ==> !IsLink(disk, end.value) && (end.value == p || exists l :: IsLink(disk, l) && disk[l].target == end.value)
    decreases links
  {
    if IsLink(disk, p) && links > 0 {
      EndIsSelfOrTarget(disk, disk[p].target, links - 1);
    }
  }

  ghost predicate NoNewLinks(a: Disk, b: Disk) {
    forall p :: IsLink(b, p) ==> IsLink(a, p) && b[p] == a[p]
  }

  function ContentAt(disk: Disk, p: Path): bytes {
    if p in disk && disk[p].Regular? then disk[p].content else []
  }

  function AppendTo(disk: Disk, p: Path, more: bytes): Disk {
    disk[p := Regular(ContentAt(disk, p) + more)]
  }

  /** `rename` replaces a file but not a directory. */
  function Rename(disk: Disk, source: Path, target: Path): Option<Disk> {
    if source !in disk || (target in disk && disk[target].Directory?) then None
    else Some((disk - {source})[target := disk[source]])
  }

  /** A name that is not safe, or a folder that the file system does not let us look at or make. */
  datatype FolderError = UnsafeFolder | UnusableFolder

  /** Walk the components under `directory`, creating what is missing and refusing what is not a real
      directory. `unusable` holds the paths at which `symlink_metadata` or `create_dir` fails, say because the
      name is too long for the file system. The disk keeps the directories made before a refusal. */
  function EnterFolders(disk: Disk, directory: Path, components: seq<string>, unusable: set<Path>):
    (r: (Disk, Result<Path, FolderError>))
    decreases |components|
  {
    if components == [] then (disk, Ok(directory))
    else
      match SanitizeComponent(components[0])
      case None => (disk, Err(UnsafeFolder))
      case Some(component) =>
        var next := directory + [component];
        if next in unusable then (disk, Err(UnusableFolder))
        else if next in disk then
          if disk[next].Directory? then EnterFolders(disk, next, components[1..], unusable) else (disk, Err(UnsafeFolder))
        else EnterFolders(disk[next := Directory], next, components[1..], unusable)
  }

  function SafeParentDirectory(disk: Disk, root: Path, parentFolder: Option<string>, unusable: set<Path>):
    (Disk, Result<Path, FolderError>)
  {
    if parentFolder.None? || parentFolder.value == "" then (disk, Ok(root))
    else EnterFolders(disk, root, Split(parentFolder.value), unusable)
  }

  predicate Below(root: Path, p: Path) {
    root < p && forall i :: |root| <= i < |p| ==> IsComponent(p[i])
  }

  /** The folders entered lie below the root, one ordinary component a step, and entering them only ever
      adds directories. */
  lemma {:induction false} EnteredBelow(disk: Disk, root: Path, directory: Path, components: seq<string>, unusable: set<Path>)
    requires directory == root || Below(root, directory)
    ensures var (disk', entered) := EnterFolders(disk, directory, components, unusable);
            && (entered.Ok? ==> directory <= entered.value && |entered.value| == |directory| + |components|)
            && (entered.Ok? ==> entered.value == root || Below(root, entered.value))
            && disk.Keys <= disk'.Keys
            && (forall p :: p in disk ==> disk'[p] == disk[p])
            && (forall p :: p in disk' && p !in disk ==> disk'[p] == Directory && Below(root, p) && |directory| < |p|)
    decreases |components|
  {
    if components != [] && SanitizeComponent(components[0]).Some? {
      SanitizeIsProjection(components[0]);
      var next := directory + [SanitizeComponent(components[0]).value];
      assert Below(root, next);
      EnteredBelow(if next in disk then disk else disk[next := Directory], root, next, components[1..], unusable);
    }
  }

  // ------------------------------------------------------------------
  // Free destinations

  function Decimal(n: nat): (s: string)
    ensures |s| > 0 && forall i :: 0 <= i < |s| ==> '0' <= s[i] <= '9'
  {
    var digit := [('0' as int + n % 10) as char];
    if n < 10 then digit else Decimal(n / 10) + digit
  }

  /** Decimal digits without a leading zero that write the number. */
  lemma {:induction false} DecimalReads(n: nat)
    ensures ValueOf(Decimal(n)) == n && (n > 0 ==> Decimal(n)[0] != '0')
  {
    var digit := [('0' as int + n % 10) as char];
    assert digit[..0] == "";
    if n >= 10 {
      DecimalReads(n / 10);
      var s := Decimal(n / 10) + digit;
      assert s[..|s| - 1] == Decimal(n / 10) && s[|s| - 1] == digit[0];
    }
  }

  function LastDot(name: string): (r: Option<nat>)
    ensures r.Some? ==> r.value < |name| && name[r.value] == '.'
  {
    if name == "" then None
    else if name[|name| - 1] == '.' then Some(|name| - 1)
    else LastDot(name[..|name| - 1])
  }

  /** `file_stem` and `extension`: a leading dot does not start an extension. */
  function Numbered(name: string, index: nat): string {
    var dot := LastDot(name);
    if dot.None? || dot.value == 0 then name + " (" + Decimal(index) + ")"
    else name[..dot.value] + " (" + Decimal(index) + ")." + name[dot.value + 1..]
  }

  lemma {:induction false} DotBefore(stem: string, extension: string)
    requires '.' !in extension
    ensures LastDot(stem + "." + extension) == Some(|stem|) && LastDot(extension) == None
    decreases |extension|
  {
    var name := stem + "." + extension;
    if extension != "" {
      var less := extension[..|extension| - 1];
      assert name[..|name| - 1] == stem + "." + less && name[|name| - 1] == extension[|extension| - 1];
      DotBefore(stem, less);
    }
  }

  /** The number goes before the last extension, if there is one; a dot in front does not start one. */
  lemma NumberBeforeExtension(stem: string, extension: string, index: nat)
    requires '.' !in extension
    ensures stem != "" ==> Numbered(stem + "." + extension, index) == stem + " (" + Decimal(index) + ")." + extension
    ensures Numbered("." + extension, index) == "." + extension + " (" + Decimal(index) + ")"
    ensures Numbered(extension, index) == extension + " (" + Decimal(index) + ")"
  {
    DotBefore(stem, extension);
    DotBefore("", extension);
    hide Decimal;
    var name := stem + "." + extension;
    assert name[..|stem|] == stem && name[|stem| + 1..] == extension;
    assert "" + "." + extension == "." + extension;
  }

  const MAX_U32: int := 0xffff_ffff

  /** The first free index from `index` up to, but not including, u32::MAX. */
  function FirstFree(disk: Disk, directory: Path, name: string, index: nat): Option<nat>
    decreases MAX_U32 - index
  {
    if index >= MAX_U32 then None
    else if !Exists(disk, directory + [Numbered(name, index)]) then Some(index)
    else FirstFree(disk, directory, name, index + 1)
  }

  function UniqueDestination(disk: Disk, directory: Path, name: string, random: nat): Path {
    if !Exists(disk, directory + [name]) then directory + [name]
    else
      var free := FirstFree(disk, directory, name, 1);
      directory + [if free.Some? then Numbered(name, free.value) else "hirodrop-" + Decimal(random)]
  }

  method FindUniqueDestination(disk: Disk, directory: Path, name: string, random: nat) returns (r: Path)
    ensures r == UniqueDestination(disk, directory, name, random)
  {
    var initial := directory + [name];
    if !Exists(disk, initial) {
      return initial;
    }
    var index: nat := 1;
    while index < MAX_U32
      invariant 1 <= index <= MAX_U32
      invariant FirstFree(disk, directory, name, 1) == FirstFree(disk, directory, name, index)
    {
      var candidate := directory + [Numbered(name, index)];
      if !Exists(disk, candidate) {
        return candidate;
      }
      index := index + 1;
    }
    r := directory + ["hirodrop-" + Decimal(random)];
  }

  lemma {:induction false} FirstFreeIsLeast(disk: Disk, directory: Path, name: string, index: nat)
    ensures var r := FirstFree(disk, directory, name, index);
            && (r.Some? ==> index <= r.value < MAX_U32 && !Exists(disk, directory + [Numbered(name, r.value)]))
            && (forall i: nat :: index <= i < (if r.Some? then r.value else MAX_U32) ==> Exists(disk, directory + [Numbered(name, i)]))
    decreases MAX_U32 - index
  {
    hide Numbered, Exists;
    if index < MAX_U32 && Exists(disk, directory + [Numbered(name, index)]) {
      FirstFreeIsLeast(disk, directory, name, index + 1);
    }
  }

  /** The destination is the plain name if that is free, else the name with the least number from 1 up that makes it
      free, and with all of them taken the random name. */
  lemma DestinationIs(disk: Disk, directory: Path, name: string, random: nat, k: nat)
    ensures var r := UniqueDestination(disk, directory, name, random);
            && (!Exists(disk, directory + [name]) ==> r == directory + [name])
            && (&& Exists(disk, directory + [name]) && 1 <= k < MAX_U32 && !Exists(disk, directory + [Numbered(name, k)])
                && (forall i: nat :: 1 <= i < k ==> Exists(disk, directory + [Numbered(name, i)]))
                ==> r == directory + [Numbered(name, k)])
            && (Exists(disk, directory + [name])
                && (forall i: nat :: 1 <= i < MAX_U32 ==> Exists(disk, directory + [Numbered(name, i)]))
                ==> r == directory + ["hirodrop-" + Decimal(random)])
  {
    hide Numbered, Exists, Decimal, FirstFree;
    FirstFreeIsLeast(disk, directory, name, 1);
  }

  lemma NumberedIsComponent(name: string, index: nat)
    requires IsComponent(name)
    ensures IsComponent(Numbered(name, index)) && Numbered(name, index)[0] == name[0]
  {
    var dot := LastDot(name);
    var plain := dot.None? || dot.value == 0;
    var stem := if plain then name else name[..dot.value];
    var tail := if plain then ")" else ")." + name[dot.value + 1..];
    hide LastDot, Decimal;
    assert Numbered(name, index) == stem + " (" + Decimal(index) + tail;
    assert forall i :: 0 <= i < |tail| ==> !IsForbidden(tail[i]);
    AroundParenthesis(stem, Decimal(index), tail);
  }

  lemma AroundParenthesis(stem: string, digits: string, tail: string)
    requires stem != "" && forall i :: 0 <= i < |stem| ==> !IsForbidden(stem[i])
    requires forall i :: 0 <= i < |digits| ==> '0' <= digits[i] <= '9'
    requires forall i :: 0 <= i < |tail| ==> !IsForbidden(tail[i])
    ensures IsComponent(stem + " (" + digits + tail)
  {
    var s := stem + " (" + digits + tail;
    assert s[|stem| + 1] == '(' && !IsWhitespace('(');
    assert forall i :: 0 <= i < |digits| ==> !IsForbidden(digits[i]);
    forall i | 0 <= i < |s|
      ensures !IsForbidden(s[i])
    {
      if i < |stem| {
        assert s[i] == stem[i];
      } else if i < |stem| + 2 {
        assert s[i] == " ("[i - |stem|];
      } else if i < |stem| + 2 + |digits| {
        assert s[i] == digits[i - |stem| - 2];
      } else {
        assert s[i] == tail[i - |stem| - 2 - |digits|];
      }
    }
  }

  /** A destination is one ordinary component below its directory; it does not exist yet whenever the plain
      name or some numbered one is free, and the number chosen is the least. */
  lemma {:induction false} DestinationShape(disk: Disk, directory: Path, name: string, random: nat)
    requires IsComponent(name)
    ensures var r := UniqueDestination(disk, directory, name, random);
            && |r| == |directory| + 1 && directory < r && IsComponent(r[|directory|])
            && (r[|directory|][0] == name[0] || r[|directory|][0] == 'h')
            && (Exists(disk, r) ==>
                  && Exists(disk, directory + [name])
                  && forall i: nat :: 1 <= i < MAX_U32 ==> Exists(disk, directory + [Numbered(name, i)]))
  {
    FirstFreeIsLeast(disk, directory, name, 1);
    var free := FirstFree(disk, directory, name, 1);
    if free.Some? {
      NumberedIsComponent(name, free.value);
    }
    var fallback := "hirodrop-" + Decimal(random);
    assert fallback[0] == 'h' && fallback[1] == 'i' && |fallback| > 2;
    assert forall i :: 0 <= i < |fallback| ==> !IsForbidden(fallback[i]);
    assert !IsWhitespace('h');
  }
}
