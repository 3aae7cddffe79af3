/**
 Restoring a backup archive (kernel/src/backup.rs): a first pass that validates
 every entry, and a second that writes them into a fresh directory.

 An archive is the sequence of entries its reader yields.  `fold` is the
 lower-casing of one component: the source lower-cases a whole name, and the
 separator neither has a case nor lets one act across it.
 */
module Restore {
  import opened Common
  import opened GovernedPath
  import opened Text

  type Result<+T> = Common.Result<T, RestoreError>

  datatype RestoreError =
    | Archive | TooManyEntries | EntryTooLarge | ContentsTooLarge | NotRegular | NotUtf8 | NotPermitted
    | MetadataTooLarge | Collide | SizeMismatch | Redirected | Io

  type Bytes = seq<bv8>

  /** `data` is what reading the entry yields; `backupId` what it says if it is the metadata. */
  datatype Entry =
    | Broken
    | Entry(regular: bool, name: Option<string>, size: nat, data: Bytes, readable: bool, backupId: Option<string>)

  datatype Limits = Limits(entries: nat, entryBytes: nat, totalBytes: nat)

  const RESTORE_LIMITS := Limits(65_536, 2 * 1024 * 1024 * 1024, 8 * 1024 * 1024 * 1024)
  const MAX_METADATA_BYTES: nat := 1024 * 1024

  type Fold = string -> string

  // ------------------------------------------------------------------
  // Names
  // ------------------------------------------------------------------

  datatype NameCheck = Denied(error: RestoreError) | Metadata | Named(name: string)

  /** The entry grammar: the metadata, the configuration, or something under data/. */
  function RestorableName(entry: Entry): NameCheck
    requires !entry.Broken?
  {
    if !entry.regular then Denied(NotRegular)
    else if entry.name.None? then Denied(NotUtf8)
    else
      var name := entry.name.value;
      if name == "backup-metadata.json" then Metadata
      else if (name == "config/config.toml" || (|name| > 5 && name[..5] == "data/")) && IsRelative(name) then Named(name)
      else Denied(NotPermitted)
  }

  predicate IsNamed(entry: Entry) {
    !entry.Broken? && RestorableName(entry).Named?
  }

  function PathOf(entry: Entry): (path: Path)
    requires IsNamed(entry)
    ensures |path| >= 1 && forall i :: 0 <= i < |path| ==> ValidComponent(path[i])
  {
    Split(RestorableName(entry).name)
  }

  function FoldPath(fold: Fold, path: Path): (folded: Path)
    ensures |folded| == |path|
  {
    seq(|path|, i requires 0 <= i < |path| => fold(path[i]))
  }

  function Folded(fold: Fold, entry: Entry): (folded: Path)
    requires IsNamed(entry)
    ensures folded != []
  {
    FoldPath(fold, PathOf(entry))
  }

  /** One path is the other or lies above it. */
  predicate Related(a: Path, b: Path) {
    a <= b || b <= a
  }

  // ------------------------------------------------------------------
  // What the first pass accepts
  // ------------------------------------------------------------------

  function Size(entry: Entry): nat { if entry.Broken? then 0 else entry.size }

  function Total(entries: seq<Entry>): nat {
    if entries == [] then 0 else Total(entries[..|entries| - 1]) + Size(entries[|entries| - 1])
  }

  /** An entry that is acceptable by itself. */
  predicate Fine(limits: Limits, entry: Entry) {
    && !entry.Broken? && entry.size <= limits.entryBytes && !RestorableName(entry).Denied?
    && (RestorableName(entry).Metadata? ==> entry.size <= MAX_METADATA_BYTES && entry.readable)
  }

  /** Folded names are pairwise distinct and none lies above another. */
  ghost predicate CollisionFree(fold: Fold, entries: seq<Entry>) {
    forall i, j :: 0 <= i < j < |entries| && IsNamed(entries[i]) && IsNamed(entries[j]) ==>
      !Related(Folded(fold, entries[i]), Folded(fold, entries[j]))
  }

  ghost predicate Accepts(fold: Fold, limits: Limits, entries: seq<Entry>) {
    && |entries| <= limits.entries && Capped(Total(entries)) <= limits.totalBytes
    && (forall i :: 0 <= i < |entries| ==> Fine(limits, entries[i]))
    && CollisionFree(fold, entries)
  }

  /** Whether an entry collides with one before it. */
  ghost predicate Collides(fold: Fold, before: seq<Entry>, entry: Entry)
    requires IsNamed(entry)
  {
    exists i :: 0 <= i < |before| && IsNamed(before[i]) && Related(Folded(fold, before[i]), Folded(fold, entry))
  }

  /** Why an entry is refused after the entries before it, in the order of the checks. */
  ghost function EntryError(fold: Fold, limits: Limits, before: seq<Entry>, entry: Entry): Option<RestoreError> {
    if entry.Broken? then Some(Archive)
    else if |before| + 1 > limits.entries then Some(TooManyEntries)
    else if entry.size > limits.entryBytes then Some(EntryTooLarge)
    else if Capped(Total(before) + entry.size) > limits.totalBytes then Some(ContentsTooLarge)
    else match RestorableName(entry)
      case Denied(error) => Some(error)
      case Metadata =>
        if entry.size > MAX_METADATA_BYTES then Some(MetadataTooLarge)
        else if !entry.readable then Some(Archive) else None
      case Named(_) => if Collides(fold, before, entry) then Some(Collide) else None
  }

  /** The error of the first refused entry. */
  ghost function FirstError(fold: Fold, limits: Limits, entries: seq<Entry>): Option<RestoreError> {
    if entries == [] then None
    else
      var front := entries[..|entries| - 1];
      if FirstError(fold, limits, front).Some? then FirstError(fold, limits, front)
      else EntryError(fold, limits, front, entries[|entries| - 1])
  }

  lemma CollisionFreeStep(fold: Fold, front: seq<Entry>, entry: Entry)
    ensures CollisionFree(fold, front + [entry]) <==>
              CollisionFree(fold, front) && (IsNamed(entry) ==> !Collides(fold, front, entry))
  {
    var all := front + [entry];
    assert forall i :: 0 <= i < |front| ==> all[i] == front[i];
    if CollisionFree(fold, all) && IsNamed(entry) {
      assert forall i :: 0 <= i < |front| && IsNamed(all[i]) ==>
               !Related(Folded(fold, all[i]), Folded(fold, all[|front|]));
    }
  }

  /** The scan refuses nothing exactly when the archive is acceptable as a whole. */
  lemma {:induction false} AcceptsExactly(fold: Fold, limits: Limits, entries: seq<Entry>)
    ensures FirstError(fold, limits, entries).None? <==> Accepts(fold, limits, entries)
  {
    hide Accepts, EntryError;
    if entries == [] {
      AcceptsNothing(fold, limits);
    } else {
      var front, last := entries[..|entries| - 1], entries[|entries| - 1];
      AcceptsExactly(fold, limits, front);
      assert entries == front + [last];
      AcceptsStep(fold, limits, front, last);
    }
  }

  lemma AcceptsNothing(fold: Fold, limits: Limits)
    ensures Accepts(fold, limits, [])
  {
  }

  lemma AcceptsStep(fold: Fold, limits: Limits, front: seq<Entry>, last: Entry)
    ensures Accepts(fold, limits, front + [last]) <==>
            Accepts(fold, limits, front) && EntryError(fold, limits, front, last).None?
  {
    hide IsRelative, CollisionFree, Collides, RestorableName;
    CollisionFreeStep(fold, front, last);
    assert (front + [last])[..|front|] == front;
    FineStep(limits, front, last);
  }

  lemma FineStep(limits: Limits, front: seq<Entry>, last: Entry)
    ensures (forall i :: 0 <= i < |front + [last]| ==> Fine(limits, (front + [last])[i])) <==>
            (forall i :: 0 <= i < |front| ==> Fine(limits, front[i])) && Fine(limits, last)
  {
    hide Fine;
    var all := front + [last];
    assert forall i :: 0 <= i < |front| ==> all[i] == front[i];
    assert all[|front|] == last;
  }

  // ------------------------------------------------------------------
  // The order of the entries
  // ------------------------------------------------------------------

  lemma {:induction false} TwiceMeans<T>(s: seq<T>, x: T)
    ensures multiset(s)[x] >= 2 <==> exists i, j :: 0 <= i < j < |s| && s[i] == x && s[j] == x
    ensures multiset(s)[x] >= 1 <==> x in s
  {
    if s != [] {
      var front, last := s[..|s| - 1], s[|s| - 1];
      TwiceMeans(front, x);
      assert s == front + [last];
      if multiset(s)[x] >= 2 {
        if multiset(front)[x] >= 2 {
          var i, j :| 0 <= i < j < |front| && front[i] == x && front[j] == x;
          assert s[i] == x && s[j] == x;
        } else {
          var i :| 0 <= i < |front| && front[i] == x;
          assert s[i] == x && s[|front|] == x;
        }
      }
    }
  }

  /** Collision freedom without positions: no named entry twice, and no two related ones. */
  lemma CollisionFreeUnordered(fold: Fold, entries: seq<Entry>)
    ensures CollisionFree(fold, entries) <==>
            && (forall e :: e in entries && IsNamed(e) ==> multiset(entries)[e] <= 1)
            && (forall e, f :: e in entries && f in entries && e != f && IsNamed(e) && IsNamed(f) ==>
                  !Related(Folded(fold, e), Folded(fold, f)))
  {
    forall e | e in entries && IsNamed(e)
      ensures multiset(entries)[e] >= 2 <==> exists i, j :: 0 <= i < j < |entries| && entries[i] == e && entries[j] == e
    {
      TwiceMeans(entries, e);
    }
    if CollisionFree(fold, entries) {
      forall e, f | e in entries && f in entries && e != f && IsNamed(e) && IsNamed(f)
        ensures !Related(Folded(fold, e), Folded(fold, f))
      {
        var i :| 0 <= i < |entries| && entries[i] == e;
        var j :| 0 <= j < |entries| && entries[j] == f;
        assert i < j || j < i;
      }
    }
  }

  lemma {:induction false} TotalWithout(entries: seq<Entry>, i: nat)
    requires i < |entries|
    ensures Total(entries) == Size(entries[i]) + Total(entries[..i] + entries[i + 1..])
  {
    var front := entries[..|entries| - 1];
    var rest := entries[..i] + entries[i + 1..];
    if i < |front| {
      TotalWithout(front, i);
      assert rest[..|rest| - 1] == front[..i] + front[i + 1..];
    } else {
      assert rest == front;
    }
  }

  lemma {:induction false} TotalUnordered(entries: seq<Entry>, reordered: seq<Entry>)
    requires multiset(entries) == multiset(reordered)
    ensures Total(entries) == Total(reordered)
    decreases |entries|
  {
    SameLength(entries, reordered);
    if entries != [] {
      var front, last := entries[..|entries| - 1], entries[|entries| - 1];
      assert entries == front + [last];
      assert last in multiset(reordered);
      var i :| 0 <= i < |reordered| && reordered[i] == last;
      TotalWithout(reordered, i);
      WithoutOne(reordered, i);
      TotalUnordered(front, reordered[..i] + reordered[i + 1..]);
    }
  }

  lemma WithoutOne<T>(s: seq<T>, i: nat)
    requires i < |s|
    ensures multiset(s[..i] + s[i + 1..]) == multiset(s) - multiset{s[i]}
  {
    assert s == s[..i] + ([s[i]] + s[i + 1..]);
  }

  lemma SameLength<T>(s: seq<T>, t: seq<T>)
    requires multiset(s) == multiset(t)
    ensures |s| == |t|
  {
    assert |s| == |multiset(s)| && |t| == |multiset(t)|;
  }

  lemma CollisionFreeReordered(fold: Fold, entries: seq<Entry>, reordered: seq<Entry>)
    requires multiset(entries) == multiset(reordered) && CollisionFree(fold, entries)
    ensures CollisionFree(fold, reordered)
  {
    hide Related, Folded, IsNamed;
    CollisionFreeUnordered(fold, entries);
    CollisionFreeUnordered(fold, reordered);
    hide CollisionFree;
    assert forall e :: e in entries <==> e in multiset(entries);
    assert forall e :: e in reordered <==> e in multiset(reordered);
  }

  lemma AcceptsReordered(fold: Fold, limits: Limits, entries: seq<Entry>, reordered: seq<Entry>)
    requires multiset(entries) == multiset(reordered) && Accepts(fold, limits, entries)
    ensures Accepts(fold, limits, reordered)
  {
    hide CollisionFree, Total, Fine;
    SameLength(entries, reordered);
    TotalUnordered(entries, reordered);
    CollisionFreeReordered(fold, entries, reordered);
    forall i | 0 <= i < |reordered| ensures Fine(limits, reordered[i]) {
      assert reordered[i] in multiset(reordered);
      assert reordered[i] in entries;
    }
  }

  /** Acceptance does not depend on the order of the entries. */
  lemma OrderDoesNotMatter(fold: Fold, limits: Limits, entries: seq<Entry>, reordered: seq<Entry>)
    requires multiset(entries) == multiset(reordered)
    ensures Accepts(fold, limits, entries) <==> Accepts(fold, limits, reordered)
  {
    hide Accepts;
    if Accepts(fold, limits, entries) {
      AcceptsReordered(fold, limits, entries, reordered);
    }
    if Accepts(fold, limits, reordered) {
      AcceptsReordered(fold, limits, reordered, entries);
    }
  }

  // ------------------------------------------------------------------
  // The first pass
  // ------------------------------------------------------------------

  function Names(entries: seq<Entry>): seq<string> {
    if entries == [] then []
    else
      var front, last := Names(entries[..|entries| - 1]), entries[|entries| - 1];
      if IsNamed(last) then front + [RestorableName(last).name] else front
  }

  /** The id of the last metadata entry that parses. */
  function BackupId(entries: seq<Entry>): string {
    if entries == [] then ""
    else
      var last := entries[|entries| - 1];
      if !last.Broken? && RestorableName(last).Metadata? && last.backupId.Some? then last.backupId.value
      else BackupId(entries[..|entries| - 1])
  }

  /** `files` are the folded names so far. */
  ghost predicate FilesOf(files: set<Path>, fold: Fold, before: seq<Entry>) {
    && (forall i :: 0 <= i < |before| && IsNamed(before[i]) ==> Folded(fold, before[i]) in files)
    && (forall f :: f in files ==> exists i :: 0 <= i < |before| && IsNamed(before[i]) && f == Folded(fold, before[i]))
  }

  /** `dirs` are the directories above the files. */
  ghost predicate ParentsOf(dirs: set<Path>, files: set<Path>) {
    && (forall f, k :: f in files && 0 < k < |f| ==> f[..k] in dirs)
    && (forall d :: d in dirs ==> d != [] && exists f :: f in files && d < f)
  }

  /** The three lookups of the first pass find every relation to an earlier file. */
  lemma LookupsFindRelated(files: set<Path>, dirs: set<Path>, folded: Path)
    requires ParentsOf(dirs, files) && folded != [] && [] !in files
    ensures (folded in files || folded in dirs || exists k :: 0 < k < |folded| && folded[..k] in files) <==>
            exists f :: f in files && Related(f, folded)
  {
    if f :| f in files && Related(f, folded) {
      if folded < f {
        assert f[..|folded|] == folded;
      } else if f < folded {
        assert folded[..|f|] == f && folded[..|f|] in files;
      } else {
        assert f == folded;
      }
    } else {
      assert forall k :: 0 < k < |folded| ==> folded[..k] <= folded;
    }
  }

  lemma CollidesByFiles(files: set<Path>, fold: Fold, before: seq<Entry>, entry: Entry)
    requires FilesOf(files, fold, before) && IsNamed(entry)
    ensures [] !in files
    ensures Collides(fold, before, entry) <==> exists f :: f in files && Related(f, Folded(fold, entry))
  {
  }

  /** Look an entry's folded name up, and note it and the directories above it. */
  method NoteName(files: set<Path>, dirs: set<Path>, folded: Path)
    returns (collides: bool, moreFiles: set<Path>, moreDirs: set<Path>)
    requires ParentsOf(dirs, files) && folded != [] && [] !in files
    ensures collides <==> exists f :: f in files && Related(f, folded)
    ensures !collides ==> moreFiles == files + {folded} && ParentsOf(moreDirs, moreFiles)
  {
    LookupsFindRelated(files, dirs, folded);
    hide Related;
    moreFiles, moreDirs := files, dirs;
    if folded in files || folded in dirs {
      return true, files, dirs;
    }
    for k := 1 to |folded|
      invariant forall j :: 0 < j < k ==> folded[..j] !in files
      invariant dirs <= moreDirs && forall j :: 0 < j < k ==> folded[..j] in moreDirs
      invariant forall d :: d in moreDirs ==> d in dirs || (d != [] && d < folded)
    {
      if folded[..k] in files {
        return true, files, dirs;
      }
      moreDirs := moreDirs + {folded[..k]};
    }
    moreFiles := files + {folded};
    collides := false;
  }

  /** Validate every entry; nothing is written. */
  method PlanRestore(fold: Fold, entries: seq<Entry>, limits: Limits) returns (r: Result<(string, seq<string>)>)
    ensures FirstError(fold, limits, entries) == if r.Ok? then None else Some(r.error)
    ensures r.Ok? <==> Accepts(fold, limits, entries)
    ensures r.Ok? ==> r.value == (BackupId(entries), Names(entries))
  {
    AcceptsExactly(fold, limits, entries);
    hide FirstError, Accepts, FilesOf, ParentsOf, IsRelative;
    NothingPlanned(fold, limits);
    var backupId, names := "", [];
    var files: set<Path>, dirs: set<Path> := {}, {};
    var total := 0;
    for i := 0 to |entries|
      invariant FirstError(fold, limits, entries[..i]).None?
      invariant FilesOf(files, fold, entries[..i]) && ParentsOf(dirs, files)
      invariant total == Capped(Total(entries[..i]))
      invariant backupId == BackupId(entries[..i]) && names == Names(entries[..i])
    {
      PlanStep(fold, limits, entries, i);
      var entry := entries[i];
      if entry.Broken? {
        return Err(Archive);
      }
      if i + 1 > limits.entries {
        return Err(TooManyEntries);
      }
      if entry.size > limits.entryBytes {
        return Err(EntryTooLarge);
      }
      total := Capped(total + entry.size);
      if total > limits.totalBytes {
        return Err(ContentsTooLarge);
      }
      match RestorableName(entry) {
        case Denied(error) =>
          return Err(error);
        case Metadata =>
          if entry.size > MAX_METADATA_BYTES {
            return Err(MetadataTooLarge);
          }
          if !entry.readable {
            return Err(Archive);
          }
          if entry.backupId.Some? {
            backupId := entry.backupId.value;
          }
        case Named(name) =>
          CollidesByFiles(files, fold, entries[..i], entry);
          var collides;
          collides, files, dirs := NoteName(files, dirs, Folded(fold, entry));
          if collides {
            return Err(Collide);
          }
          names := names + [name];
      }
      FilesStep(fold, entries, i);
    }
    assert entries[..|entries|] == entries;
    return Ok((backupId, names));
  }

  lemma NothingPlanned(fold: Fold, limits: Limits)
    ensures FirstError(fold, limits, []).None? && FilesOf({}, fold, []) && ParentsOf({}, {})
  {
  }

  /** The error of a longer scan. */
  lemma {:induction false} FirstErrorStays(fold: Fold, limits: Limits, entries: seq<Entry>, n: nat)
    requires n <= |entries| && FirstError(fold, limits, entries[..n]).Some?
    ensures FirstError(fold, limits, entries) == FirstError(fold, limits, entries[..n])
    decreases |entries|
  {
    if n < |entries| {
      var front := entries[..|entries| - 1];
      assert front[..n] == entries[..n];
      FirstErrorStays(fold, limits, front, n);
    } else {
      assert entries[..n] == entries;
    }
  }

  lemma PlanStep(fold: Fold, limits: Limits, entries: seq<Entry>, i: nat)
    requires i < |entries| && FirstError(fold, limits, entries[..i]).None?
    ensures FirstError(fold, limits, entries[..i + 1]) == EntryError(fold, limits, entries[..i], entries[i])
    ensures FirstError(fold, limits, entries[..i + 1]).Some? ==>
              FirstError(fold, limits, entries) == FirstError(fold, limits, entries[..i + 1])
    ensures Total(entries[..i + 1]) == Total(entries[..i]) + Size(entries[i])
    ensures Names(entries[..i + 1]) ==
            Names(entries[..i]) + if IsNamed(entries[i]) then [RestorableName(entries[i]).name] else []
    ensures BackupId(entries[..i + 1]) ==
            if !entries[i].Broken? && RestorableName(entries[i]).Metadata? && entries[i].backupId.Some?
            then entries[i].backupId.value else BackupId(entries[..i])
  {
    hide EntryError, RestorableName;
    assert entries[..i + 1][..i] == entries[..i];
    if FirstError(fold, limits, entries[..i + 1]).Some? {
      FirstErrorStays(fold, limits, entries, i + 1);
    }
  }

  lemma FilesStep(fold: Fold, entries: seq<Entry>, i: nat)
    requires i < |entries|
    ensures forall files :: FilesOf(files, fold, entries[..i]) ==>
              FilesOf(if IsNamed(entries[i]) then files + {Folded(fold, entries[i])} else files, fold, entries[..i + 1])
  {
  }

  // ------------------------------------------------------------------
  // What the second pass leaves
  // ------------------------------------------------------------------

  datatype Node = Directory | FileNode(data: Bytes)

  /** A filesystem's nodes by location; a location is the identities of its names. */
  type Nodes = map<Path, Node>

  /** A name identity that is no coarser than lower-casing on valid names: case sensitive or not. */
  ghost predicate NoCoarser(key: Fold, fold: Fold) {
    forall a: string, b: string :: ValidComponent(a) && ValidComponent(b) && key(a) == key(b) ==> fold(a) == fold(b)
  }

  /** Where an entry goes, relative to the restore directory. */
  function Place(key: Fold, entry: Entry): (place: Path)
    requires IsNamed(entry)
    ensures place != []
  {
    Folded(key, entry)
  }

  /** The directories above `place`, down to depth `k`. */
  function WithDirs(nodes: Nodes, base: Path, place: Path, k: nat): Nodes
    requires k <= |place|
  {
    if k == 0 then nodes else WithDirs(nodes, base, place, k - 1)[base + place[..k] := Directory]
  }

  function Placed(nodes: Nodes, base: Path, place: Path, data: Bytes): Nodes
    requires place != []
  {
    WithDirs(nodes, base, place, |place| - 1)[base + place := FileNode(data)]
  }

  /** The nodes once every named entry was written. */
  function Restored(nodes: Nodes, base: Path, key: Fold, entries: seq<Entry>): Nodes {
    if entries == [] then nodes
    else
      var front, last := Restored(nodes, base, key, entries[..|entries| - 1]), entries[|entries| - 1];
      if IsNamed(last) then Placed(front, base, Place(key, last), last.data) else front
  }

  ghost predicate OnlyBeneath(before: Nodes, after: Nodes, base: Path) {
    forall loc :: !(base < loc) ==> (loc in after <==> loc in before) && (loc in before ==> after[loc] == before[loc])
  }

  lemma {:induction false} WithDirsLookup(nodes: Nodes, base: Path, place: Path, k: nat, loc: Path)
    requires k <= |place|
    ensures loc in WithDirs(nodes, base, place, k) <==> loc in nodes || exists j :: 0 < j <= k && loc == base + place[..j]
    ensures (exists j :: 0 < j <= k && loc == base + place[..j]) ==> WithDirs(nodes, base, place, k)[loc] == Directory
    ensures loc in nodes && !(exists j :: 0 < j <= k && loc == base + place[..j]) ==>
              WithDirs(nodes, base, place, k)[loc] == nodes[loc]
  {
    if k > 0 {
      WithDirsLookup(nodes, base, place, k - 1, loc);
      assert base + place[..k] == loc || base + place[..k] != loc;
    }
  }

  /** A node beneath the base is a file at its place or a directory above one. */
  ghost predicate Expected(key: Fold, entries: seq<Entry>, base: Path, loc: Path, node: Node) {
    || (exists i :: 0 <= i < |entries| && IsFileOf(key, entries[i], base, loc, node))
    || (node.Directory? && exists i :: 0 <= i < |entries| && IsAbove(key, entries[i], base, loc))
  }

  predicate IsFileOf(key: Fold, entry: Entry, base: Path, loc: Path, node: Node) {
    IsNamed(entry) && loc == base + Place(key, entry) && node == FileNode(entry.data)
  }

  predicate IsAbove(key: Fold, entry: Entry, base: Path, loc: Path) {
    IsNamed(entry) && exists k :: 0 < k < |Place(key, entry)| && loc == base + Place(key, entry)[..k]
  }

  /** Nothing but the entries and the directories above them, and all of it beneath the base. */
  lemma {:induction false} RestoredOnly(nodes: Nodes, base: Path, key: Fold, entries: seq<Entry>, loc: Path)
    requires forall beneath :: beneath in nodes ==> !(base < beneath)
    ensures var after := Restored(nodes, base, key, entries);
            if base < loc then loc in after ==> Expected(key, entries, base, loc, after[loc])
            else (loc in after <==> loc in nodes) && (loc in nodes ==> after[loc] == nodes[loc])
  {
    hide RestorableName, IsRelative, Place, Placed, Expected, IsFileOf, IsAbove;
    if entries != [] {
      var front, last := entries[..|entries| - 1], entries[|entries| - 1];
      var before := Restored(nodes, base, key, front);
      RestoredOnly(nodes, base, key, front, loc);
      if loc in before {
        ExpectedMore(key, entries, base, loc, before[loc]);
      }
      if IsNamed(last) {
        PlacedLookup(before, base, key, last, loc);
        if loc in Placed(before, base, Place(key, last), last.data) {
          ExpectedLast(key, entries, base, loc, Placed(before, base, Place(key, last), last.data)[loc]);
        }
      }
    }
  }

  lemma ExpectedMore(key: Fold, entries: seq<Entry>, base: Path, loc: Path, node: Node)
    requires entries != []
    ensures Expected(key, entries[..|entries| - 1], base, loc, node) ==> Expected(key, entries, base, loc, node)
  {
    hide IsFileOf, IsAbove;
    var front := entries[..|entries| - 1];
    assert forall i :: 0 <= i < |front| ==> entries[i] == front[i];
  }

  lemma ExpectedLast(key: Fold, entries: seq<Entry>, base: Path, loc: Path, node: Node)
    requires entries != []
    ensures var last := entries[|entries| - 1];
            IsFileOf(key, last, base, loc, node) || (node.Directory? && IsAbove(key, last, base, loc)) ==>
              Expected(key, entries, base, loc, node)
  {
    hide IsFileOf, IsAbove;
  }

  /** What writing one entry adds: its file and the directories above it. */
  lemma PlacedLookup(nodes: Nodes, base: Path, key: Fold, entry: Entry, loc: Path)
    requires IsNamed(entry)
    ensures var after := Placed(nodes, base, Place(key, entry), entry.data);
            && (loc in after ==>
                  || IsFileOf(key, entry, base, loc, after[loc])
                  || (after[loc].Directory? && IsAbove(key, entry, base, loc))
                  || (loc in nodes && after[loc] == nodes[loc]))
            && (!(base < loc) ==> (loc in after <==> loc in nodes) && (loc in nodes ==> after[loc] == nodes[loc]))
  {
    hide RestorableName, IsRelative, WithDirs, Folded;
    var place := Place(key, entry);
    WithDirsLookup(nodes, base, place, |place| - 1, loc);
    PlacedBeneath(nodes, base, place, entry.data);
  }

  /** Places related in an identity that is no coarser are related once folded. */
  lemma RelatedPlaces(key: Fold, fold: Fold, e: Entry, f: Entry)
    requires NoCoarser(key, fold) && IsNamed(e) && IsNamed(f)
    requires Related(Place(key, e), Place(key, f))
    ensures Related(Folded(fold, e), Folded(fold, f))
  {
    hide IsRelative, RestorableName;
    var p, q := PathOf(e), PathOf(f);
    var n := if |p| <= |q| then |p| else |q|;
    assert forall i :: 0 <= i < n ==> key(p[i]) == Place(key, e)[i] && key(q[i]) == Place(key, f)[i];
    assert forall i :: 0 <= i < n ==> key(p[i]) == key(q[i]);
    assert forall i :: 0 <= i < n ==> fold(p[i]) == fold(q[i]);
  }

  /** No two named entries have related places. */
  ghost predicate Apart(key: Fold, entries: seq<Entry>) {
    forall i, j :: 0 <= i < j < |entries| && IsNamed(entries[i]) && IsNamed(entries[j]) ==>
      !Related(Place(key, entries[i]), Place(key, entries[j]))
  }

  lemma CollisionFreeApart(key: Fold, fold: Fold, entries: seq<Entry>)
    requires NoCoarser(key, fold) && CollisionFree(fold, entries)
    ensures Apart(key, entries)
  {
    hide NoCoarser, Related, Place, Folded, IsNamed;
    forall i, j | 0 <= i < j < |entries| && IsNamed(entries[i]) && IsNamed(entries[j])
      ensures !Related(Place(key, entries[i]), Place(key, entries[j]))
    {
      if Related(Place(key, entries[i]), Place(key, entries[j])) {
        RelatedPlaces(key, fold, entries[i], entries[j]);
        assert false;
      }
    }
  }

  /** An empty file directly under data/. */
  function DataEntry(component: string): Entry {
    Entry(true, Some("data/" + component), 0, [], true, None)
  }

  lemma {:induction false} SplitPlain(text: string)
    requires '/' !in text
    ensures Split(text) == [text]
  {
    if text != "" {
      SplitPlain(text[..|text| - 1]);
      assert text == text[..|text| - 1] + [text[|text| - 1]];
    }
  }

  lemma {:induction false} SplitUnder(top: string, component: string)
    requires '/' !in top && '/' !in component
    ensures Split(top + "/" + component) == [top, component]
  {
    var text := top + "/" + component;
    if component == "" {
      assert text[..|text| - 1] == top;
      SplitPlain(top);
    } else {
      assert text[..|text| - 1] == top + "/" + component[..|component| - 1];
      SplitUnder(top, component[..|component| - 1]);
      assert component == component[..|component| - 1] + [component[|component| - 1]];
    }
  }

  lemma Utf8Cons(c: char, rest: string)
    ensures Utf8Length([c] + rest) == Utf8Width(c) + Utf8Length(rest)
  {
    assert ([c] + rest)[1..] == rest;
  }

  lemma DataLength(component: string)
    ensures Utf8Length("data/" + component) == 5 + Utf8Length(component)
  {
    hide Utf8Length;
    Utf8Cons('/', component);
    Utf8Cons('a', "/" + component);
    Utf8Cons('t', "a/" + component);
    Utf8Cons('a', "ta/" + component);
    Utf8Cons('d', "ata/" + component);
    assert ['a'] + ("/" + component) == "a/" + component;
    assert ['t'] + ("a/" + component) == "ta/" + component;
    assert ['a'] + ("ta/" + component) == "ata/" + component;
    assert ['d'] + ("ata/" + component) == "data/" + component;
  }

  lemma DataIsNoDevice()
    ensures !IsDeviceName("data")
  {
    assert Stem("a") == "a" && Stem("ta") == "ta" && Stem("ata") == "ata" && Stem("data") == "data";
    assert UpperText("a") == "A" && UpperText("ta") == "TA" && UpperText("ata") == "ATA" && UpperText("data") == "DATA";
  }

  lemma DataIsValid()
    ensures ValidComponent("data")
  {
    hide IsDeviceName;
    DataIsNoDevice();
    assert Utf8Length("a") == 1 && Utf8Length("ta") == 2 && Utf8Length("ata") == 3;
  }

  lemma ComponentFacts(component: string)
    requires ValidComponent(component)
    ensures '/' !in component && component != "" && Utf8Length(component) <= MAX_COMPONENT_BYTES
  {
    hide IsDeviceName, Utf8Length;
  }

  lemma DataIsRelative(component: string)
    requires ValidComponent(component)
    ensures IsRelative("data/" + component) && Split("data/" + component) == ["data", component]
  {
    hide ValidComponent, Split, Utf8Length;
    var name := "data/" + component;
    ComponentFacts(component);
    SplitUnder("data", component);
    assert "data" + "/" + component == name;
    DataLength(component);
    DataIsValid();
  }

  lemma DataEntryIsNamed(component: string)
    requires ValidComponent(component)
    ensures IsNamed(DataEntry(component)) && PathOf(DataEntry(component)) == ["data", component]
  {
    hide ValidComponent, Split, IsRelative;
    DataIsRelative(component);
    ComponentFacts(component);
    var name := "data/" + component;
    assert name[..5] == "data/" && |name| > 5 && name[0] == 'd' && "backup-metadata.json"[0] == 'b';
  }

  /** Two names the filesystem takes for one and lower-casing keeps apart: accepted, and blocked. */
  lemma CoarserIsBlocked(key: Fold, fold: Fold, a: string, b: string, nodes: Nodes, base: Path)
    requires ValidComponent(a) && ValidComponent(b) && key(a) == key(b) && fold(a) != fold(b)
    ensures var entries := [DataEntry(a), DataEntry(b)];
            && Accepts(fold, RESTORE_LIMITS, entries) && IsNamed(entries[1]) && !Apart(key, entries)
            && Blocked(Restored(nodes, base, key, entries[..1]), base, Place(key, entries[1]))
  {
    hide ValidComponent, RestorableName, IsRelative;
    var entries := [DataEntry(a), DataEntry(b)];
    DataEntryIsNamed(a);
    DataEntryIsNamed(b);
    assert entries[..1] == [DataEntry(a)] && entries[..1][..0] == [];
    assert Folded(fold, entries[0])[1] == fold(a) && Folded(fold, entries[1])[1] == fold(b);
    assert Place(key, entries[0]) == Place(key, entries[1]) == [key("data"), key(a)];
    assert Total([]) == 0;
    assert Total(entries[..1]) == 0;
    assert Total(entries) == 0;
  }

  /** The condition is exact: archives the first pass accepts keep apart iff the identity is no coarser. */
  lemma NoCoarserExactly(key: Fold, fold: Fold)
    ensures NoCoarser(key, fold) <==>
            forall entries :: Accepts(fold, RESTORE_LIMITS, entries) ==> Apart(key, entries)
  {
    hide Accepts, Apart, ValidComponent;
    if NoCoarser(key, fold) {
      forall entries | Accepts(fold, RESTORE_LIMITS, entries) ensures Apart(key, entries) {
        AcceptedApart(key, fold, entries);
      }
    } else {
      var a: string, b: string :| ValidComponent(a) && ValidComponent(b) && key(a) == key(b) && fold(a) != fold(b);
      CoarserIsBlocked(key, fold, a, b, map[], []);
    }
  }

  lemma AcceptedApart(key: Fold, fold: Fold, entries: seq<Entry>)
    requires NoCoarser(key, fold) && Accepts(fold, RESTORE_LIMITS, entries)
    ensures Apart(key, entries)
  {
    hide NoCoarser, Apart, CollisionFree;
    CollisionFreeApart(key, fold, entries);
  }

  lemma BeneathBase(base: Path, a: Path, b: Path)
    ensures base + a == base + b ==> a == b
    ensures a != [] ==> base < base + a
  {
    assert (base + a)[|base|..] == a && (base + b)[|base|..] == b;
  }

  /** Writing one more unrelated entry moves no earlier file and no directory above one. */
  lemma PlacedKeeps(nodes: Nodes, base: Path, place: Path, data: Bytes, other: Path, k: nat)
    requires place != [] && 0 < k <= |other| && !Related(place, other)
    requires base + other[..k] in nodes && (k < |other| ==> nodes[base + other[..k]] == Directory)
    ensures base + other[..k] in Placed(nodes, base, place, data)
    ensures Placed(nodes, base, place, data)[base + other[..k]] == nodes[base + other[..k]]
  {
    var loc := base + other[..k];
    WithDirsLookup(nodes, base, place, |place| - 1, loc);
    BeneathBase(base, other[..k], place);
    if j :| 0 < j <= |place| - 1 && loc == base + place[..j] {
      BeneathBase(base, other[..k], place[..j]);
      assert k < |other|;
    }
  }

  lemma PlacedHas(nodes: Nodes, base: Path, place: Path, data: Bytes, k: nat)
    requires 0 < k <= |place|
    ensures base + place[..k] in Placed(nodes, base, place, data)
    ensures Placed(nodes, base, place, data)[base + place[..k]] == if k == |place| then FileNode(data) else Directory
  {
    assert place[..|place|] == place;
    BeneathBase(base, place[..k], place);
    WithDirsLookup(nodes, base, place, |place| - 1, base + place[..k]);
  }

  /** Every entry is there, with its bytes, beneath its directories. */
  lemma {:induction false} RestoredAll(nodes: Nodes, base: Path, key: Fold, entries: seq<Entry>, i: nat, k: nat)
    requires Apart(key, entries) && i < |entries| && IsNamed(entries[i]) && 0 < k <= |Place(key, entries[i])|
    ensures var after, place := Restored(nodes, base, key, entries), Place(key, entries[i]);
            base + place[..k] in after &&
            after[base + place[..k]] == if k == |place| then FileNode(entries[i].data) else Directory
  {
    hide IsRelative, RestorableName, Related, WithDirs;
    var front, last := entries[..|entries| - 1], entries[|entries| - 1];
    var before, place := Restored(nodes, base, key, front), Place(key, entries[i]);
    if i == |front| {
      PlacedHas(before, base, place, last.data, k);
    } else {
      assert Apart(key, front);
      RestoredAll(nodes, base, key, front, i, k);
      if IsNamed(last) {
        RelatedEitherWay(place, Place(key, last));
        PlacedKeeps(before, base, Place(key, last), last.data, place, k);
      }
    }
  }

  lemma RelatedEitherWay(a: Path, b: Path)
    ensures Related(a, b) <==> Related(b, a)
  {
  }

  /** An entry cannot be written: its place is taken, or a file stands where a directory is needed. */
  ghost predicate Blocked(nodes: Nodes, base: Path, place: Path) {
    || base + place in nodes
    || exists k :: 0 < k < |place| && base + place[..k] in nodes && nodes[base + place[..k]].FileNode?
  }

  /** What the first pass accepted never blocks the second. */
  lemma NeverBlocked(nodes: Nodes, base: Path, key: Fold, entries: seq<Entry>, i: nat)
    requires forall beneath :: beneath in nodes ==> !(base < beneath)
    requires Apart(key, entries) && i < |entries| && IsNamed(entries[i])
    ensures !Blocked(Restored(nodes, base, key, entries[..i]), base, Place(key, entries[i]))
  {
    hide IsRelative, RestorableName, Place, IsNamed, Restored;
    var place, before := Place(key, entries[i]), Restored(nodes, base, key, entries[..i]);
    forall k | 0 < k <= |place|
      ensures base + place[..k] in before ==> k < |place| && before[base + place[..k]].Directory?
    {
      RestoredOnly(nodes, base, key, entries[..i], base + place[..k]);
      BeneathBase(base, place[..k], place);
      if base + place[..k] in before {
        ExpectedAbove(key, entries, i, base, k, before[base + place[..k]]);
      }
    }
    assert place[..|place|] == place;
  }

  lemma ExpectedAbove(key: Fold, entries: seq<Entry>, i: nat, base: Path, k: nat, node: Node)
    requires Apart(key, entries) && i < |entries| && IsNamed(entries[i]) && 0 < k <= |Place(key, entries[i])|
    requires Expected(key, entries[..i], base, base + Place(key, entries[i])[..k], node)
    ensures k < |Place(key, entries[i])| && node.Directory?
  {
    hide IsRelative, RestorableName, Place, IsNamed;
    var place := Place(key, entries[i]);
    var loc := base + place[..k];
    forall j | 0 <= j < i && IsNamed(entries[..i][j])
      ensures loc != base + Place(key, entries[j])
      ensures k == |place| ==> !IsAbove(key, entries[j], base, loc)
    {
      NotAt(base, place, Place(key, entries[j]), k);
    }
  }

  /** A depth of an unrelated place is neither the other place nor, at full depth, above it. */
  lemma NotAt(base: Path, place: Path, other: Path, k: nat)
    requires 0 < k <= |place| && !Related(other, place)
    ensures base + place[..k] != base + other
    ensures k == |place| ==> forall j :: 0 < j < |other| ==> base + place[..k] != base + other[..j]
  {
    BeneathBase(base, place[..k], other);
    forall j | 0 < j < |other| && k == |place| ensures base + place[..k] != base + other[..j] {
      BeneathBase(base, place[..k], other[..j]);
    }
  }

  /** An entry whose place is related to that of one already written is blocked. */
  lemma RelatedBlocks(nodes: Nodes, base: Path, key: Fold, entries: seq<Entry>, j: nat, place: Path)
    requires Apart(key, entries) && j < |entries| && IsNamed(entries[j]) && place != []
    requires Related(Place(key, entries[j]), place)
    ensures Blocked(Restored(nodes, base, key, entries), base, place)
  {
    hide IsRelative, RestorableName, Place, IsNamed, Restored, Apart;
    var other := Place(key, entries[j]);
    var k := if |other| <= |place| then |other| else |place|;
    RestoredAll(nodes, base, key, entries, j, k);
    assert other[..k] == place[..k] && place[..|place|] == place;
  }

  lemma NothingRelated(key: Fold, entries: seq<Entry>)
    ensures Apart(key, entries[..0])
  {
  }

  /** One more entry keeps the places apart iff those before it do not block it. */
  lemma ApartExactly(nodes: Nodes, base: Path, key: Fold, entries: seq<Entry>, i: nat)
    requires forall beneath :: beneath in nodes ==> !(base < beneath)
    requires i < |entries| && Apart(key, entries[..i])
    ensures Apart(key, entries[..i + 1]) <==>
            (IsNamed(entries[i]) ==> !Blocked(Restored(nodes, base, key, entries[..i]), base, Place(key, entries[i])))
    ensures Apart(key, entries) ==> Apart(key, entries[..i + 1])
  {
    hide IsRelative, RestorableName, Place, IsNamed, Restored, Blocked, Related;
    var more := entries[..i + 1];
    assert more[..i] == entries[..i];
    if IsNamed(entries[i]) {
      if Apart(key, more) {
        NeverBlocked(nodes, base, key, more, i);
      } else {
        var j :| 0 <= j < i && IsNamed(more[j]) && Related(Place(key, more[j]), Place(key, more[i]));
        RelatedBlocks(nodes, base, key, entries[..i], j, Place(key, entries[i]));
      }
    }
  }

  // ------------------------------------------------------------------
  // The second pass
  // ------------------------------------------------------------------

  datatype Made = Created | Exists | Failed

  predicate IsDirectory(nodes: Nodes, loc: Path) {
    loc in nodes && nodes[loc].Directory?
  }

  ghost predicate ElsewhereSame(before: Nodes, after: Nodes, base: Path) {
    forall loc :: !(base <= loc) ==> (loc in after <==> loc in before) && (loc in after ==> after[loc] == before[loc])
  }

  class Disk {
    const key: Fold
    var nodes: Nodes

    constructor (key: Fold, nodes: Nodes)
      ensures this.key == key && this.nodes == nodes
    {
      this.key, this.nodes := key, nodes;
    }

    function At(path: Path): Path {
      FoldPath(key, path)
    }

    /** Create a directory, which must not exist, in an existing one. */
    method CreateDir(path: Path) returns (made: Made, ghost faulted: bool)
      requires path != []
      modifies this
      ensures made.Created? ==> nodes == old(nodes)[At(path) := Directory] && At(path) !in old(nodes)
      ensures !made.Created? ==> nodes == old(nodes)
      ensures made.Exists? ==> At(path) in nodes
      ensures !faulted && IsDirectory(nodes, At(path)[..|path| - 1]) ==> !made.Failed?
    {
      var fault: bool := *;
      var parent := At(path)[..|path| - 1];
      if fault {
        return Failed, true;
      }
      if At(path) in nodes {
        return Exists, false;
      }
      if !IsDirectory(nodes, parent) {
        return Failed, false;
      }
      nodes := nodes[At(path) := Directory];
      return Created, false;
    }

    /** Create a file, which must not exist, in an existing directory, and write to it. */
    method CreateFile(path: Path, data: Bytes) returns (ok: bool, ghost faulted: bool)
      requires path != []
      modifies this
      ensures ok ==> At(path) !in old(nodes) && nodes == old(nodes)[At(path) := FileNode(data)]
      ensures !ok ==> nodes == old(nodes) || exists part :: nodes == old(nodes)[At(path) := FileNode(part)]
      ensures !faulted && At(path) !in old(nodes) && IsDirectory(old(nodes), At(path)[..|path| - 1]) ==> ok
    {
      var fault: bool := *;
      if fault {
        return false, true;
      }
      if At(path) in nodes || !IsDirectory(nodes, At(path)[..|path| - 1]) {
        return false, false;
      }
      var torn: bool := *;
      if torn {
        var part: Bytes := *;
        nodes := nodes[At(path) := FileNode(part)];
        return false, true;
      }
      nodes := nodes[At(path) := FileNode(data)];
      return true, false;
    }

    /** Remove a directory and everything beneath it, as far as that succeeds. */
    method RemoveAll(path: Path) returns (ghost ok: bool)
      modifies this
      ensures ElsewhereSame(old(nodes), nodes, At(path))
      ensures ok ==> forall loc :: loc in nodes ==> !(At(path) <= loc)
    {
      var done: bool := *;
      ok := done;
      if done {
        nodes := nodes - set loc | loc in nodes && At(path) <= loc;
      }
    }
  }

  lemma AtJoins(key: Fold, target: Path, path: Path, k: nat)
    requires k <= |path|
    ensures FoldPath(key, target + path[..k]) == FoldPath(key, target) + FoldPath(key, path)[..k]
    ensures FoldPath(key, target + path) == FoldPath(key, target) + FoldPath(key, path)
    ensures k > 0 ==> FoldPath(key, target + path[..k])[..|target| + k - 1] == FoldPath(key, target + path[..k - 1])
  {
  }

  /** A depth that was not made yet is as it was before. */
  lemma NotMadeYet(nodes: Nodes, base: Path, place: Path, k: nat)
    requires 0 < k <= |place|
    ensures var loc, after := base + place[..k], WithDirs(nodes, base, place, k - 1);
            (loc in after <==> loc in nodes) && (loc in nodes ==> after[loc] == nodes[loc])
  {
    var loc := base + place[..k];
    WithDirsLookup(nodes, base, place, k - 1, loc);
    assert forall j :: 0 < j <= k - 1 ==> |base + place[..j]| < |loc|;
  }

  lemma WithDirsBeneath(nodes: Nodes, base: Path, place: Path, k: nat)
    requires k <= |place|
    ensures OnlyBeneath(nodes, WithDirs(nodes, base, place, k), base)
  {
    hide WithDirs;
    forall loc | !(base < loc)
      ensures loc in WithDirs(nodes, base, place, k) <==> loc in nodes
      ensures loc in nodes ==> WithDirs(nodes, base, place, k)[loc] == nodes[loc]
    {
      WithDirsLookup(nodes, base, place, k, loc);
      assert forall j :: 0 < j <= k ==> base < base + place[..j];
    }
  }

  ghost predicate FileAt(nodes: Nodes, loc: Path) {
    loc in nodes && nodes[loc].FileNode?
  }

  /** Make one directory, or find it there. */
  method MakeDir(disk: Disk, location: Path, ghost before: Nodes, ghost base: Path, ghost place: Path, ghost k: nat)
    returns (error: Option<RestoreError>, ghost faulted: bool)
    requires 0 < k < |place| && location != [] && disk.At(location) == base + place[..k]
    requires disk.At(location)[..|location| - 1] == base + place[..k - 1]
    requires disk.nodes == WithDirs(before, base, place, k - 1) && IsDirectory(disk.nodes, base + place[..k - 1])
    modifies disk
    ensures error.None? ==>
              && disk.nodes == WithDirs(before, base, place, k) && IsDirectory(disk.nodes, base + place[..k])
              && !FileAt(before, base + place[..k])
    ensures error.Some? ==> disk.nodes == old(disk.nodes) && (faulted || FileAt(before, base + place[..k]))
  {
    NotMadeYet(before, base, place, k);
    var made;
    made, faulted := disk.CreateDir(location);
    match made {
      case Created => return None, faulted;
      case Failed => return Some(Io), faulted;
      case Exists =>
        var redirected: bool := *;
        if redirected {
          return Some(Redirected), true;
        }
        if !IsDirectory(disk.nodes, disk.At(location)) {
          return Some(Redirected), faulted;
        }
        assert WithDirs(before, base, place, k) == disk.nodes;
        return None, faulted;
    }
  }

  /** Make the directories above an entry. */
  method MakeDirs(disk: Disk, target: Path, entry: Entry) returns (error: Option<RestoreError>, ghost faulted: bool)
    requires IsNamed(entry) && IsDirectory(disk.nodes, disk.At(target))
    modifies disk
    ensures OnlyBeneath(old(disk.nodes), disk.nodes, disk.At(target))
    ensures var base, place := disk.At(target), Place(disk.key, entry);
            && (error.None? ==>
                  && disk.nodes == WithDirs(old(disk.nodes), base, place, |place| - 1)
                  && IsDirectory(disk.nodes, base + place[..|place| - 1])
                  && forall k :: 0 < k < |place| ==> !FileAt(old(disk.nodes), base + place[..k]))
            && (error.Some? && !faulted ==> Blocked(old(disk.nodes), base, place))
  {
    hide IsNamed, RestorableName, IsRelative, WithDirs, OnlyBeneath, Enter, ValidComponent;
    var path, location := PathOf(entry), target;
    ghost var base, place, before := disk.At(target), Place(disk.key, entry), disk.nodes;
    NoDirsYet(before, base, place);
    for k := 1 to |path|
      invariant location == target + path[..k - 1]
      invariant disk.nodes == WithDirs(before, base, place, k - 1)
      invariant IsDirectory(disk.nodes, base + place[..k - 1])
      invariant forall j :: 0 < j < k ==> !FileAt(before, base + place[..j])
    {
      EntersNext(target, path, k);
      location := Enter(location, path[k - 1]);
      AtJoins(disk.key, target, path, k);
      AtJoins(disk.key, target, path, k - 1);
      WithDirsBeneath(before, base, place, k - 1);
      error, faulted := MakeDir(disk, location, before, base, place, k);
      if error.Some? {
        return;
      }
    }
    WithDirsBeneath(before, base, place, |path| - 1);
    return None, false;
  }

  lemma NoDirsYet(nodes: Nodes, base: Path, place: Path)
    ensures WithDirs(nodes, base, place, 0) == nodes && base + place[..0] == base
  {
  }

  lemma PlacedBeneath(nodes: Nodes, base: Path, place: Path, data: Bytes)
    requires place != []
    ensures OnlyBeneath(nodes, Placed(nodes, base, place, data), base)
  {
    WithDirsBeneath(nodes, base, place, |place| - 1);
    BeneathBase(base, place, place);
  }

  lemma EntersNext(target: Path, path: Path, k: nat)
    requires 0 < k <= |path| && ValidComponent(path[k - 1])
    ensures Enter(target + path[..k - 1], path[k - 1]) == target + path[..k]
  {
    assert path[..k] == path[..k - 1] + [path[k - 1]];
  }

  /** Write one entry; its size must be that of its data. */
  method WriteEntry(disk: Disk, target: Path, entry: Entry) returns (error: Option<RestoreError>, ghost faulted: bool)
    requires IsNamed(entry) && IsDirectory(disk.nodes, disk.At(target))
    modifies disk
    ensures OnlyBeneath(old(disk.nodes), disk.nodes, disk.At(target))
    ensures var base, place := disk.At(target), Place(disk.key, entry);
            && (error.None? ==>
                  && disk.nodes == Placed(old(disk.nodes), base, place, entry.data) && |entry.data| == entry.size
                  && !Blocked(old(disk.nodes), base, place))
            && (error.Some? && !faulted ==> Blocked(old(disk.nodes), base, place) || |entry.data| != entry.size)
  {
    hide RestorableName, IsRelative, WithDirs, OnlyBeneath, Enter, ValidComponent;
    ghost var base, place, before := disk.At(target), Place(disk.key, entry), disk.nodes;
    error, faulted := MakeDirs(disk, target, entry);
    if error.Some? {
      return;
    }
    var path := PathOf(entry);
    EntersNext(target, path, |path|);
    var file := Enter(target + path[..|path| - 1], path[|path| - 1]);
    AtJoins(disk.key, target, path, |path|);
    AtJoins(disk.key, target, path, |path| - 1);
    assert path[..|path|] == path;
    FileNotMade(before, base, place);
    // At most one byte more than `size` is copied.
    var copied := if |entry.data| > entry.size then entry.data[..entry.size + 1] else entry.data;
    var ok;
    ok, faulted := disk.CreateFile(file, copied);
    PlacedParts(before, base, place, disk.nodes);
    if !ok {
      return Some(Io), faulted;
    }
    if |copied| != entry.size {
      return Some(SizeMismatch), faulted;
    }
    return None, faulted;
  }

  lemma FileNotMade(nodes: Nodes, base: Path, place: Path)
    requires place != []
    ensures base + place in WithDirs(nodes, base, place, |place| - 1) <==> base + place in nodes
  {
    assert place[..|place|] == place;
    NotMadeYet(nodes, base, place, |place|);
  }

  /** However much of the file was written, nothing else changed. */
  lemma PlacedParts(nodes: Nodes, base: Path, place: Path, after: Nodes)
    requires place != []
    requires after == WithDirs(nodes, base, place, |place| - 1)
             || exists part :: after == WithDirs(nodes, base, place, |place| - 1)[base + place := FileNode(part)]
    ensures OnlyBeneath(nodes, after, base)
  {
    WithDirsBeneath(nodes, base, place, |place| - 1);
    if part :| after == WithDirs(nodes, base, place, |place| - 1)[base + place := FileNode(part)] {
      PlacedBeneath(nodes, base, place, part);
    }
  }

  /** An archive whose named entries have the sizes they announce. */
  ghost predicate SizesMatch(entries: seq<Entry>) {
    forall i :: 0 <= i < |entries| ==> SizeMatches(entries[i])
  }

  predicate SizeMatches(entry: Entry) {
    IsNamed(entry) ==> |entry.data| == entry.size
  }

  /** What the second pass checks of an entry again. */
  predicate Writable(limits: Limits, entry: Entry) {
    !entry.Broken? && !RestorableName(entry).Denied? && (IsNamed(entry) ==> entry.size <= limits.entryBytes)
  }

  ghost predicate AllWritable(limits: Limits, entries: seq<Entry>) {
    forall i :: 0 <= i < |entries| ==> Writable(limits, entries[i])
  }

  /**
   Write every entry beneath `target`, each directory and file created
   exclusively.  Whatever names the filesystem takes for one, absent I/O failures
   an archive is written completely exactly when its entries can be written, its
   sizes are right and its places apart.
   */
  method WriteRestore(disk: Disk, target: Path, entries: seq<Entry>, limits: Limits)
    returns (r: Result<()>, ghost faulted: bool)
    requires IsDirectory(disk.nodes, disk.At(target))
    requires forall loc :: loc in disk.nodes ==> !(disk.At(target) < loc)
    modifies disk
    ensures OnlyBeneath(old(disk.nodes), disk.nodes, disk.At(target))
    ensures r.Ok? ==> disk.nodes == Restored(old(disk.nodes), disk.At(target), disk.key, entries)
    ensures r.Ok? ==> AllWritable(limits, entries) && SizesMatch(entries) && Apart(disk.key, entries)
    ensures !faulted && AllWritable(limits, entries) && SizesMatch(entries) && Apart(disk.key, entries) ==> r.Ok?
  {
    hide RestorableName, IsRelative, OnlyBeneath, Restored, Placed, Place, Blocked, IsNamed, SizeMatches,
         Writable, Apart;
    ghost var base, before := disk.At(target), disk.nodes;
    NothingRestored(before, base, disk.key);
    NothingRelated(disk.key, entries);
    faulted := false;
    for i := 0 to |entries|
      invariant disk.nodes == Restored(before, base, disk.key, entries[..i])
      invariant OnlyBeneath(before, disk.nodes, base)
      invariant forall j :: 0 <= j < i ==> SizeMatches(entries[j]) && Writable(limits, entries[j])
      invariant Apart(disk.key, entries[..i])
    {
      RestoredStep(before, base, disk.key, entries, i);
      ApartExactly(before, base, disk.key, entries, i);
      BaseKept(before, disk.nodes, base);
      var error, fault := WriteNext(disk, target, entries[i], limits);
      BeneathTwice(before, Restored(before, base, disk.key, entries[..i]), disk.nodes, base);
      faulted := fault;
      if error.Some? {
        return Err(error.value), faulted;
      }
    }
    assert entries[..|entries|] == entries;
    return Ok(()), faulted;
  }

  /** One entry of the second pass, with the checks of the first made again. */
  method WriteNext(disk: Disk, target: Path, entry: Entry, limits: Limits)
    returns (error: Option<RestoreError>, ghost faulted: bool)
    requires IsDirectory(disk.nodes, disk.At(target))
    modifies disk
    ensures OnlyBeneath(old(disk.nodes), disk.nodes, disk.At(target))
    ensures error.None? ==>
              && SizeMatches(entry) && Writable(limits, entry)
              && (IsNamed(entry) ==> !Blocked(old(disk.nodes), disk.At(target), Place(disk.key, entry)))
              && disk.nodes ==
                 if IsNamed(entry) then Placed(old(disk.nodes), disk.At(target), Place(disk.key, entry), entry.data)
                 else old(disk.nodes)
    ensures error.Some? && !faulted && Writable(limits, entry) ==>
              IsNamed(entry) && (!SizeMatches(entry) || Blocked(old(disk.nodes), disk.At(target), Place(disk.key, entry)))
  {
    hide IsRelative, Placed, Place, Blocked, RestorableName;
    if entry.Broken? {
      return Some(Archive), false;
    }
    match RestorableName(entry) {
      case Denied(why) => return Some(why), false;
      case Metadata => return None, false;
      case Named(_) =>
        if entry.size > limits.entryBytes {
          return Some(EntryTooLarge), false;
        }
        error, faulted := WriteEntry(disk, target, entry);
    }
  }

  lemma NothingRestored(nodes: Nodes, base: Path, key: Fold)
    ensures Restored(nodes, base, key, []) == nodes && OnlyBeneath(nodes, nodes, base)
  {
  }

  lemma RestoredStep(nodes: Nodes, base: Path, key: Fold, entries: seq<Entry>, i: nat)
    requires i < |entries|
    ensures Restored(nodes, base, key, entries[..i + 1]) ==
            var front := Restored(nodes, base, key, entries[..i]);
            if IsNamed(entries[i]) then Placed(front, base, Place(key, entries[i]), entries[i].data) else front
  {
    assert entries[..i + 1][..i] == entries[..i];
  }

  lemma BaseKept(before: Nodes, after: Nodes, base: Path)
    requires OnlyBeneath(before, after, base) && IsDirectory(before, base)
    ensures IsDirectory(after, base)
  {
  }

  lemma BeneathTwice(a: Nodes, b: Nodes, c: Nodes, base: Path)
    requires OnlyBeneath(a, b, base) && OnlyBeneath(b, c, base)
    ensures OnlyBeneath(a, c, base)
  {
  }

  lemma AcceptedIsWritable(fold: Fold, limits: Limits, entries: seq<Entry>)
    requires Accepts(fold, limits, entries)
    ensures AllWritable(limits, entries)
  {
    hide CollisionFree, RestorableName;
    assert forall i :: 0 <= i < |entries| ==> Fine(limits, entries[i]);
  }

  // ------------------------------------------------------------------
  // The whole restore
  // ------------------------------------------------------------------

  /** Every node lies in a directory. */
  ghost predicate IsTree(nodes: Nodes) {
    forall loc :: loc in nodes && loc != [] ==> IsDirectory(nodes, loc[..|loc| - 1])
  }

  lemma {:induction false} NothingBeneathNothing(nodes: Nodes, base: Path, loc: Path)
    requires IsTree(nodes) && base !in nodes && base < loc
    ensures loc !in nodes
    decreases |loc|
  {
    if base < loc[..|loc| - 1] {
      NothingBeneathNothing(nodes, base, loc[..|loc| - 1]);
    } else {
      assert loc[..|loc| - 1] == base;
    }
  }

  lemma NothingAtNothing(nodes: Nodes, base: Path)
    requires IsTree(nodes) && base !in nodes
    ensures forall loc :: loc in nodes ==> !(base <= loc)
  {
    hide IsTree;
    forall loc | base <= loc ensures loc !in nodes {
      if base != loc {
        assert base < loc;
        NothingBeneathNothing(nodes, base, loc);
      }
    }
  }

  /** A directory with nothing at or beneath it before, and nothing after, left no trace. */
  lemma NoTrace(before: Nodes, after: Nodes, base: Path)
    requires ElsewhereSame(before, after, base)
    requires forall loc :: loc in before || loc in after ==> !(base <= loc)
    ensures after == before
  {
  }

  lemma BeneathIsElsewhere(before: Nodes, started: Nodes, after: Nodes, base: Path)
    requires started == before[base := Directory] && OnlyBeneath(started, after, base)
    ensures ElsewhereSame(before, after, base)
  {
  }

  lemma ElsewhereTwice(a: Nodes, b: Nodes, c: Nodes, base: Path)
    requires ElsewhereSame(a, b, base) && ElsewhereSame(b, c, base)
    ensures ElsewhereSame(a, c, base)
  {
  }

  /** Write into a directory made for it, and remove the directory if that fails. */
  method FillFresh(disk: Disk, target: Path, entries: seq<Entry>, limits: Limits, ghost before: Nodes)
    returns (error: Option<RestoreError>, ghost faulted: bool, ghost removed: bool)
    requires disk.nodes == before[disk.At(target) := Directory]
    requires forall loc :: loc in before ==> !(disk.At(target) <= loc)
    modifies disk
    ensures ElsewhereSame(before, disk.nodes, disk.At(target))
    ensures error.None? ==>
              disk.nodes == Restored(before[disk.At(target) := Directory], disk.At(target), disk.key, entries)
    ensures error.None? ==> AllWritable(limits, entries) && SizesMatch(entries) && Apart(disk.key, entries)
    ensures !faulted && AllWritable(limits, entries) && SizesMatch(entries) && Apart(disk.key, entries) ==> error.None?
    ensures error.Some? && removed ==> disk.nodes == before
  {
    hide SizesMatch, Restored, OnlyBeneath, ElsewhereSame, AllWritable, Apart;
    ghost var base, started := disk.At(target), disk.nodes;
    var written;
    written, faulted := WriteRestore(disk, target, entries, limits);
    BeneathIsElsewhere(before, started, disk.nodes, base);
    if written.Ok? {
      return None, faulted, true;
    }
    ghost var filled := disk.nodes;
    removed := disk.RemoveAll(target);
    ElsewhereTwice(before, filled, disk.nodes, base);
    if removed {
      NoTrace(before, disk.nodes, base);
    }
    error := Some(written.error);
  }

  /**
   Restore an archive into the fresh directory `name` beneath `root`.  Success
   leaves exactly the entries there; a failure leaves nothing outside that
   directory changed, and nothing at all if the directory could be removed.
   Absent I/O failures it succeeds exactly if the archive is accepted, its sizes
   are right and this filesystem keeps its places apart.
   */
  method RestoreBackup(disk: Disk, root: Path, name: string, entries: seq<Entry>, limits: Limits, fold: Fold)
    returns (r: Result<(string, seq<string>)>, ghost faulted: bool, ghost removed: bool)
    requires IsTree(disk.nodes) && IsDirectory(disk.nodes, disk.At(root))
    modifies disk
    ensures ElsewhereSame(old(disk.nodes), disk.nodes, disk.At(root + [name])) || disk.nodes == old(disk.nodes)
    ensures var base := disk.At(root + [name]);
            && (r.Ok? ==>
                  && Accepts(fold, limits, entries) && r.value == (BackupId(entries), Names(entries))
                  && SizesMatch(entries) && Apart(disk.key, entries) && base !in old(disk.nodes)
                  && disk.nodes == Restored(old(disk.nodes)[base := Directory], base, disk.key, entries))
            && (!faulted && base !in old(disk.nodes) ==>
                  (r.Ok? <==> Accepts(fold, limits, entries) && SizesMatch(entries) && Apart(disk.key, entries)))
            && (r.Err? && removed ==> disk.nodes == old(disk.nodes))
  {
    hide Accepts, SizesMatch, Restored, Names, BackupId, ElsewhereSame, IsTree, Apart, AllWritable;
    removed := true;
    var plan := PlanRestore(fold, entries, limits);
    if plan.Err? {
      return Err(plan.error), false, true;
    }
    var target := root + [name];
    ghost var base, before := disk.At(target), disk.nodes;
    AtJoins(disk.key, root, [name], 1);
    AtJoins(disk.key, root, [name], 0);
    assert root + [name][..1] == target && root + [name][..0] == root;
    var made;
    made, faulted := disk.CreateDir(target);
    if !made.Created? {
      return Err(Io), faulted, true;
    }
    NothingAtNothing(before, base);
    AcceptedIsWritable(fold, limits, entries);
    var error;
    error, faulted, removed := FillFresh(disk, target, entries, limits, before);
    return if error.None? then plan else Err(error.value), faulted, removed;
  }
}
