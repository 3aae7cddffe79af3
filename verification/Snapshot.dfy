/**
 The snapshot copy of a coding run (kernel/src/coding_run.rs, `SnapshotCopy`):
 every scope entry of a project tree is walked and its regular files are staged,
 under caps on the file count, the file size and the total size.

 `CopyReadScope` is the code; `ScopeFiles` says, independently of any walk
 order, which files a scope selects, and `SnapshotOk` when a snapshot succeeds.
 */
module Snapshot {
  import opened Scope

  type Byte = b: nat | b < 256
  type Bytes = seq<Byte>

  /** A file system node, classified without following links. */
  datatype Node =
    | Regular(content: Bytes, links: nat, device: nat)
    | Directory(device: nat, listable: bool, children: seq<Child>)
    | Symlink
    | Special

  /** A directory entry.  A directory with a name that is not UTF-8 is not `listable`. */
  datatype Child = Child(name: string, node: Node)

  datatype Found = Missing | Present(node: Node)

  /** What a manifest keeps of a file; the digest is an ideal (injective) hash. */
  datatype ManifestEntry = ManifestEntry(size: nat, digest: Bytes)

  function EntryOf(content: Bytes): ManifestEntry {
    ManifestEntry(|content|, content)
  }

  datatype Profile = Profile(maxFiles: nat, maxTotalBytes: nat, maxFileBytes: nat)

  /** A staging directory: its directories (below the root) and its files. */
  datatype StagingTree = StagingTree(dirs: set<Path>, files: map<Path, Bytes>)

  ghost predicate NormalDirs(dirs: set<Path>) {
    forall dir :: dir in dirs ==> Normal(dir)
  }

  // ------------------------------------------------------------------
  // Project trees
  // ------------------------------------------------------------------

  function Lookup(children: seq<Child>, name: string): Found {
    if children == [] then Missing
    else if children[|children| - 1].name == name then Present(children[|children| - 1].node)
    else Lookup(children[..|children| - 1], name)
  }

  datatype Listing = NoDirectory | Entries(children: seq<Child>)

  /** The entries of the directory at `path`, if every component is a directory. */
  function EntriesAt(children: seq<Child>, path: Path): Listing
    decreases |path|
  {
    if path == [] then Entries(children)
    else
      match Lookup(children, path[0])
      case Present(Directory(_, _, inner)) => EntriesAt(inner, path[1..])
      case _ => NoDirectory
  }

  function NodeAt(children: seq<Child>, path: Path): Found
    requires path != []
  {
    match EntriesAt(children, path[..|path| - 1])
    case Entries(inner) => Lookup(inner, path[|path| - 1])
    case NoDirectory => Missing
  }

  /** A directory names each entry once, at every level. */
  predicate UniqueNames(children: seq<Child>) {
    && (forall i, j :: 0 <= i < j < |children| ==> children[i].name != children[j].name)
    && (forall i :: 0 <= i < |children| && children[i].node.Directory? ==> UniqueNames(children[i].node.children))
  }

  lemma {:induction false} LookupFinds(children: seq<Child>, i: nat)
    requires UniqueNames(children) && i < |children|
    ensures Lookup(children, children[i].name) == Present(children[i].node)
  {
    if i < |children| - 1 {
      LookupFinds(children[..|children| - 1], i);
    }
  }

  lemma {:induction false} LookupIn(children: seq<Child>, name: string)
    ensures Lookup(children, name).Missing? <==> forall i :: 0 <= i < |children| ==> children[i].name != name
    ensures Lookup(children, name).Present? ==> Child(name, Lookup(children, name).node) in children
  {
    if children != [] {
      LookupIn(children[..|children| - 1], name);
    }
  }

  lemma {:induction false} EntriesAtSnoc(children: seq<Child>, path: Path, name: string)
    decreases |path|
    ensures EntriesAt(children, path + [name]) ==
            match EntriesAt(children, path)
            case NoDirectory => NoDirectory
            case Entries(inner) => EntriesAt(inner, [name])
  {
    if path == [] {
      assert path + [name] == [name];
    } else {
      match Lookup(children, path[0])
      case Present(Directory(_, _, inner)) =>
        EntriesAtSnoc(inner, path[1..], name);
        assert (path + [name])[1..] == path[1..] + [name];
      case _ =>
    }
  }

  lemma {:induction false} UniqueBelow(children: seq<Child>, path: Path)
    requires UniqueNames(children)
    ensures EntriesAt(children, path).Entries? ==> UniqueNames(EntriesAt(children, path).children)
  {
    if path != [] {
      LookupIn(children, path[0]);
      match Lookup(children, path[0])
      case Present(Directory(_, _, inner)) => UniqueBelow(inner, path[1..]);
      case _ =>
    }
  }

  /** Nothing is beneath a node that is not a directory, and a directory is no file. */
  lemma {:induction false} NothingBelow(children: seq<Child>, path: Path, below: Path)
    requires path != [] && NodeAt(children, path).Present? && !NodeAt(children, path).node.Directory?
    requires path < below
    ensures NodeAt(children, below).Missing?
  {
    var parent := below[..|below| - 1];
    EntriesAtSnoc(children, path[..|path| - 1], path[|path| - 1]);
    assert path[..|path| - 1] + [path[|path| - 1]] == path;
    NoDirectoryBelow(children, path, parent);
  }

  lemma {:induction false} NoDirectoryBelow(children: seq<Child>, path: Path, below: Path)
    requires EntriesAt(children, path).NoDirectory? && path <= below
    ensures EntriesAt(children, below).NoDirectory?
  {
    if path != below {
      var parent, name := below[..|below| - 1], below[|below| - 1];
      assert path <= parent;
      NoDirectoryBelow(children, path, parent);
      EntriesAtSnoc(children, parent, name);
      assert parent + [name] == below;
    }
  }

  // ------------------------------------------------------------------
  // What a scope selects
  // ------------------------------------------------------------------

  /** The regular files below a directory, skipping Git metadata. */
  function FilesBelow(children: seq<Child>, prefix: Path): map<Path, Bytes> {
    if children == [] then map[]
    else FilesBelow(children[..|children| - 1], prefix) + FilesOfChild(children[|children| - 1], prefix)
  }

  function FilesOfChild(child: Child, prefix: Path): map<Path, Bytes> {
    if IsGitMetadata(child.name) then map[]
    else
      match child.node
      case Regular(content, _, _) => map[prefix + [child.name] := content]
      case Directory(_, _, inner) => FilesBelow(inner, prefix + [child.name])
      case _ => map[]
  }

  /** The files one scope entry selects. */
  function EntryFiles(project: seq<Child>, entry: ScopeEntry): map<Path, Bytes>
    requires ValidEntry(entry)
  {
    if entry.WholeProject? then FilesBelow(project, [])
    else
      match NodeAt(project, entry.path)
      case Present(Regular(content, _, _)) => map[entry.path := content]
      case Present(Directory(_, _, inner)) =>
        if entry.Tree? then FilesBelow(inner, entry.path) else map[]
      case _ => map[]
  }

  predicate ValidScope(scope: seq<ScopeEntry>) {
    forall i :: 0 <= i < |scope| ==> ValidEntry(scope[i])
  }

  function ScopeFiles(project: seq<Child>, scope: seq<ScopeEntry>): map<Path, Bytes>
    requires ValidScope(scope)
  {
    if scope == [] then map[]
    else ScopeFiles(project, scope[..|scope| - 1]) + EntryFiles(project, scope[|scope| - 1])
  }

  ghost predicate IsFile(project: seq<Child>, path: Path, content: Bytes) {
    path != [] && NodeAt(project, path).Present? && NodeAt(project, path).node.Regular? &&
    NodeAt(project, path).node.content == content
  }

  /** `m` holds exactly the non-Git files of `project` that satisfy a condition on their path. */
  ghost predicate Holds(m: map<Path, Bytes>, project: seq<Child>, path: Path, selected: bool) {
    && (path in m ==> selected && NoGit(path) && IsFile(project, path, m[path]))
    && (selected && path != [] && NoGit(path) && NodeAt(project, path).Present? && NodeAt(project, path).node.Regular?
        ==> path in m)
  }

  // ------------------------------------------------------------------
  // When a walk is accepted
  // ------------------------------------------------------------------

  predicate GoodFile(node: Node, path: Path, profile: Profile, device: nat)
    requires node.Regular?
  {
    && IsRelPath(path)
    && node.links == 1 && node.device == device
    && |node.content| <= profile.maxFileBytes
  }

  predicate GoodChild(child: Child, prefix: Path, profile: Profile, device: nat) {
    IsGitMetadata(child.name) || (
      && ValidateComponent(child.name).Accepted?
      && match child.node
         case Regular(_, _, _) => GoodFile(child.node, prefix + [child.name], profile, device)
         case Directory(dev, listable, inner) =>
           dev == device && listable && GoodBelow(inner, prefix + [child.name], profile, device)
         case _ => false)
  }

  predicate GoodBelow(children: seq<Child>, prefix: Path, profile: Profile, device: nat) {
    children == [] || (
      && GoodBelow(children[..|children| - 1], prefix, profile, device)
      && GoodChild(children[|children| - 1], prefix, profile, device))
  }

  /** The directories on the way are directories of the project's device, as far as they exist. */
  predicate GoodWay(children: seq<Child>, way: Path, device: nat)
    decreases |way|
  {
    way == [] ||
    match Lookup(children, way[0])
    case Missing => true
    case Present(Directory(dev, _, inner)) => dev == device && GoodWay(inner, way[1..], device)
    case Present(_) => false
  }

  predicate GoodTarget(node: Node, path: Path, tree: bool, profile: Profile, device: nat) {
    match node
    case Regular(_, _, _) => GoodFile(node, path, profile, device)
    case Directory(dev, listable, inner) =>
      tree && dev == device && listable && GoodBelow(inner, path, profile, device)
    case _ => false
  }

  predicate GoodEntry(project: seq<Child>, listable: bool, entry: ScopeEntry, profile: Profile, device: nat)
    requires ValidEntry(entry)
  {
    if entry.WholeProject? then listable && GoodBelow(project, [], profile, device)
    else
      && GoodWay(project, entry.path[..|entry.path| - 1], device)
      && (NodeAt(project, entry.path).Present? ==>
            GoodTarget(NodeAt(project, entry.path).node, entry.path, entry.Tree?, profile, device))
  }

  ghost function TotalBytes(files: map<Path, Bytes>): nat
  {
    if files == map[] then 0
    else
      var path :| path in files;
      |files[path]| + TotalBytes(files - {path})
  }

  ghost predicate Fits(files: map<Path, Bytes>, profile: Profile) {
    |files| <= profile.maxFiles && TotalBytes(files) <= profile.maxTotalBytes
  }

  /** A snapshot succeeds when every entry's walk is accepted and the selected files fit. */
  ghost predicate SnapshotOk(project: seq<Child>, listable: bool, scope: seq<ScopeEntry>, profile: Profile, device: nat)
    requires ValidScope(scope)
  {
    && (forall i :: 0 <= i < |scope| ==> GoodEntry(project, listable, scope[i], profile, device))
    && Fits(ScopeFiles(project, scope), profile)
  }

  // ------------------------------------------------------------------
  // A scope selects exactly the files it covers
  // ------------------------------------------------------------------

  lemma UnlistedMissing(project: seq<Child>, prefix: Path, all: seq<Child>, path: Path)
    requires EntriesAt(project, prefix) == Entries(all)
    requires prefix < path && Lookup(all, path[|prefix|]).Missing?
    ensures NodeAt(project, path).Missing?
  {
    var name := path[|prefix|];
    EntriesAtSnoc(project, prefix, name);
    if |path| == |prefix| + 1 {
      assert path[..|path| - 1] == prefix;
    } else {
      assert prefix + [name] <= path[..|path| - 1];
      NoDirectoryBelow(project, prefix + [name], path[..|path| - 1]);
    }
  }

  lemma NextComponentListed(project: seq<Child>, prefix: Path, all: seq<Child>, path: Path)
    requires EntriesAt(project, prefix) == Entries(all)
    requires prefix < path && NodeAt(project, path).Present?
    ensures exists i :: 0 <= i < |all| && all[i].name == path[|prefix|]
  {
    LookupIn(all, path[|prefix|]);
    if Lookup(all, path[|prefix|]).Missing? {
      UnlistedMissing(project, prefix, all, path);
    }
  }

  /** The node an entry of a listed directory names. */
  lemma ChildNode(project: seq<Child>, prefix: Path, all: seq<Child>, i: nat)
    requires UniqueNames(project) && EntriesAt(project, prefix) == Entries(all) && i < |all|
    ensures NodeAt(project, prefix + [all[i].name]) == Present(all[i].node)
    ensures all[i].node.Directory? ==>
              EntriesAt(project, prefix + [all[i].name]) == Entries(all[i].node.children)
  {
    UniqueBelow(project, prefix);
    LookupFinds(all, i);
    EntriesAtSnoc(project, prefix, all[i].name);
    assert (prefix + [all[i].name])[..|prefix|] == prefix;
  }

  ghost predicate Named(all: seq<Child>, k: nat, prefix: Path, path: Path)
    requires k <= |all|
  {
    prefix < path && exists i :: 0 <= i < k && all[i].name == path[|prefix|]
  }

  lemma {:induction false} FilesBelowExact(project: seq<Child>, prefix: Path, all: seq<Child>, k: nat, path: Path)
    requires UniqueNames(project) && EntriesAt(project, prefix) == Entries(all)
    requires NoGit(prefix) && k <= |all|
    ensures Holds(FilesBelow(all[..k], prefix), project, path, Named(all, k, prefix, path))
    decreases all, k
  {
    if k > 0 {
      FilesBelowExact(project, prefix, all, k - 1, path);
      assert all[..k][..k - 1] == all[..k - 1];
      FilesOfChildExact(project, prefix, all, k - 1, path);
    }
  }

  lemma {:induction false} FilesOfChildExact(project: seq<Child>, prefix: Path, all: seq<Child>, i: nat, path: Path)
    requires UniqueNames(project) && EntriesAt(project, prefix) == Entries(all)
    requires NoGit(prefix) && i < |all|
    ensures Holds(FilesOfChild(all[i], prefix), project, path, prefix < path && path[|prefix|] == all[i].name)
    decreases all, i
  {
    var child, here := all[i], prefix + [all[i].name];
    ChildNode(project, prefix, all, i);
    if prefix < path && path[|prefix|] == child.name && !IsGitMetadata(child.name) {
      assert here <= path;
      if here != path && !child.node.Directory? {
        NothingBelow(project, here, path);
      }
    }
    if child.node.Directory? && !IsGitMetadata(child.name) {
      var inner := child.node.children;
      FilesBelowExact(project, here, inner, |inner|, path);
      assert inner[..|inner|] == inner;
      if here < path && NodeAt(project, path).Present? {
        NextComponentListed(project, here, inner, path);
      }
    }
  }

  lemma EntryFilesExact(project: seq<Child>, entry: ScopeEntry, path: Path)
    requires UniqueNames(project) && ValidEntry(entry)
    ensures Holds(EntryFiles(project, entry), project, path, EntryCovers(entry, path))
  {
    if entry.WholeProject? {
      DirectoryFilesExact(project, [], project, path);
    } else {
      var node := NodeAt(project, entry.path);
      EntriesAtSnoc(project, entry.path[..|entry.path| - 1], entry.path[|entry.path| - 1]);
      assert entry.path[..|entry.path| - 1] + [entry.path[|entry.path| - 1]] == entry.path;
      if node.Present? && node.node.Directory? {
        DirectoryFilesExact(project, entry.path, node.node.children, path);
        assert entry.path <= path ==> entry.path < path || entry.path == path;
      } else if entry.path <= path && entry.path != path {
        if node.Present? {
          NothingBelow(project, entry.path, path);
        } else {
          NoDirectoryBelow(project, entry.path, path[..|path| - 1]);
        }
      }
    }
  }

  lemma DirectoryFilesExact(project: seq<Child>, prefix: Path, all: seq<Child>, path: Path)
    requires UniqueNames(project) && EntriesAt(project, prefix) == Entries(all) && NoGit(prefix)
    ensures Holds(FilesBelow(all, prefix), project, path, prefix < path)
  {
    FilesBelowExact(project, prefix, all, |all|, path);
    assert all[..|all|] == all;
    if prefix < path && NodeAt(project, path).Present? {
      NextComponentListed(project, prefix, all, path);
    }
  }

  /** The files of a scope are exactly the non-Git regular files it covers, with their bytes. */
  lemma {:induction false} ScopeFilesExact(project: seq<Child>, scope: seq<ScopeEntry>, path: Path)
    requires UniqueNames(project) && ValidScope(scope)
    ensures Holds(ScopeFiles(project, scope), project, path, Covers(scope, path))
  {
    if scope != [] {
      var front, last := scope[..|scope| - 1], scope[|scope| - 1];
      ScopeFilesExact(project, front, path);
      EntryFilesExact(project, last, path);
      assert scope == front + [last];
      assert Covers(scope, path) <==> Covers(front, path) || EntryCovers(last, path);
    }
  }

  /** The selected files depend only on what is covered: not on order, repetition or overlap. */
  lemma SameCoverageSameFiles(project: seq<Child>, scope: seq<ScopeEntry>, other: seq<ScopeEntry>)
    requires UniqueNames(project) && ValidScope(scope) && ValidScope(other)
    requires forall path :: Covers(scope, path) <==> Covers(other, path)
    ensures ScopeFiles(project, scope) == ScopeFiles(project, other)
  {
    var m, n := ScopeFiles(project, scope), ScopeFiles(project, other);
    forall path ensures path in m <==> path in n {
      ScopeFilesExact(project, scope, path);
      ScopeFilesExact(project, other, path);
    }
    forall path | path in m ensures m[path] == n[path] {
      ScopeFilesExact(project, scope, path);
      ScopeFilesExact(project, other, path);
    }
  }

  /** Success does not depend on the order or the repetition of scope entries. */
  lemma OrderDoesNotMatter(project: seq<Child>, listable: bool, scope: seq<ScopeEntry>, other: seq<ScopeEntry>,
                           profile: Profile, device: nat)
    requires UniqueNames(project) && ValidScope(scope) && ValidScope(other)
    requires forall entry :: entry in scope <==> entry in other
    ensures ScopeFiles(project, scope) == ScopeFiles(project, other)
    ensures SnapshotOk(project, listable, scope, profile, device) <==>
            SnapshotOk(project, listable, other, profile, device)
  {
    forall path ensures Covers(scope, path) <==> Covers(other, path) {
      SameEntriesSameCoverage(scope, other, path);
      SameEntriesSameCoverage(other, scope, path);
    }
    SameCoverageSameFiles(project, scope, other);
    assert forall i :: 0 <= i < |scope| ==> scope[i] in scope;
    assert forall i :: 0 <= i < |other| ==> other[i] in other;
  }

  lemma SameEntriesSameCoverage(scope: seq<ScopeEntry>, other: seq<ScopeEntry>, path: Path)
    requires forall entry :: entry in scope ==> entry in other
    ensures Covers(scope, path) ==> Covers(other, path)
  {
    if Covers(scope, path) {
      var i :| 0 <= i < |scope| && EntryCovers(scope[i], path);
      assert scope[i] in scope;
    }
  }

  /**
   Success is not a matter of coverage alone: a whole-project scope that also
   lists a directory as a file covers no other path, and is refused.
   */
  lemma RedundantEntryCanRefuse(profile: Profile)
    ensures var project := [Child("d", Directory(0, true, []))];
            var scope, more := [WholeProject], [File(["d"]), WholeProject];
            && UniqueNames(project) && ValidScope(scope) && ValidScope(more)
            && (forall path :: Covers(scope, path) <==> Covers(more, path))
            && SnapshotOk(project, true, scope, profile, 0)
            && !SnapshotOk(project, true, more, profile, 0)
  {
    var project := [Child("d", Directory(0, true, []))];
    var scope, more := [WholeProject], [File(["d"]), WholeProject];
    assert forall path :: EntryCovers(scope[0], path) && EntryCovers(more[1], path);
    assert ValidateComponent("d").Accepted?;
    assert JoinedLength(["d"]) == 1;
    assert IsRelPath(["d"]);
    assert GoodChild(project[0], [], profile, 0);
    assert project[..0] == [];
    assert GoodBelow(project, [], profile, 0);
    assert GoodEntry(project, true, scope[0], profile, 0);
    assert FilesBelow(project, []) == map[];
    assert scope[..0] == [];
    assert ScopeFiles(project, scope) == map[];
    assert ["d"][..0] == [];
    assert NodeAt(project, ["d"]) == Present(project[0].node);
    assert !GoodEntry(project, true, more[0], profile, 0);
  }

  // ------------------------------------------------------------------
  // Overlapping entries
  // ------------------------------------------------------------------

  /** The walk of one entry from a directory at `prefix` is accepted. */
  predicate Walks(children: seq<Child>, prefix: Path, path: Path, tree: bool, profile: Profile, device: nat)
    requires path != []
  {
    && GoodWay(children, path[..|path| - 1], device)
    && (NodeAt(children, path).Present? ==>
          GoodTarget(NodeAt(children, path).node, prefix + path, tree, profile, device))
  }

  /** Something on the way is no directory, or what is named as a file is one. */
  predicate WrongKind(children: seq<Child>, path: Path, tree: bool)
    requires path != []
    decreases |path|
  {
    match Lookup(children, path[0])
    case Missing => false
    case Present(Directory(_, _, inner)) => if |path| == 1 then !tree else WrongKind(inner, path[1..], tree)
    case Present(_) => |path| > 1
  }

  lemma WalksStep(children: seq<Child>, prefix: Path, path: Path, tree: bool, profile: Profile, device: nat)
    requires |path| > 1
    ensures Walks(children, prefix, path, tree, profile, device) <==>
            match Lookup(children, path[0])
            case Missing => true
            case Present(Directory(dev, _, inner)) =>
              dev == device && Walks(inner, prefix + [path[0]], path[1..], tree, profile, device)
            case Present(_) => false
  {
    hide GoodTarget;
    var parents := path[..|path| - 1];
    assert parents[1..] == path[1..][..|path[1..]| - 1];
    assert prefix + path == prefix + [path[0]] + path[1..];
  }

  lemma WalksOne(children: seq<Child>, prefix: Path, path: Path, tree: bool, profile: Profile, device: nat)
    requires |path| == 1
    ensures Walks(children, prefix, path, tree, profile, device) <==>
            (Lookup(children, path[0]).Present? ==>
               GoodTarget(Lookup(children, path[0]).node, prefix + path, tree, profile, device))
  {
    hide GoodTarget;
    assert path[..0] == [];
  }

  lemma {:induction false} GoodBelowEach(children: seq<Child>, prefix: Path, child: Child, profile: Profile, device: nat)
    requires GoodBelow(children, prefix, profile, device) && child in children
    ensures GoodChild(child, prefix, profile, device)
  {
    if child != children[|children| - 1] {
      GoodBelowEach(children[..|children| - 1], prefix, child, profile, device);
    }
  }

  /** Inside an accepted directory only the kinds can be wrong. */
  lemma {:induction false} GoodBelowWalks(children: seq<Child>, prefix: Path, path: Path, tree: bool,
                                          profile: Profile, device: nat)
    requires GoodBelow(children, prefix, profile, device) && path != [] && NoGit(path)
    ensures Walks(children, prefix, path, tree, profile, device) <==> !WrongKind(children, path, tree)
    decreases |path|
  {
    LookupIn(children, path[0]);
    var found := Lookup(children, path[0]);
    if found.Present? {
      GoodBelowEach(children, prefix, Child(path[0], found.node), profile, device);
    }
    if |path| == 1 {
      WalksOne(children, prefix, path, tree, profile, device);
      assert path == [path[0]];
    } else {
      WalksStep(children, prefix, path, tree, profile, device);
      if found.Present? && found.node.Directory? {
        GoodBelowWalks(found.node.children, prefix + [path[0]], path[1..], tree, profile, device);
      }
    }
  }

  /** Beneath an accepted tree entry only the kinds can be wrong. */
  lemma {:induction false} TreeWalks(children: seq<Child>, prefix: Path, top: Path, rest: Path, tree: bool,
                                     profile: Profile, device: nat)
    requires top != [] && NoGit(top + rest) && Walks(children, prefix, top, true, profile, device)
    ensures Walks(children, prefix, top + rest, tree, profile, device) <==> !WrongKind(children, top + rest, tree)
    decreases |top|
  {
    var path, found := top + rest, Lookup(children, top[0]);
    if |top| == 1 {
      TreeTopWalks(children, prefix, top, rest, tree, profile, device);
    } else {
      WalksStep(children, prefix, top, true, profile, device);
      WalksStep(children, prefix, path, tree, profile, device);
      if found.Present? && found.node.Directory? {
        assert path[1..] == top[1..] + rest;
        TreeWalks(found.node.children, prefix + [top[0]], top[1..], rest, tree, profile, device);
      }
    }
  }

  lemma TreeTopWalks(children: seq<Child>, prefix: Path, top: Path, rest: Path, tree: bool, profile: Profile, device: nat)
    requires |top| == 1 && NoGit(top + rest) && Walks(children, prefix, top, true, profile, device)
    ensures Walks(children, prefix, top + rest, tree, profile, device) <==> !WrongKind(children, top + rest, tree)
  {
    var path, found := top + rest, Lookup(children, top[0]);
    WalksOne(children, prefix, top, true, profile, device);
    if rest == [] {
      assert path == top;
      WalksOne(children, prefix, path, tree, profile, device);
    } else {
      WalksStep(children, prefix, path, tree, profile, device);
      assert path[1..] == rest && prefix + top == prefix + [path[0]];
      if found.Present? && found.node.Directory? {
        GoodBelowWalks(found.node.children, prefix + [path[0]], rest, tree, profile, device);
      }
    }
  }

  lemma {:induction false} WalksRightKind(children: seq<Child>, prefix: Path, path: Path, tree: bool,
                                          profile: Profile, device: nat)
    requires path != [] && Walks(children, prefix, path, tree, profile, device)
    ensures !WrongKind(children, path, tree)
    decreases |path|
  {
    if |path| == 1 {
      WalksOne(children, prefix, path, tree, profile, device);
    } else {
      WalksStep(children, prefix, path, tree, profile, device);
      var found := Lookup(children, path[0]);
      if found.Present? && found.node.Directory? {
        WalksRightKind(found.node.children, prefix + [path[0]], path[1..], tree, profile, device);
      }
    }
  }

  /** An entry that lies within another covers nothing more. */
  predicate Within(entry: ScopeEntry, container: ScopeEntry) {
    || entry == container
    || (!entry.WholeProject? && (container.WholeProject? || (container.Tree? && container.path <= entry.path)))
  }

  predicate NamesWrongKind(project: seq<Child>, entry: ScopeEntry)
    requires ValidEntry(entry)
  {
    !entry.WholeProject? && WrongKind(project, entry.path, entry.Tree?)
  }

  lemma WithinIsGood(project: seq<Child>, listable: bool, entry: ScopeEntry, container: ScopeEntry, profile: Profile,
                     device: nat)
    requires ValidEntry(entry) && ValidEntry(container) && Within(entry, container)
    requires GoodEntry(project, listable, container, profile, device)
    ensures GoodEntry(project, listable, entry, profile, device) <==> !NamesWrongKind(project, entry)
  {
    hide GoodEntry, Walks, WrongKind, IsRelPath, NoGit, GoodBelow;
    if !entry.WholeProject? {
      EntryWalks(project, listable, entry, profile, device);
      if entry == container {
        WalksRightKind(project, [], entry.path, entry.Tree?, profile, device);
      } else if container.WholeProject? {
        WholeIsGood(project, listable, container, profile, device);
        GoodBelowWalks(project, [], entry.path, entry.Tree?, profile, device);
      } else {
        EntryWalks(project, listable, container, profile, device);
        var rest := entry.path[|container.path|..];
        assert entry.path == container.path + rest;
        TreeWalks(project, [], container.path, rest, entry.Tree?, profile, device);
      }
    }
  }

  lemma EntryWalks(project: seq<Child>, listable: bool, entry: ScopeEntry, profile: Profile, device: nat)
    requires ValidEntry(entry) && !entry.WholeProject?
    ensures entry.path != [] && NoGit(entry.path)
    ensures GoodEntry(project, listable, entry, profile, device) <==>
            Walks(project, [], entry.path, entry.Tree?, profile, device)
  {
    hide GoodWay, GoodTarget;
    assert [] + entry.path == entry.path;
  }

  lemma WholeIsGood(project: seq<Child>, listable: bool, entry: ScopeEntry, profile: Profile, device: nat)
    requires entry.WholeProject? && GoodEntry(project, listable, entry, profile, device)
    ensures GoodBelow(project, [], profile, device)
  {
  }

  /**
   Adding an entry that lies within another changes no file, and turns a snapshot
   that succeeds into a refused one exactly when it names the wrong kind of node.
   */
  lemma OverlapExactly(project: seq<Child>, listable: bool, scope: seq<ScopeEntry>, i: nat, extra: ScopeEntry,
                       profile: Profile, device: nat)
    requires UniqueNames(project) && ValidScope(scope) && ValidEntry(extra) && i < |scope| && Within(extra, scope[i])
    requires SnapshotOk(project, listable, scope, profile, device)
    ensures ScopeFiles(project, scope + [extra]) == ScopeFiles(project, scope)
    ensures SnapshotOk(project, listable, scope + [extra], profile, device) <==> !NamesWrongKind(project, extra)
  {
    hide GoodEntry, UniqueNames, Fits, NamesWrongKind;
    var more := scope + [extra];
    WithinIsGood(project, listable, extra, scope[i], profile, device);
    forall path ensures Covers(more, path) <==> Covers(scope, path) {
      ExtraCoversNothing(scope, i, extra, path);
    }
    SameCoverageSameFiles(project, more, scope);
    hide ScopeFiles;
    assert forall j :: 0 <= j < |scope| ==> more[j] == scope[j];
    assert more[|scope|] == extra;
  }

  lemma ExtraCoversNothing(scope: seq<ScopeEntry>, i: nat, extra: ScopeEntry, path: Path)
    requires i < |scope| && Within(extra, scope[i])
    ensures Covers(scope + [extra], path) <==> Covers(scope, path)
  {
    var more := scope + [extra];
    if Covers(scope, path) {
      var j :| 0 <= j < |scope| && EntryCovers(scope[j], path);
      assert EntryCovers(more[j], path);
    }
    if Covers(more, path) {
      var j :| 0 <= j < |more| && EntryCovers(more[j], path);
      assert EntryCovers(scope[if j < |scope| then j else i], path);
    }
  }

  // ------------------------------------------------------------------
  // Caps
  // ------------------------------------------------------------------

  lemma {:induction false} TotalWithout(files: map<Path, Bytes>, path: Path)
    requires path in files
    ensures TotalBytes(files) == |files[path]| + TotalBytes(files - {path})
    decreases |files|
  {
    var chosen: Path :| chosen in files && TotalBytes(files) == |files[chosen]| + TotalBytes(files - {chosen});
    if chosen != path {
      var rest := files - {chosen};
      assert |rest| < |files| by {
        assert rest.Keys == files.Keys - {chosen};
      }
      TotalWithout(rest, path);
      assert (files - {path}) - {chosen} == rest - {path};
      assert |files - {path}| < |files| by {
        assert (files - {path}).Keys == files.Keys - {path};
      }
      TotalWithout(files - {path}, chosen);
    }
  }

  lemma TotalWith(files: map<Path, Bytes>, path: Path, content: Bytes)
    requires path !in files
    ensures TotalBytes(files[path := content]) == TotalBytes(files) + |content|
    ensures |files[path := content]| == |files| + 1
  {
    var more := files[path := content];
    TotalWithout(more, path);
    assert more - {path} == files;
    assert more.Keys == files.Keys + {path};
  }

  /** Fewer files fit when more do. */
  lemma {:induction false} FitsSubset(some: map<Path, Bytes>, all: map<Path, Bytes>, profile: Profile)
    requires forall path :: path in some ==> path in all && all[path] == some[path]
    ensures |some| <= |all| && TotalBytes(some) <= TotalBytes(all)
    ensures Fits(all, profile) ==> Fits(some, profile)
    decreases |some|
  {
    if some != map[] {
      var path :| path in some;
      assert (some - {path}).Keys == some.Keys - {path};
      assert (all - {path}).Keys == all.Keys - {path};
      FitsSubset(some - {path}, all - {path}, profile);
      TotalWithout(some, path);
      TotalWithout(all, path);
    }
  }

  // ------------------------------------------------------------------
  // The copy
  // ------------------------------------------------------------------

  datatype Rejection =
    | SymlinkEntry | SpecialFile | HardLink | OtherDevice | InvalidName | NotADirectory
    | LeftoverTemporary | FileTooLarge | FileCountCap | TotalBytesCap | Io

  datatype CopyResult =
    | Copied
    | Rejected(why: Rejection, path: Path)
    | IoFailed
    | Redirected

  /** `content` may be staged at `path`: it is an acceptable file of the project. */
  ghost predicate MayStage(project: seq<Child>, device: nat, profile: Profile, path: Path, content: Bytes) {
    IsFile(project, path, content) && GoodFile(NodeAt(project, path).node, path, profile, device)
  }

  /** Staging mirrors the project, and the manifest and the counter describe staging. */
  ghost predicate Consistent(project: seq<Child>, device: nat, profile: Profile,
                             manifest: map<Path, ManifestEntry>, bytes: nat, files: map<Path, Bytes>)
  {
    && manifest.Keys == files.Keys
    && (forall path :: path in files ==> manifest[path] == EntryOf(files[path]))
    && (forall path :: path in files ==> MayStage(project, device, profile, path, files[path]))
    && bytes == TotalBytes(files)
    && Fits(files, profile)
  }

  lemma AlreadyStaged(project: seq<Child>, device: nat, profile: Profile,
                      manifest: map<Path, ManifestEntry>, bytes: nat, files: map<Path, Bytes>, node: Node, path: Path)
    requires Consistent(project, device, profile, manifest, bytes, files)
    requires path != [] && node.Regular? && NodeAt(project, path) == Present(node) && path in manifest
    ensures GoodFile(node, path, profile, device) && files[path := node.content] == files
  {
    assert MayStage(project, device, profile, path, files[path]);
  }

  /** Staging one more file: the counter and the caps describe the files exactly. */
  lemma StagedOneMore(project: seq<Child>, device: nat, profile: Profile,
                      manifest: map<Path, ManifestEntry>, bytes: nat, files: map<Path, Bytes>, node: Node, path: Path)
    requires Consistent(project, device, profile, manifest, bytes, files)
    requires path != [] && node.Regular? && NodeAt(project, path) == Present(node) && path !in manifest
    ensures var more := files[path := node.content];
            && (Fits(more, profile) <==>
                |manifest| + 1 <= profile.maxFiles && bytes + |node.content| <= profile.maxTotalBytes)
            && (Fits(more, profile) && GoodFile(node, path, profile, device) ==>
                Consistent(project, device, profile, manifest[path := EntryOf(node.content)],
                           bytes + |node.content|, more))
  {
    hide TotalBytes, NodeAt, GoodFile;
    TotalWith(files, path, node.content);
    assert |manifest.Keys| == |files.Keys|;
    assert |manifest| == |files|;
  }

  /** A staged file is not where the project has a directory. */
  lemma StagedIsNoDirectory(project: seq<Child>, device: nat, profile: Profile,
                            manifest: map<Path, ManifestEntry>, bytes: nat, files: map<Path, Bytes>, dir: Path)
    requires Consistent(project, device, profile, manifest, bytes, files)
    requires dir == [] || (NodeAt(project, dir).Present? && NodeAt(project, dir).node.Directory?)
    ensures dir !in files
  {
  }

  lemma ConsistentFiles(project: seq<Child>, device: nat, profile: Profile,
                        manifest: map<Path, ManifestEntry>, bytes: nat, files: map<Path, Bytes>)
    requires Consistent(project, device, profile, manifest, bytes, files)
    ensures OfProject(project, files) && Fits(files, profile)
    ensures manifest.Keys == files.Keys && bytes == TotalBytes(files)
    ensures forall path :: path in files ==> manifest[path] == EntryOf(files[path])
    ensures forall path :: path in files ==> IsRelPath(path) && |files[path]| <= profile.maxFileBytes
  {
    forall path | path in files ensures IsRelPath(path) && |files[path]| <= profile.maxFileBytes {
      assert MayStage(project, device, profile, path, files[path]);
    }
  }

  /**
   One snapshot copy.  `project` is the tree being read (it does not change
   during the copy), and any read or write of either tree may fail: `faulted`
   says whether one did.
   */
  class SnapshotCopy {
    const project: seq<Child>
    const listable: bool
    const device: nat
    const profile: Profile
    var manifest: map<Path, ManifestEntry>
    var bytes: nat
    var staging: StagingTree
    ghost var faulted: bool

    ghost predicate Valid()
      reads this
    {
      Consistent(project, device, profile, manifest, bytes, staging.files) && NormalDirs(staging.dirs)
    }

    constructor (project: seq<Child>, listable: bool, device: nat, profile: Profile)
      requires UniqueNames(project)
      ensures Valid() && staging == StagingTree({}, map[]) && !faulted
      ensures this.project == project && this.listable == listable
      ensures this.device == device && this.profile == profile
    {
      this.project, this.listable, this.device, this.profile := project, listable, device, profile;
      manifest, bytes, staging, faulted := map[], 0, StagingTree({}, map[]), false;
    }

    /** Whether the next read or write fails. */
    method Fault() returns (fault: bool)
      modifies this`faulted
      ensures faulted == (old(faulted) || fault)
    {
      fault := *;
      faulted := faulted || fault;
    }

    /** Open a staging subdirectory, creating it if missing. */
    method EnsureDir(dir: Path) returns (r: CopyResult)
      requires Valid() && Normal(dir)
      modifies this`staging, this`faulted
      ensures Valid()
      ensures old(faulted) ==> faulted
      ensures r.Copied? ==> staging == old(staging).(dirs := old(staging).dirs + {dir})
      ensures !r.Copied? ==> staging == old(staging)
      ensures r.Redirected? ==> dir in staging.files
      ensures r.IoFailed? ==> faulted
      ensures !r.Rejected?
    {
      hide Normal, Consistent;
      var fault := Fault();
      if fault {
        return IoFailed;
      }
      if dir in staging.files {
        return Redirected;
      }
      staging := staging.(dirs := staging.dirs + {dir});
      return Copied;
    }

    /** Why a regular file could not be read. */
    function ClassifyUnreadable(node: Node): Rejection {
      match node
      case Regular(_, links, dev) =>
        if links != 1 then HardLink else if dev != device then OtherDevice else Io
      case Symlink => SymlinkEntry
      case Special => SpecialFile
      case Directory(_, _, _) => Io
    }

    method CopyFile(node: Node, path: Path) returns (r: CopyResult)
      requires Valid() && path != [] && node.Regular? && NodeAt(project, path) == Present(node)
      modifies this`manifest, this`bytes, this`staging, this`faulted
      ensures old(faulted) ==> faulted
      ensures r.Copied? ==> Valid() && GoodFile(node, path, profile, device)
      ensures r.Copied? ==> staging == old(staging).(files := old(staging).files[path := node.content])
      ensures !r.Copied? && !faulted ==>
                !GoodFile(node, path, profile, device) || !Fits(old(staging).files[path := node.content], profile)
      ensures !r.Redirected?
    {
      hide Consistent, Fits, NodeAt, IsRelPath;
      if !IsRelPath(path) {
        return Rejected(InvalidName, path);
      }
      if path in manifest {
        AlreadyStaged(project, device, profile, manifest, bytes, staging.files, node, path);
        return Copied;
      }
      var unreadable := Fault();
      if unreadable || node.links != 1 || node.device != device {
        return Rejected(ClassifyUnreadable(node), path);
      }
      if |node.content| > profile.maxFileBytes {
        return Rejected(FileTooLarge, path);
      }
      unreadable := Fault();
      if unreadable {
        return Rejected(ClassifyUnreadable(node), path);
      }
      StagedOneMore(project, device, profile, manifest, bytes, staging.files, node, path);
      bytes := bytes + |node.content|;
      if |manifest| + 1 > profile.maxFiles {
        return Rejected(FileCountCap, path);
      }
      if bytes > profile.maxTotalBytes {
        return Rejected(TotalBytesCap, path);
      }
      var fault := Fault();
      if fault {
        return IoFailed;
      }
      staging := staging.(files := staging.files[path := node.content]);
      manifest := manifest[path := EntryOf(node.content)];
      return Copied;
    }

    /** Stage a whole directory, skipping Git metadata. */
    method CopyDir(children: seq<Child>, listable: bool, prefix: Path) returns (r: CopyResult)
      requires Valid() && UniqueNames(project) && EntriesAt(project, prefix) == Entries(children) && Normal(prefix)
      modifies this`manifest, this`bytes, this`staging, this`faulted
      ensures old(faulted) ==> faulted
      ensures r.Copied? ==> Valid() && listable && GoodBelow(children, prefix, profile, device)
      ensures r.Copied? ==> staging.files == old(staging).files + FilesBelow(children, prefix)
      ensures !r.Copied? && !faulted ==>
                || !listable || !GoodBelow(children, prefix, profile, device)
                || !Fits(old(staging).files + FilesBelow(children, prefix), profile)
      ensures !r.Redirected?
      decreases children
    {
      hide Fits, Consistent, UniqueNames, EntriesAt, GoodChild, FilesOfChild, NoGit, OfProject, GoodBelow, FilesBelow,
           Normal, NormalDirs, IsRelPath;
      NormalHasNoGit(prefix);
      ConsistentFiles(project, device, profile, manifest, bytes, staging.files);
      EmptyPrefix(children, prefix, profile, device);
      var unlistable := Fault();
      if unlistable || !listable {
        return Rejected(InvalidName, prefix);
      }
      var i := 0;
      while i < |children|
        invariant 0 <= i <= |children| && Valid()
        invariant old(faulted) ==> faulted
        invariant GoodBelow(children[..i], prefix, profile, device)
        invariant staging.files == old(staging).files + FilesBelow(children[..i], prefix)
      {
        r := CopyChild(children, i, prefix);
        NextPrefix(children, i, prefix, profile, device);
        UnionAssociates(old(staging).files, FilesBelow(children[..i], prefix), FilesOfChild(children[i], prefix));
        if !r.Copied? {
          PrefixFits(project, children, i + 1, prefix, old(staging).files, profile);
          return;
        }
        i := i + 1;
      }
      assert children[..i] == children;
      var unsynced := Fault();
      if unsynced {
        return IoFailed;
      }
      return Copied;
    }

    /** One entry of a directory being staged. */
    method CopyChild(children: seq<Child>, i: nat, prefix: Path) returns (r: CopyResult)
      requires Valid() && UniqueNames(project) && EntriesAt(project, prefix) == Entries(children)
      requires Normal(prefix) && i < |children|
      modifies this`manifest, this`bytes, this`staging, this`faulted
      ensures old(faulted) ==> faulted
      ensures r.Copied? ==> Valid() && GoodChild(children[i], prefix, profile, device)
      ensures r.Copied? ==> staging.files == old(staging).files + FilesOfChild(children[i], prefix)
      ensures !r.Copied? && !faulted ==>
                || !GoodChild(children[i], prefix, profile, device)
                || !Fits(old(staging).files + FilesOfChild(children[i], prefix), profile)
      ensures !r.Redirected?
      decreases children, 0
    {
      hide Fits, Consistent, UniqueNames, EntriesAt, NodeAt, FilesBelow, GoodBelow, IsGitMetadata, GoodFile;
      var name, node := children[i].name, children[i].node;
      if IsGitMetadata(name) {
        return Copied;
      }
      var here := prefix + [name];
      match ValidateComponent(name) {
        case Accepted =>
        case Refused(Reserved) => return Rejected(LeftoverTemporary, here);
        case Refused(_) => return Rejected(InvalidName, here);
      }
      ChildNode(project, prefix, children, i);
      var fault := Fault();
      if fault {
        return IoFailed;
      }
      match node {
        case Directory(dev, innerListable, inner) =>
          fault := Fault();
          if fault || dev != device {
            return Rejected(OtherDevice, here);
          }
          StagedIsNoDirectory(project, device, profile, manifest, bytes, staging.files, here);
          r := EnsureDir(here);
          if !r.Copied? {
            return;
          }
          r := CopyDir(inner, innerListable, here);
        case Regular(content, _, _) =>
          assert staging.files[here := content] == staging.files + map[here := content];
          r := CopyFile(node, here);
        case Symlink => return Rejected(SymlinkEntry, here);
        case Special => return Rejected(SpecialFile, here);
      }
    }

    /** Stage one scope entry (a file or a subtree) at `path`. */
    method CopyEntry(path: Path, tree: bool) returns (r: CopyResult)
      requires Valid() && UniqueNames(project) && IsRelPath(path)
      modifies this`manifest, this`bytes, this`staging, this`faulted
      ensures old(faulted) ==> faulted
      ensures var entry := if tree then Tree(path) else File(path);
              && (r.Copied? ==> Valid() && GoodEntry(project, listable, entry, profile, device))
              && (r.Copied? ==> staging.files == old(staging).files + EntryFiles(project, entry))
              && (!r.Copied? && !faulted ==>
                    || !GoodEntry(project, listable, entry, profile, device)
                    || !Fits(old(staging).files + EntryFiles(project, entry), profile))
      ensures !r.Redirected?
    {
      hide Fits, Consistent, UniqueNames, FilesBelow, GoodTarget, ValidateComponent, JoinedLength, EntriesAt, NodeAt,
           GoodWay, Lookup;
      var parents := path[..|path| - 1];
      var children := project;
      var k := 0;
      WayStarts(project, parents, device);
      while k < |parents|
        invariant 0 <= k <= |parents| && Valid()
        invariant old(faulted) ==> faulted
        invariant EntriesAt(project, parents[..k]) == Entries(children)
        invariant GoodWay(project, parents, device) <==> GoodWay(children, parents[k..], device)
        invariant staging.files == old(staging).files
      {
        var part, walked := parents[k], parents[..k + 1];
        WayStep(project, path, k, children, device);
        var fault := Fault();
        if fault {
          return IoFailed;
        }
        match Lookup(children, part) {
          case Missing => return Copied;
          case Present(Symlink) => return Rejected(SymlinkEntry, walked);
          case Present(Directory(dev, _, inner)) =>
            fault := Fault();
            if fault || dev != device {
              return Rejected(OtherDevice, walked);
            }
            StagedIsNoDirectory(project, device, profile, manifest, bytes, staging.files, walked);
            r := EnsureDir(walked);
            if !r.Copied? {
              return;
            }
            children := inner;
          case Present(_) => return Rejected(NotADirectory, walked);
        }
        k := k + 1;
      }
      assert parents[..k] == parents;
      WayEnds(children, parents[k..], device);
      r := CopyTarget(path, children, tree);
    }

    /** The last component of a scope entry. */
    method CopyTarget(path: Path, children: seq<Child>, tree: bool) returns (r: CopyResult)
      requires Valid() && UniqueNames(project) && IsRelPath(path)
               && EntriesAt(project, path[..|path| - 1]) == Entries(children)
      modifies this`manifest, this`bytes, this`staging, this`faulted
      ensures old(faulted) ==> faulted
      ensures var entry := if tree then Tree(path) else File(path);
              var found := NodeAt(project, path);
              var good := found.Present? ==> GoodTarget(found.node, path, tree, profile, device);
              && (r.Copied? ==> Valid() && good)
              && (r.Copied? ==> staging.files == old(staging).files + EntryFiles(project, entry))
              && (!r.Copied? && !faulted ==> !good || !Fits(old(staging).files + EntryFiles(project, entry), profile))
      ensures !r.Redirected?
    {
      hide Fits, Consistent, UniqueNames, FilesBelow, GoodBelow, GoodFile, EntriesAt, NodeAt, ValidateComponent,
           JoinedLength, NoGit;
      var name := path[|path| - 1];
      TargetNode(project, path, children);
      var fault := Fault();
      if fault {
        return IoFailed;
      }
      match Lookup(children, name) {
        case Missing => return Copied;
        case Present(Symlink) => return Rejected(SymlinkEntry, path);
        case Present(Special) => return Rejected(SpecialFile, path);
        case Present(Regular(content, links, dev)) =>
          assert staging.files[path := content] == staging.files + map[path := content];
          r := CopyFile(Regular(content, links, dev), path);
        case Present(Directory(dev, innerListable, inner)) =>
          if !tree {
            return Rejected(NotADirectory, path);
          }
          fault := Fault();
          if fault || dev != device {
            return Rejected(OtherDevice, path);
          }
          StagedIsNoDirectory(project, device, profile, manifest, bytes, staging.files, path);
          r := EnsureDir(path);
          if !r.Copied? {
            return;
          }
          r := CopyDir(inner, innerListable, path);
      }
    }
  }

  lemma UnionAssociates(a: map<Path, Bytes>, b: map<Path, Bytes>, c: map<Path, Bytes>)
    ensures (a + b) + c == a + (b + c)
  {
  }

  /** The node a scope entry names, read from its parent directory. */
  lemma TargetNode(project: seq<Child>, path: Path, children: seq<Child>)
    requires IsRelPath(path) && EntriesAt(project, path[..|path| - 1]) == Entries(children)
    ensures NodeAt(project, path) == Lookup(children, path[|path| - 1])
    ensures NodeAt(project, path).Present? && NodeAt(project, path).node.Directory? ==>
              EntriesAt(project, path) == Entries(NodeAt(project, path).node.children)
    ensures NoGit(path)
  {
    var parent, name := path[..|path| - 1], path[|path| - 1];
    EntriesAtSnoc(project, parent, name);
    assert parent + [name] == path;
  }

  lemma WayStarts(project: seq<Child>, way: Path, device: nat)
    ensures EntriesAt(project, way[..0]) == Entries(project) && way[0..] == way
  {
  }

  lemma WayEnds(children: seq<Child>, way: Path, device: nat)
    requires way == []
    ensures GoodWay(children, way, device)
  {
  }

  /** One step along the parents of a scope entry's path. */
  lemma WayStep(project: seq<Child>, path: Path, k: nat, children: seq<Child>, device: nat)
    requires k < |path| - 1 && EntriesAt(project, path[..|path| - 1][..k]) == Entries(children)
    ensures var parents := path[..|path| - 1];
            var walked := parents[..k + 1];
            match Lookup(children, parents[k])
            case Missing => NodeAt(project, path).Missing? && GoodWay(children, parents[k..], device)
            case Present(Directory(dev, _, inner)) =>
              && EntriesAt(project, walked) == Entries(inner)
              && NodeAt(project, walked) == Lookup(children, parents[k])
              && (GoodWay(children, parents[k..], device) <==> dev == device && GoodWay(inner, parents[k + 1..], device))
            case Present(_) => !GoodWay(children, parents[k..], device)
  {
    var parents := path[..|path| - 1];
    var part, walked := parents[k], parents[..k + 1];
    EntriesAtSnoc(project, parents[..k], part);
    assert parents[..k] + [part] == walked && walked[..|walked| - 1] == parents[..k];
    assert parents[k..][0] == part && parents[k..][1..] == parents[k + 1..];
    if Lookup(children, part).Missing? {
      NoDirectoryBelow(project, walked, parents);
    }
  }

  lemma EmptyPrefix(children: seq<Child>, prefix: Path, profile: Profile, device: nat)
    ensures GoodBelow(children[..0], prefix, profile, device)
    ensures FilesBelow(children[..0], prefix) == map[]
  {
  }

  lemma NextPrefix(children: seq<Child>, i: nat, prefix: Path, profile: Profile, device: nat)
    requires i < |children|
    ensures GoodBelow(children[..i + 1], prefix, profile, device) <==>
            GoodBelow(children[..i], prefix, profile, device) && GoodChild(children[i], prefix, profile, device)
    ensures FilesBelow(children[..i + 1], prefix) ==
            FilesBelow(children[..i], prefix) + FilesOfChild(children[i], prefix)
    ensures GoodBelow(children, prefix, profile, device) ==> GoodChild(children[i], prefix, profile, device)
  {
    assert children[..i + 1][..i] == children[..i];
    if GoodBelow(children, prefix, profile, device) {
      GoodPrefix(children, i + 1, prefix, profile, device);
    }
  }

  lemma {:induction false} GoodPrefix(children: seq<Child>, k: nat, prefix: Path, profile: Profile, device: nat)
    requires k <= |children| && GoodBelow(children, prefix, profile, device)
    ensures GoodBelow(children[..k], prefix, profile, device)
  {
    if k == |children| {
      assert children[..k] == children;
    } else {
      var front := children[..|children| - 1];
      GoodPrefix(front, k, prefix, profile, device);
      assert front[..k] == children[..k];
    }
  }

  /** Every file of `files` is the project's. */
  ghost predicate OfProject(project: seq<Child>, files: map<Path, Bytes>) {
    forall path :: path in files ==> IsFile(project, path, files[path])
  }

  /** If all the files of a directory fit beside those staged, so do those of its first entries. */
  lemma PrefixFits(project: seq<Child>, children: seq<Child>, k: nat, prefix: Path,
                   staged: map<Path, Bytes>, profile: Profile)
    requires UniqueNames(project) && EntriesAt(project, prefix) == Entries(children) && NoGit(prefix)
    requires k <= |children| && OfProject(project, staged)
    ensures Fits(staged + FilesBelow(children, prefix), profile) ==>
            Fits(staged + FilesBelow(children[..k], prefix), profile)
  {
    var some, all := staged + FilesBelow(children[..k], prefix), staged + FilesBelow(children, prefix);
    forall path | path in some ensures path in all && all[path] == some[path] {
      FilesBelowExact(project, prefix, children, k, path);
      FilesBelowExact(project, prefix, children, |children|, path);
      assert children[..|children|] == children;
    }
    FitsSubset(some, all, profile);
  }

  /** The same for a scope's first entries. */
  lemma ScopePrefixFits(project: seq<Child>, scope: seq<ScopeEntry>, k: nat, profile: Profile)
    requires UniqueNames(project) && ValidScope(scope) && k <= |scope|
    ensures Fits(ScopeFiles(project, scope), profile) ==> Fits(ScopeFiles(project, scope[..k]), profile)
  {
    var some, all := ScopeFiles(project, scope[..k]), ScopeFiles(project, scope);
    forall path | path in some ensures path in all && all[path] == some[path] {
      ScopeFilesExact(project, scope[..k], path);
      ScopeFilesExact(project, scope, path);
      var i :| 0 <= i < k && EntryCovers(scope[..k][i], path);
      assert EntryCovers(scope[i], path);
    }
    FitsSubset(some, all, profile);
  }

  /**
   Copy the frozen read scope.  Success leaves, in the manifest and in staging,
   exactly the non-Git regular files of the project that the scope covers, with
   their bytes, under every cap; and unless a read or write failed, the copy
   succeeds exactly when `SnapshotOk`.
   */
  method CopyReadScope(project: seq<Child>, listable: bool, device: nat, scope: seq<ScopeEntry>, profile: Profile)
    returns (r: CopyResult, manifest: map<Path, ManifestEntry>, staging: StagingTree, bytes: nat,
             ghost faulted: bool)
    requires UniqueNames(project) && ValidScope(scope)
    ensures r.Copied? ==> staging.files == ScopeFiles(project, scope)
    ensures r.Copied? ==> manifest.Keys == staging.files.Keys
    ensures r.Copied? ==> forall path :: path in manifest ==> manifest[path] == EntryOf(staging.files[path])
    ensures r.Copied? ==> bytes == TotalBytes(staging.files)
    ensures r.Copied? ==> NormalDirs(staging.dirs)
    ensures r.Copied? ==>
              forall path :: path in staging.files ==> IsRelPath(path) && |staging.files[path]| <= profile.maxFileBytes
    ensures r.Copied? ==> SnapshotOk(project, listable, scope, profile, device)
    ensures !faulted ==> (r.Copied? <==> SnapshotOk(project, listable, scope, profile, device))
    ensures !r.Redirected?
  {
    hide Fits, Consistent, UniqueNames, FilesBelow, EntriesAt, NodeAt, ScopeFiles, EntryFiles, GoodEntry, ValidEntry;
    var copy := new SnapshotCopy(project, listable, device, profile);
    NoEntries(project, scope);
    for i := 0 to |scope|
      invariant copy.project == project && copy.listable == listable
      invariant copy.device == device && copy.profile == profile
      invariant copy.Valid() && copy.staging.files == ScopeFiles(project, scope[..i])
      invariant forall j :: 0 <= j < i ==> GoodEntry(project, listable, scope[j], profile, device)
    {
      var entry := scope[i];
      EntryOfScope(project, listable, entry, profile, device);
      NextEntry(project, scope, i, profile);
      if entry.WholeProject? {
        r := copy.CopyDir(project, listable, []);
      } else {
        r := copy.CopyEntry(entry.path, entry.Tree?);
      }
      if !r.Copied? {
        manifest, staging, bytes, faulted := copy.manifest, copy.staging, copy.bytes, copy.faulted;
        return;
      }
    }
    assert scope[..|scope|] == scope;
    ConsistentFiles(project, device, profile, copy.manifest, copy.bytes, copy.staging.files);
    r, manifest, staging, bytes, faulted := Copied, copy.manifest, copy.staging, copy.bytes, copy.faulted;
  }

  lemma NoEntries(project: seq<Child>, scope: seq<ScopeEntry>)
    ensures ScopeFiles(project, scope[..0]) == map[]
  {
  }

  lemma EntryOfScope(project: seq<Child>, listable: bool, entry: ScopeEntry, profile: Profile, device: nat)
    requires ValidEntry(entry)
    ensures entry.WholeProject? ==>
              && EntriesAt(project, []) == Entries(project)
              && EntryFiles(project, entry) == FilesBelow(project, [])
              && (GoodEntry(project, listable, entry, profile, device) <==>
                  listable && GoodBelow(project, [], profile, device))
    ensures !entry.WholeProject? ==>
              IsRelPath(entry.path) && entry == (if entry.Tree? then Tree(entry.path) else File(entry.path))
  {
  }

  lemma NextEntry(project: seq<Child>, scope: seq<ScopeEntry>, i: nat, profile: Profile)
    requires UniqueNames(project) && ValidScope(scope) && i < |scope|
    ensures ScopeFiles(project, scope[..i + 1]) == ScopeFiles(project, scope[..i]) + EntryFiles(project, scope[i])
    ensures Fits(ScopeFiles(project, scope), profile) ==> Fits(ScopeFiles(project, scope[..i + 1]), profile)
  {
    assert scope[..i + 1][..i] == scope[..i];
    ScopePrefixFits(project, scope, i + 1, profile);
  }

  /** What a successful copy staged, path by path: exactly what the scope covers. */
  lemma CopiedExactlyTheCoveredFiles(project: seq<Child>, scope: seq<ScopeEntry>, files: map<Path, Bytes>, path: Path)
    requires UniqueNames(project) && ValidScope(scope) && files == ScopeFiles(project, scope)
    ensures path in files <==>
            path != [] && NoGit(path) && Covers(scope, path) && exists content :: IsFile(project, path, content)
    ensures path in files ==> IsFile(project, path, files[path])
  {
    ScopeFilesExact(project, scope, path);
  }
}
