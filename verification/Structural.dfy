/**
 The structural verification of a candidate (kernel/src/coding_run/structural.rs):
 the staging tree is read again and compared with the base manifest under the
 frozen scopes.  Reads can fail and entries can have been redirected; `faulted`
 says whether an answer was such a one.

 `Within` is the policy itself, on the tree; the scan agrees with it.
 */
module Structural {
  import opened Scope
  import opened Snapshot

  datatype Violation =
    | GitMetadataPresent(path: Path) | SymlinkEntry(path: Path) | SpecialEntry(path: Path) | UnscopedName(path: Path)
    | UnreadableEntry(path: Path) | OutsideReadScope(path: Path) | ChangeOutsideWriteScope(path: Path)
    | ProtectedInputChanged(path: Path) | Deleted(path: Path) | NotText(path: Path)
    | FileCountCapExceeded | TotalBytesCapExceeded

  /** Whether the bytes from `i` on are well-formed UTF-8. */
  predicate Utf8From(bytes: Bytes, i: nat)
    requires i <= |bytes|
    decreases |bytes| - i
  {
    i == |bytes| ||
    var b := bytes[i];
    var rest := |bytes| - i;
    if b < 0x80 then Utf8From(bytes, i + 1)
    else if 0xC2 <= b <= 0xDF then rest >= 2 && Tail(bytes[i + 1], 0x80, 0xBF) && Utf8From(bytes, i + 2)
    else if 0xE0 <= b <= 0xEF then
      && rest >= 3
      && Tail(bytes[i + 1], if b == 0xE0 then 0xA0 else 0x80, if b == 0xED then 0x9F else 0xBF)
      && Tail(bytes[i + 2], 0x80, 0xBF) && Utf8From(bytes, i + 3)
    else if 0xF0 <= b <= 0xF4 then
      && rest >= 4
      && Tail(bytes[i + 1], if b == 0xF0 then 0x90 else 0x80, if b == 0xF4 then 0x8F else 0xBF)
      && Tail(bytes[i + 2], 0x80, 0xBF) && Tail(bytes[i + 3], 0x80, 0xBF) && Utf8From(bytes, i + 4)
    else false
  }

  predicate Tail(b: Byte, lo: nat, hi: nat) { lo <= b <= hi }

  /** Edited files are UTF-8 text without NUL bytes. */
  predicate TextOk(content: Bytes) {
    0 !in content && Utf8From(content, 0)
  }

  // ------------------------------------------------------------------
  // The policy
  // ------------------------------------------------------------------

  /** A file that is not, byte for byte, a base file. */
  predicate Differs(base: map<Path, ManifestEntry>, path: Path, entry: ManifestEntry) {
    path !in base || base[path] != entry
  }

  predicate FileWithin(scopes: RunScopes, base: map<Path, ManifestEntry>, path: Path, entry: ManifestEntry) {
    Covers(scopes.read, path) && (Differs(base, path, entry) ==> scopes.Editable(path))
  }

  /** Every name can be used and every file can be read. */
  ghost predicate Readable(tree: StagingTree, profile: Profile) {
    NormalDirs(tree.dirs) && FilesReadable(tree.files, profile)
  }

  ghost predicate FilesReadable(files: map<Path, Bytes>, profile: Profile) {
    forall path :: path in files ==> IsRelPath(path) && |files[path]| <= profile.maxFileBytes
  }

  /** Nothing deleted, nothing outside the read scope, and what changed is editable text. */
  ghost predicate Unspoilt(scopes: RunScopes, base: map<Path, ManifestEntry>, files: map<Path, Bytes>) {
    && base.Keys <= files.Keys
    && (forall path :: path in files ==> FileWithin(scopes, base, path, EntryOf(files[path])))
    && (forall path :: path in files && Differs(base, path, EntryOf(files[path])) ==> TextOk(files[path]))
  }

  /** The structural policy. */
  ghost predicate Within(scopes: RunScopes, profile: Profile, base: map<Path, ManifestEntry>, tree: StagingTree) {
    Readable(tree, profile) && Fits(tree.files, profile) && Unspoilt(scopes, base, tree.files)
  }

  // ------------------------------------------------------------------
  // The scan
  // ------------------------------------------------------------------

  /** How an entry answers: as it is, or as something that cannot be read. */
  method Answer(path: Path) returns (violations: seq<Violation>, fault: bool)
    ensures fault <==> violations != []
  {
    var answer: int := *;
    match answer {
      case 0 => return [UnreadableEntry(path)], true;
      case 1 => return [Violation.SymlinkEntry(path)], true;
      case 2 => return [SpecialEntry(path)], true;
      case _ => return [], false;
    }
  }

  function NameViolations(path: Path): (violations: seq<Violation>)
    ensures violations == [] <==> IsRelPath(path)
  {
    if !NoGit(path) then NormalHasNoGitNeeds(path); [GitMetadataPresent(path)]
    else if !IsRelPath(path) then [UnscopedName(path)]
    else []
  }

  lemma NormalHasNoGitNeeds(path: Path)
    requires !NoGit(path)
    ensures !Normal(path)
  {
    if Normal(path) {
      NormalHasNoGit(path);
    }
  }

  /** Walk the directories of staging: their names and whether they can be read. */
  method WalkDirs(dirs: set<Path>) returns (violations: seq<Violation>, ghost faulted: bool)
    ensures faulted ==> violations != []
    ensures violations == [] ==> NormalDirs(dirs)
    ensures !faulted && NormalDirs(dirs) ==> violations == []
  {
    hide Normal, NoGit;
    violations, faulted := [], false;
    var todo := dirs;
    while todo != {}
      invariant todo <= dirs
      invariant faulted ==> violations != []
      invariant violations == [] ==> NormalDirs(dirs - todo)
      invariant !faulted && NormalDirs(dirs) ==> violations == []
      decreases todo
    {
      var dir :| dir in todo;
      todo := todo - {dir};
      if !Normal(dir) {
        violations := violations + [if NoGit(dir) then UnscopedName(dir) else GitMetadataPresent(dir)];
      } else {
        var more, fault := Answer(dir);
        violations, faulted := violations + more, faulted || fault;
      }
    }
    assert dirs - todo == dirs;
  }

  /** The manifest and the text notes of the files seen. */
  ghost predicate Scanned(files: map<Path, Bytes>, base: map<Path, ManifestEntry>, manifest: map<Path, ManifestEntry>,
                          changedText: seq<(Path, bool)>)
  {
    && manifest.Keys == files.Keys
    && (forall path :: path in files ==> manifest[path] == EntryOf(files[path]))
    && (forall i :: 0 <= i < |changedText| ==> Notes(files, base, changedText[i]))
    && (forall path :: path in files && Differs(base, path, EntryOf(files[path])) ==>
          (path, TextOk(files[path])) in changedText)
  }

  ghost predicate Notes(files: map<Path, Bytes>, base: map<Path, ManifestEntry>, note: (Path, bool)) {
    && note.0 in files && Differs(base, note.0, EntryOf(files[note.0])) && note.1 == TextOk(files[note.0])
  }

  lemma ScannedOneMore(files: map<Path, Bytes>, base: map<Path, ManifestEntry>, manifest: map<Path, ManifestEntry>,
                       changedText: seq<(Path, bool)>, path: Path, content: Bytes)
    requires Scanned(files, base, manifest, changedText) && path !in files
    ensures Scanned(files[path := content], base, manifest[path := EntryOf(content)],
                    changedText + if Differs(base, path, EntryOf(content)) then [(path, TextOk(content))] else [])
  {
    hide Differs, TextOk;
    var more := changedText + if Differs(base, path, EntryOf(content)) then [(path, TextOk(content))] else [];
    forall i | 0 <= i < |more| ensures Notes(files[path := content], base, more[i]) {
      if i < |changedText| {
        assert Notes(files, base, changedText[i]);
      }
    }
    assert forall note :: note in changedText ==> note in more;
  }

  /** One file of the walk. */
  method ScanFile(path: Path, content: Bytes, profile: Profile) returns (violations: seq<Violation>, ghost fault: bool)
    ensures fault ==> violations != []
    ensures violations == [] ==> IsRelPath(path) && |content| <= profile.maxFileBytes
    ensures !fault && IsRelPath(path) && |content| <= profile.maxFileBytes ==> violations == []
  {
    hide IsRelPath, NoGit;
    fault := false;
    violations := NameViolations(path);
    if violations == [] {
      var more, redirected := Answer(path);
      violations, fault := more, redirected;
      if !redirected && |content| > profile.maxFileBytes {
        violations := [UnreadableEntry(path)];
      }
    }
  }

  /** Where a walk of `files` stands: `seen` are those read, which are all but `todo` if nothing was found. */
  ghost predicate Progress(files: map<Path, Bytes>, profile: Profile, base: map<Path, ManifestEntry>, todo: set<Path>,
                           seen: map<Path, Bytes>, manifest: map<Path, ManifestEntry>, changedText: seq<(Path, bool)>,
                           count: nat, bytes: nat, clean: bool)
  {
    && Scanned(seen, base, manifest, changedText) && count == |seen| && bytes == TotalBytes(seen)
    && (forall path :: path in seen ==> path in files && path !in todo && seen[path] == files[path])
    && (clean ==> (forall path :: path in files && path !in todo ==> path in seen) && FilesReadable(seen, profile))
  }

  lemma SeenOneMore(files: map<Path, Bytes>, profile: Profile, base: map<Path, ManifestEntry>, todo: set<Path>,
                    seen: map<Path, Bytes>, manifest: map<Path, ManifestEntry>, changedText: seq<(Path, bool)>,
                    count: nat, bytes: nat, clean: bool, path: Path)
    requires Progress(files, profile, base, todo, seen, manifest, changedText, count, bytes, clean)
    requires path in todo && path in files && IsRelPath(path) && |files[path]| <= profile.maxFileBytes
    ensures var entry := EntryOf(files[path]);
            Progress(files, profile, base, todo - {path}, seen[path := files[path]], manifest[path := entry],
                     changedText + (if Differs(base, path, entry) then [(path, TextOk(files[path]))] else []),
                     count + 1, bytes + |files[path]|, clean)
  {
    hide Scanned, TotalBytes, IsRelPath, Differs, TextOk;
    ScannedOneMore(seen, base, manifest, changedText, path, files[path]);
    TotalWith(seen, path, files[path]);
  }

  lemma SeenAll(files: map<Path, Bytes>, profile: Profile, base: map<Path, ManifestEntry>,
                seen: map<Path, Bytes>, manifest: map<Path, ManifestEntry>, changedText: seq<(Path, bool)>,
                count: nat, bytes: nat)
    requires Progress(files, profile, base, {}, seen, manifest, changedText, count, bytes, true)
    ensures Scanned(files, base, manifest, changedText) && FilesReadable(files, profile)
    ensures Fits(files, profile) <==> CapViolations(count, bytes, profile) == []
  {
    hide Scanned, TotalBytes, IsRelPath;
    assert seen == files;
  }

  lemma Skipped(files: map<Path, Bytes>, profile: Profile, base: map<Path, ManifestEntry>, todo: set<Path>,
                seen: map<Path, Bytes>, manifest: map<Path, ManifestEntry>, changedText: seq<(Path, bool)>,
                count: nat, bytes: nat, clean: bool, path: Path)
    requires Progress(files, profile, base, todo, seen, manifest, changedText, count, bytes, clean)
    ensures Progress(files, profile, base, todo - {path}, seen, manifest, changedText, count, bytes, false)
  {
  }

  lemma ReadableAt(files: map<Path, Bytes>, profile: Profile, path: Path)
    requires path in files
    ensures FilesReadable(files, profile) ==> IsRelPath(path) && |files[path]| <= profile.maxFileBytes
  {
  }

  function CapViolations(count: nat, bytes: nat, profile: Profile): seq<Violation> {
    (if count > profile.maxFiles then [FileCountCapExceeded] else []) +
    (if bytes > profile.maxTotalBytes then [TotalBytesCapExceeded] else [])
  }

  /** Walk the files of staging, under the caps. */
  method WalkFiles(files: map<Path, Bytes>, profile: Profile, base: map<Path, ManifestEntry>)
    returns (manifest: map<Path, ManifestEntry>, violations: seq<Violation>, changedText: seq<(Path, bool)>,
             ghost faulted: bool)
    ensures faulted ==> violations != []
    ensures violations == [] ==> FilesReadable(files, profile) && Fits(files, profile)
    ensures violations == [] ==> Scanned(files, base, manifest, changedText)
    ensures !faulted && FilesReadable(files, profile) && Fits(files, profile) ==> violations == []
  {
    hide IsRelPath, Differs, TextOk, Scanned, Fits, Progress, FilesReadable, CapViolations, EntryOf;
    manifest, violations, changedText, faulted := map[], [], [], false;
    var todo: set<Path>, count: nat, bytes: nat := files.Keys, 0, 0;
    ghost var seen: map<Path, Bytes> := map[];
    NothingSeen(files, profile, base);
    while todo != {}
      invariant todo <= files.Keys
      invariant Progress(files, profile, base, todo, seen, manifest, changedText, count, bytes, violations == [])
      invariant faulted ==> violations != []
      invariant !faulted && FilesReadable(files, profile) ==> violations == []
      decreases todo
    {
      var path :| path in todo;
      var content, entry := files[path], EntryOf(files[path]);
      var more, fault := ScanFile(path, content, profile);
      ReadableAt(files, profile, path);
      if more == [] {
        SeenOneMore(files, profile, base, todo, seen, manifest, changedText, count, bytes, violations == [], path);
        seen, count, bytes, manifest := seen[path := content], count + 1, bytes + |content|, manifest[path := entry];
        changedText := changedText + if Differs(base, path, entry) then [(path, TextOk(content))] else [];
      } else {
        Skipped(files, profile, base, todo, seen, manifest, changedText, count, bytes, violations == [], path);
        violations, faulted := violations + more, faulted || fault;
      }
      todo := todo - {path};
    }
    if violations == [] {
      SeenAll(files, profile, base, seen, manifest, changedText, count, bytes);
    }
    violations := violations + CapViolations(count, bytes, profile);
  }

  lemma NothingSeen(files: map<Path, Bytes>, profile: Profile, base: map<Path, ManifestEntry>)
    ensures Progress(files, profile, base, files.Keys, map[], map[], [], 0, 0, true)
  {
  }

  // ------------------------------------------------------------------
  // Against the base
  // ------------------------------------------------------------------

  function FileViolations(scopes: RunScopes, base: map<Path, ManifestEntry>, path: Path, entry: ManifestEntry)
    : (violations: seq<Violation>)
    ensures violations == [] <==> FileWithin(scopes, base, path, entry)
  {
    if !Covers(scopes.read, path) then [OutsideReadScope(path)]
    else if !Differs(base, path, entry) then []
    else if Covers(scopes.protected, path) then [ProtectedInputChanged(path)]
    else if !Covers(scopes.write, path) then [ChangeOutsideWriteScope(path)]
    else []
  }

  /** Compare a scanned candidate with the base under the frozen scopes. */
  method CheckAgainstBase(scopes: RunScopes, base: map<Path, ManifestEntry>, candidate: map<Path, ManifestEntry>,
                          changedText: seq<(Path, bool)>)
    returns (violations: seq<Violation>)
    ensures violations == [] <==>
            && (forall path :: path in candidate ==> FileWithin(scopes, base, path, candidate[path]))
            && base.Keys <= candidate.Keys
            && (forall i :: 0 <= i < |changedText| ==> changedText[i].1)
  {
    hide Covers, Differs, FileWithin;
    var changed := ChangedPaths(scopes, base, candidate);
    var deleted := DeletedPaths(scopes, base, candidate);
    violations := changed + deleted;
    for i := 0 to |changedText|
      invariant violations == [] <==>
                changed == [] && deleted == [] && forall j :: 0 <= j < i ==> changedText[j].1
    {
      if !changedText[i].1 {
        violations := violations + [NotText(changedText[i].0)];
      }
    }
  }

  method ChangedPaths(scopes: RunScopes, base: map<Path, ManifestEntry>, candidate: map<Path, ManifestEntry>)
    returns (violations: seq<Violation>)
    ensures violations == [] <==> forall path :: path in candidate ==> FileWithin(scopes, base, path, candidate[path])
  {
    hide FileWithin, Covers;
    violations := [];
    var todo := candidate.Keys;
    while todo != {}
      invariant todo <= candidate.Keys
      invariant violations == [] <==>
                forall path :: path in candidate && path !in todo ==> FileWithin(scopes, base, path, candidate[path])
      decreases todo
    {
      var path :| path in todo;
      todo := todo - {path};
      violations := violations + FileViolations(scopes, base, path, candidate[path]);
    }
  }

  method DeletedPaths(scopes: RunScopes, base: map<Path, ManifestEntry>, candidate: map<Path, ManifestEntry>)
    returns (violations: seq<Violation>)
    ensures violations == [] <==> base.Keys <= candidate.Keys
  {
    hide Covers;
    violations := [];
    var todo := base.Keys;
    while todo != {}
      invariant todo <= base.Keys
      invariant violations == [] <==> base.Keys - todo <= candidate.Keys
      decreases todo
    {
      var path :| path in todo;
      todo := todo - {path};
      if path !in candidate {
        violations := violations + [if Covers(scopes.protected,
                path) then ProtectedInputChanged(path) else Deleted(path)];
      }
    }
  }

  /** A scan that answered for every entry finds nothing exactly when the candidate is within policy. */
  method Scan(scopes: RunScopes, profile: Profile, base: map<Path, ManifestEntry>, tree: StagingTree)
    returns (violations: seq<Violation>, ghost faulted: bool)
    ensures violations == [] ==> Within(scopes, profile, base, tree)
    ensures violations == [] <==> !faulted && Within(scopes, profile, base, tree)
  {
    hide IsRelPath, FileWithin, NormalDirs, Fits;
    var names, unreadable := WalkDirs(tree.dirs);
    var manifest, found, changedText, redirected := WalkFiles(tree.files, profile, base);
    var against := CheckAgainstBase(scopes, base, manifest, changedText);
    violations, faulted := names + found + against, unreadable || redirected;
    if found == [] {
      ScannedText(tree.files, base, manifest, changedText);
    }
  }

  lemma ScannedText(files: map<Path, Bytes>, base: map<Path, ManifestEntry>, manifest: map<Path, ManifestEntry>,
                    changedText: seq<(Path, bool)>)
    requires Scanned(files, base, manifest, changedText)
    ensures manifest.Keys == files.Keys && forall path :: path in files ==> manifest[path] == EntryOf(files[path])
    ensures (forall i :: 0 <= i < |changedText| ==> changedText[i].1) <==>
            (forall path :: path in files && Differs(base, path, EntryOf(files[path])) ==> TextOk(files[path]))
  {
    hide TextOk, Differs;
  }
}
