/**
 The candidate of a coding run as a value: the snapshot it was copied from, the
 edits accepted since, and what staging holds because of them
 (kernel/src/coding_run.rs).
 */
module Candidates {
  import opened Common
  import opened Scope
  import opened Snapshot
  import Structural

  datatype EditRejection =
    | OutsideWriteScope | ProtectedInput | NotText | TooLarge | NotStaged | AlreadyExists | OutsideReadScope

  datatype CandidateEdit = Replace(path: Path, content: Bytes) | Create(path: Path, content: Bytes)

  function PolicyRejection(scopes: RunScopes, profile: Profile, edit: CandidateEdit): Option<EditRejection> {
    if Covers(scopes.protected, edit.path) then Some(ProtectedInput)
    else if !scopes.Editable(edit.path) then Some(OutsideWriteScope)
    else if |edit.content| > profile.maxFileBytes then Some(TooLarge)
    else if !Structural.TextOk(edit.content) then Some(NotText)
    else None
  }

  /** An edit a run may accept. */
  predicate Allowed(scopes: RunScopes, profile: Profile, edit: CandidateEdit) {
    IsRelPath(edit.path) && PolicyRejection(scopes, profile, edit).None?
  }

  lemma AllowedMeans(scopes: RunScopes, profile: Profile, edit: CandidateEdit)
    requires Allowed(scopes, profile, edit)
    ensures IsRelPath(edit.path) && scopes.Editable(edit.path)
    ensures |edit.content| <= profile.maxFileBytes && Structural.TextOk(edit.content)
  {
  }

  // ------------------------------------------------------------------
  // Staging contents
  // ------------------------------------------------------------------

  /** The files of a snapshot after `edits`, in order. */
  function Overlay(files: map<Path, Bytes>, edits: seq<CandidateEdit>): map<Path, Bytes> {
    if edits == [] then files
    else
      var last := edits[|edits| - 1];
      Overlay(files, edits[..|edits| - 1])[last.path := last.content]
  }

  /** A replacement had a file to replace and a creation had none. */
  predicate Legal(files: map<Path, Bytes>, edits: seq<CandidateEdit>) {
    edits == [] ||
    var front, last := edits[..|edits| - 1], edits[|edits| - 1];
    Legal(files, front) && (last.Replace? <==> last.path in Overlay(files, front))
  }

  ghost predicate ManifestOf(manifest: map<Path, ManifestEntry>, files: map<Path, Bytes>) {
    manifest.Keys == files.Keys && forall path :: path in files ==> manifest[path] == EntryOf(files[path])
  }

  /** What the snapshot copy promises of each file. */
  ghost predicate CopiedWithin(scopes: RunScopes, profile: Profile, snapshot: map<Path, Bytes>) {
    forall path :: path in snapshot ==>
      IsRelPath(path) && Covers(scopes.read, path) && |snapshot[path]| <= profile.maxFileBytes
  }

  /** Every base file still exists; one that differs has its base bytes kept for the review. */
  ghost predicate BaseKept(base: map<Path, ManifestEntry>, snapshot: map<Path, Bytes>,
                           files: map<Path, Bytes>, baseContents: map<Path, Bytes>)
  {
    && (forall path :: path in snapshot ==>
          path in files && (files[path] != snapshot[path] ==> path in baseContents))
    && (forall path :: path in baseContents ==> path in base && EntryOf(baseContents[path]) == base[path])
  }

  ghost predicate AllAllowed(scopes: RunScopes, profile: Profile, accepted: seq<CandidateEdit>) {
    forall i :: 0 <= i < |accepted| ==> Allowed(scopes, profile, accepted[i])
  }

  /** What staging holds while a candidate exists. */
  ghost predicate Contents(scopes: RunScopes, profile: Profile, base: Option<map<Path, ManifestEntry>>,
                           snapshot: map<Path, Bytes>, accepted: seq<CandidateEdit>, tree: StagingTree,
                           baseContents: map<Path, Bytes>)
  {
    && base.Some? && ManifestOf(base.value, snapshot) && CopiedWithin(scopes, profile, snapshot)
    && tree.files == Overlay(snapshot, accepted) && NormalDirs(tree.dirs)
    && Legal(snapshot, accepted) && AllAllowed(scopes, profile, accepted)
    && BaseKept(base.value, snapshot, tree.files, baseContents)
  }

  lemma ContentsFacts(scopes: RunScopes, profile: Profile, base: Option<map<Path, ManifestEntry>>,
                      snapshot: map<Path, Bytes>, accepted: seq<CandidateEdit>, tree: StagingTree,
                      baseContents: map<Path, Bytes>)
    requires Contents(scopes, profile, base, snapshot, accepted, tree, baseContents)
    ensures base.Some? && forall path :: path in base.value ==> path in tree.files
  {
  }

  lemma SnapshotContents(scopes: RunScopes, profile: Profile, base: map<Path, ManifestEntry>, tree: StagingTree)
    requires ManifestOf(base, tree.files) && CopiedWithin(scopes, profile, tree.files) && NormalDirs(tree.dirs)
    ensures Contents(scopes, profile, Some(base), tree.files, [], tree, map[])
  {
  }

  lemma CaptureKeepsContents(scopes: RunScopes, profile: Profile, base: Option<map<Path, ManifestEntry>>,
                             snapshot: map<Path, Bytes>, accepted: seq<CandidateEdit>, tree: StagingTree,
                             baseContents: map<Path, Bytes>, path: Path, bytes: Bytes)
    requires Contents(scopes, profile, base, snapshot, accepted, tree, baseContents)
    requires path in base.value && EntryOf(bytes) == base.value[path]
    ensures Contents(scopes, profile, base, snapshot, accepted, tree, baseContents[path := bytes])
  {
    hide Overlay, Legal, AllAllowed, CopiedWithin, NormalDirs;
  }

  /** The directories an edit may have made are on the way to its path. */
  ghost predicate DirsMade(before: set<Path>, after: set<Path>, path: Path) {
    forall dir :: dir in after ==> dir in before || dir <= path
  }

  lemma EditKeepsContents(scopes: RunScopes, profile: Profile, base: Option<map<Path, ManifestEntry>>,
                          snapshot: map<Path, Bytes>, accepted: seq<CandidateEdit>, before: StagingTree,
                          after: StagingTree, baseContents: map<Path, Bytes>, edit: CandidateEdit)
    requires Contents(scopes, profile, base, snapshot, accepted, before, baseContents)
    requires Allowed(scopes, profile, edit) && DirsMade(before.dirs, after.dirs, edit.path)
    requires edit.Replace? <==> edit.path in before.files
    requires edit.path in base.value ==> edit.path in baseContents
    requires after.files == before.files[edit.path := edit.content]
    ensures Contents(scopes, profile, base, snapshot, accepted + [edit], after, baseContents)
  {
    hide Allowed, CopiedWithin, NormalDirs, Normal;
    assert (accepted + [edit])[..|accepted|] == accepted;
    MadeAreNormal(before.dirs, after.dirs, edit.path) by {
      AllowedMeans(scopes, profile, edit);
    }
  }

  lemma MadeAreNormal(before: set<Path>, after: set<Path>, path: Path)
    requires NormalDirs(before) && DirsMade(before, after, path) && IsRelPath(path)
    ensures NormalDirs(after)
  {
    forall dir | dir in after ensures Normal(dir) {
      if dir !in before {
        assert forall i :: 0 <= i < |dir| ==> dir[i] == path[i];
      }
    }
  }

  // ------------------------------------------------------------------
  // What the contents mean
  // ------------------------------------------------------------------

  /** A path no edit may touch is as the snapshot left it. */
  lemma {:induction false} UneditableUnchanged(scopes: RunScopes, snapshot: map<Path, Bytes>,
                                               accepted: seq<CandidateEdit>, path: Path)
    requires forall i :: 0 <= i < |accepted| ==> scopes.Editable(accepted[i].path)
    requires !scopes.Editable(path)
    ensures path in Overlay(snapshot, accepted) <==> path in snapshot
    ensures path in snapshot ==> Overlay(snapshot, accepted)[path] == snapshot[path]
  {
    if accepted != [] {
      UneditableUnchanged(scopes, snapshot, accepted[..|accepted| - 1], path);
    }
  }

  /** The last accepted edit of a path decides its bytes; other paths are untouched. */
  lemma {:induction false} LastEditWins(snapshot: map<Path, Bytes>, accepted: seq<CandidateEdit>, i: nat)
    requires i < |accepted|
    requires forall j :: i < j < |accepted| ==> accepted[j].path != accepted[i].path
    ensures accepted[i].path in Overlay(snapshot, accepted)
    ensures Overlay(snapshot, accepted)[accepted[i].path] == accepted[i].content
  {
    if i < |accepted| - 1 {
      LastEditWins(snapshot, accepted[..|accepted| - 1], i);
    }
  }

  /** Where the bytes of a file come from: the snapshot, or an accepted edit. */
  ghost predicate FromSnapshot(snapshot: map<Path, Bytes>, path: Path, content: Bytes) {
    path in snapshot && snapshot[path] == content
  }

  ghost predicate FromEdit(accepted: seq<CandidateEdit>, path: Path, content: Bytes) {
    exists i :: 0 <= i < |accepted| && accepted[i].path == path && accepted[i].content == content
  }

  lemma {:induction false} FileOrigin(snapshot: map<Path, Bytes>, accepted: seq<CandidateEdit>, path: Path)
    requires path in Overlay(snapshot, accepted)
    ensures var content := Overlay(snapshot, accepted)[path];
            FromSnapshot(snapshot, path, content) || FromEdit(accepted, path, content)
  {
    if accepted != [] {
      var front, last := accepted[..|accepted| - 1], accepted[|accepted| - 1];
      var content := Overlay(snapshot, accepted)[path];
      if last.path == path {
        assert accepted[|accepted| - 1].content == content;
      } else {
        FileOrigin(snapshot, front, path);
        if FromEdit(front, path, content) {
          var i :| 0 <= i < |front| && front[i].path == path && front[i].content == content;
          assert accepted[i] == front[i];
        }
      }
    }
  }

  /** What a review can show: the old bytes of every base file that was changed. */
  lemma ChangedFilesHaveTheirBase(scopes: RunScopes, profile: Profile, base: map<Path, ManifestEntry>,
                                  snapshot: map<Path, Bytes>, accepted: seq<CandidateEdit>, tree: StagingTree,
                                  baseContents: map<Path, Bytes>, path: Path)
    requires Contents(scopes, profile, Some(base), snapshot, accepted, tree, baseContents)
    requires path in base && path in tree.files && EntryOf(tree.files[path]) != base[path]
    ensures path in baseContents && baseContents[path] == snapshot[path]
    ensures scopes.Editable(path)
  {
    FileOrigin(snapshot, accepted, path);
    var i :| 0 <= i < |accepted| && accepted[i].path == path;
    AllowedMeans(scopes, profile, accepted[i]);
  }

  // ------------------------------------------------------------------
  // An honest candidate and the structural policy
  // ------------------------------------------------------------------

  /** A file of a candidate is within the structural policy. */
  lemma FileHonest(scopes: RunScopes, profile: Profile, base: map<Path, ManifestEntry>, snapshot: map<Path, Bytes>,
                   accepted: seq<CandidateEdit>, path: Path)
    requires scopes.Valid() && ManifestOf(base, snapshot) && CopiedWithin(scopes, profile, snapshot)
    requires AllAllowed(scopes, profile, accepted) && path in Overlay(snapshot, accepted)
    ensures var content := Overlay(snapshot, accepted)[path];
            && IsRelPath(path) && |content| <= profile.maxFileBytes
            && Structural.FileWithin(scopes, base, path, EntryOf(content))
            && (Structural.Differs(base, path, EntryOf(content)) ==> Structural.TextOk(content))
  {
    hide Overlay, IsRelPath, Covers, Allowed, Structural.TextOk;
    FileOrigin(snapshot, accepted, path);
    var content := Overlay(snapshot, accepted)[path];
    if !FromSnapshot(snapshot, path, content) {
      var i :| 0 <= i < |accepted| && accepted[i].path == path && accepted[i].content == content;
      AllowedMeans(scopes, profile, accepted[i]);
      ContainedCovers(scopes.read, scopes.write, path);
    }
  }

  /**
   Edits are checked one by one, so whatever was accepted, a candidate that
   nobody tampered with passes the structural policy exactly when its files
   together are within the caps on count and total size.
   */
  lemma HonestCandidate(scopes: RunScopes, profile: Profile, base: map<Path, ManifestEntry>,
                        snapshot: map<Path, Bytes>, accepted: seq<CandidateEdit>, tree: StagingTree,
                        baseContents: map<Path, Bytes>)
    requires scopes.Valid() && Contents(scopes, profile, Some(base), snapshot, accepted, tree, baseContents)
    ensures Structural.Within(scopes, profile, base, tree) <==> Fits(tree.files, profile)
  {
    hide Overlay, IsRelPath, Covers, Fits, Structural.TextOk, Structural.FileWithin, Structural.Differs, AllAllowed,
         RunScopes.Valid, NormalDirs, CopiedWithin, Legal;
    forall path | path in tree.files
      ensures var content := tree.files[path];
              && IsRelPath(path) && |content| <= profile.maxFileBytes
              && Structural.FileWithin(scopes, base, path, EntryOf(content))
              && (Structural.Differs(base, path, EntryOf(content)) ==> Structural.TextOk(content))
    {
      FileHonest(scopes, profile, base, snapshot, accepted, path);
    }
  }
}
