/** Relative paths and the frozen scopes of a coding run (kernel/src/coding_run/scope.rs). */
module Scope {
  import opened Text

  type Path = seq<string>

  const MAX_COMPONENT_BYTES := 255
  const MAX_PATH_BYTES := 4096
  const TEMP_PREFIX := ".nexus-coding-run-tmp-"

  datatype ScopeError = Empty | Traversal | GitMetadata | TooLong | ForbiddenCharacter | Reserved

  datatype ComponentCheck = Accepted | Refused(error: ScopeError)

  predicate IsGitMetadata(name: string) {
    EqIgnoreAsciiCase(name, ".git")
  }

  function ValidateComponent(part: string): ComponentCheck {
    if part == "" then Refused(Empty)
    else if part == "." || part == ".." then Refused(Traversal)
    else if IsGitMetadata(part) then Refused(GitMetadata)
    else if Utf8Length(part) > MAX_COMPONENT_BYTES then Refused(TooLong)
    else if exists i :: 0 <= i < |part| && (part[i] == '/' || part[i] == '\\' || IsControl(part[i]))
    then Refused(ForbiddenCharacter)
    else if TEMP_PREFIX <= part then Refused(Reserved)
    else Accepted
  }

  /** The length in bytes of the `/`-joined path. */
  function JoinedLength(path: Path): nat {
    if path == [] then 0
    else if |path| == 1 then Utf8Length(path[0])
    else Utf8Length(path[0]) + 1 + JoinedLength(path[1..])
  }

  /** Every component is a name a run may use. */
  predicate Normal(path: Path) {
    forall i :: 0 <= i < |path| ==> ValidateComponent(path[i]).Accepted?
  }

  /** What `RelPath` guarantees: non-empty, normal components, bounded length. */
  predicate IsRelPath(path: Path) {
    path != [] && Normal(path) && JoinedLength(path) <= MAX_PATH_BYTES
  }

  predicate NoGit(path: Path) {
    forall i :: 0 <= i < |path| ==> !IsGitMetadata(path[i])
  }

  lemma NormalHasNoGit(path: Path)
    requires Normal(path)
    ensures NoGit(path)
  {
    assert forall i :: 0 <= i < |path| ==> ValidateComponent(path[i]).Accepted?;
  }

  datatype ScopeEntry = File(path: Path) | Tree(path: Path) | WholeProject

  predicate ValidEntry(entry: ScopeEntry) {
    !entry.WholeProject? ==> IsRelPath(entry.path)
  }

  predicate EntryCovers(entry: ScopeEntry, path: Path) {
    match entry
    case File(file) => file == path
    case Tree(tree) => tree <= path
    case WholeProject => true
  }

  predicate Covers(scope: seq<ScopeEntry>, path: Path) {
    exists i :: 0 <= i < |scope| && EntryCovers(scope[i], path)
  }

  /** An entry of another scope lies entirely within this scope. */
  predicate CoversEntry(scope: seq<ScopeEntry>, entry: ScopeEntry) {
    match entry
    case File(path) => Covers(scope, path)
    case Tree(path) => exists i :: 0 <= i < |scope| && !scope[i].File? && EntryCovers(scope[i], path)
    case WholeProject => WholeProject in scope
  }

  predicate ContainsScope(scope: seq<ScopeEntry>, other: seq<ScopeEntry>) {
    forall i :: 0 <= i < |other| ==> CoversEntry(scope, other[i])
  }

  /** What an inner scope covers, an outer scope covers. */
  lemma ContainedCovers(scope: seq<ScopeEntry>, other: seq<ScopeEntry>, path: Path)
    requires ContainsScope(scope, other) && Covers(other, path)
    ensures Covers(scope, path)
  {
    var i :| 0 <= i < |other| && EntryCovers(other[i], path);
    assert CoversEntry(scope, other[i]);
    match other[i] {
      case File(file) =>
      case Tree(tree) =>
        var j :| 0 <= j < |scope| && !scope[j].File? && EntryCovers(scope[j], tree);
        assert EntryCovers(scope[j], path);
      case WholeProject =>
        var j :| 0 <= j < |scope| && scope[j] == WholeProject;
        assert EntryCovers(scope[j], path);
    }
  }

  datatype RunScopes = RunScopes(read: seq<ScopeEntry>, write: seq<ScopeEntry>, protected: seq<ScopeEntry>)
  {
    /** What freezing the scopes checks: write and protected lie within a read scope that is not empty. */
    predicate Valid() {
      && (forall entry :: entry in read ==> ValidEntry(entry))
      && (forall entry :: entry in write ==> ValidEntry(entry))
      && (forall entry :: entry in protected ==> ValidEntry(entry))
      && read != [] && ContainsScope(read, write) && ContainsScope(read, protected)
    }

    /** A path the run may edit: in the write scope and not protected. */
    predicate Editable(path: Path) {
      Covers(write, path) && !Covers(protected, path)
    }
  }
}
