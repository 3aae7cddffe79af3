/** The portable path grammar (kernel/src/governed_path.rs), on texts and on their components. */
module GovernedPath {
  import opened Text

  type Path = seq<string>

  const MAX_RELATIVE_BYTES: nat := 240
  const MAX_COMPONENT_BYTES: nat := 128
  const MAX_DEPTH: nat := 16

  const FORBIDDEN := "/\\:<>\"|?*"

  // ------------------------------------------------------------------
  // Components
  // ------------------------------------------------------------------

  /** The text before the first dot. */
  function Stem(component: string): string {
    if component == "" || component[0] == '.' then "" else [component[0]] + Stem(component[1..])
  }

  function TrimEnd(s: string): string {
    if s != "" && s[|s| - 1] == ' ' then TrimEnd(s[..|s| - 1]) else s
  }

  /** Upper case as far as a device name can tell: of all characters only these map to its letters. */
  function Upper(c: char): char {
    if 'a' <= c <= 'z' then c - 'a' + 'A' else if c == '\U{0131}' then 'I' else c
  }

  function UpperText(s: string): string {
    if s == "" then "" else [Upper(s[0])] + UpperText(s[1..])
  }

  predicate IsDeviceName(component: string) {
    var stem := UpperText(TrimEnd(Stem(component)));
    || stem in {"CON", "PRN", "AUX", "NUL", "CONIN$", "CONOUT$"}
    || (&& |stem| == 4 && (stem[..3] == "COM" || stem[..3] == "LPT")
        && ('1' <= stem[3] <= '9' || stem[3] in {'\U{00B9}', '\U{00B2}', '\U{00B3}'}))
  }

  predicate ValidComponent(component: string) {
    && component != "" && Utf8Length(component) <= MAX_COMPONENT_BYTES
    && component != "." && component != ".."
    && component[|component| - 1] != '.' && component[|component| - 1] != ' '
    && (forall i :: 0 <= i < |component| ==> !IsControl(component[i]) && component[i] !in FORBIDDEN)
    && !IsDeviceName(component)
  }

  // ------------------------------------------------------------------
  // Relative paths
  // ------------------------------------------------------------------

  /** The parts between the separators. */
  function Split(text: string): (parts: Path)
    ensures |parts| >= 1
  {
    if text == "" then [""]
    else
      var parts, c := Split(text[..|text| - 1]), text[|text| - 1];
      if c == '/' then parts + [""] else parts[|parts| - 1 := parts[|parts| - 1] + [c]]
  }

  function Join(parts: Path): string
    requires |parts| >= 1
  {
    if |parts| == 1 then parts[0] else Join(parts[..|parts| - 1]) + "/" + parts[|parts| - 1]
  }

  lemma {:induction false} SplitHasNoSeparator(text: string)
    ensures forall i :: 0 <= i < |Split(text)| ==> '/' !in Split(text)[i]
  {
    if text != "" {
      SplitHasNoSeparator(text[..|text| - 1]);
    }
  }

  lemma JoinGrows(parts: Path, c: char)
    requires |parts| >= 1
    ensures Join(parts[|parts| - 1 := parts[|parts| - 1] + [c]]) == Join(parts) + [c]
  {
    var last := |parts| - 1;
    var grown := parts[last := parts[last] + [c]];
    if last > 0 {
      assert grown[..last] == parts[..last];
      assert Join(parts) + [c] == Join(parts[..last]) + "/" + (parts[last] + [c]);
    }
  }

  /** No text is lost: joining the parts gives it back, so different names have different parts. */
  lemma {:induction false} JoinSplit(text: string)
    ensures Join(Split(text)) == text
  {
    if text != "" {
      var front, c := text[..|text| - 1], text[|text| - 1];
      JoinSplit(front);
      assert text == front + [c];
      if c == '/' {
        assert (Split(front) + [""])[..|Split(front)|] == Split(front);
        assert Join(Split(text)) == Join(Split(front)) + "/" + "";
      } else {
        JoinGrows(Split(front), c);
      }
    }
  }

  /** A portable relative path. */
  predicate IsRelative(text: string) {
    && text != "" && Utf8Length(text) <= MAX_RELATIVE_BYTES && |Split(text)| <= MAX_DEPTH
    && forall i :: 0 <= i < |Split(text)| ==> ValidComponent(Split(text)[i])
  }

  method ValidateRelative(text: string) returns (ok: bool)
    ensures ok <==> IsRelative(text)
  {
    if text == "" || Utf8Length(text) > MAX_RELATIVE_BYTES {
      return false;
    }
    var parts := Split(text);
    var depth := 0;
    for i := 0 to |parts|
      invariant depth == i <= MAX_DEPTH
      invariant forall j :: 0 <= j < i ==> ValidComponent(parts[j])
    {
      depth := depth + 1;
      if depth > MAX_DEPTH || !ValidComponent(parts[i]) {
        return false;
      }
    }
    return true;
  }

  // ------------------------------------------------------------------
  // Locations
  // ------------------------------------------------------------------

  /** Where the system gets from a directory by one component. */
  function Enter(location: Path, component: string): Path {
    if component == "" || component == "." then location
    else if component == ".." then (if location == [] then [] else location[..|location| - 1])
    else location + [component]
  }

  function Walk(root: Path, parts: Path): Path {
    if parts == [] then root else Enter(Walk(root, parts[..|parts| - 1]), parts[|parts| - 1])
  }

  /** A valid path leads strictly beneath its root, to where its components say. */
  lemma {:induction false} WalkStaysBeneath(root: Path, parts: Path)
    requires forall i :: 0 <= i < |parts| ==> ValidComponent(parts[i])
    ensures Walk(root, parts) == root + parts
  {
    if parts != [] {
      WalkStaysBeneath(root, parts[..|parts| - 1]);
      assert root + parts == root + parts[..|parts| - 1] + [parts[|parts| - 1]];
    }
  }

  datatype Joined = Refused | At(location: Path)

  method JoinRelative(root: Path, text: string) returns (joined: Joined)
    ensures joined == if IsRelative(text) then At(root + Split(text)) else Refused
    ensures joined.At? ==> root < joined.location
  {
    var ok := ValidateRelative(text);
    if !ok {
      return Refused;
    }
    var parts := Split(text);
    var location := root;
    for i := 0 to |parts|
      invariant location == Walk(root, parts[..i])
    {
      assert parts[..i + 1][..i] == parts[..i];
      location := Enter(location, parts[i]);
    }
    assert parts[..|parts|] == parts;
    WalkStaysBeneath(root, parts);
    return At(location);
  }
}
