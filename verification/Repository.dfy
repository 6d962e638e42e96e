/** The parsed repository: scalar locations, image uses, plain files and Kustomizations. */
module Repository {
  import opened Strings
  import opened ImageRefs

  /** A scalar as the YAML parser reports it. */
  datatype Scalar = Scalar(value: string, line: nat, column: nat)

  /** Scalars by location key. */
  type Scalars = map<string, Scalar>

  function LocationKey(file: string, doc: nat, path: string): string {
    file + "#" + Decimal(doc) + ":" + path
  }

  datatype Location = Location(file: string, doc: nat, path: string, line: nat, column: nat, value: string, tagOnly: bool) {
    function Key(): string {
      LocationKey(file, doc, path)
    }
  }

  function Locate(sc: Scalars, file: string, doc: nat, path: string, tagOnly: bool): (l: Location)
    ensures l.Key() == LocationKey(file, doc, path)
  {
    var s := At(sc, LocationKey(file, doc, path));
    Location(file, doc, path, s.line, s.column, s.value, tagOnly)
  }

  function At(sc: Scalars, key: string): Scalar {
    if key in sc then sc[key] else Scalar("", 0, 0)
  }

  datatype Use = Use(
    resource: string, container: string, environment: string,
    sourceImage: string, effectiveImage: string,
    source: Location, target: Location, overrides: seq<Location>)

  /** An `image:` scalar found in a workload of a plain file. */
  datatype Declaration = Declaration(resource: string, container: string, file: string, doc: nat, path: string) {
    function Key(): string {
      LocationKey(file, doc, path)
    }
  }

  datatype NewTag = NoNewTag | NewTag(isString: bool)

  /** One element of `images:`. `newName` and `newTag` are scalars of the Kustomization file. */
  datatype Override =
    | NotAMapping
    | Override(name: string, hasNewName: bool, newTag: NewTag, otherFields: bool)

  datatype Images = NoImages | NotASequence | Overrides(items: seq<Override>)

  /** `entries` are the raw strings under `resources` followed by those under `bases`. */
  datatype Kustomization = Kustomization(file: string, fieldsOk: bool, entries: seq<string>, images: Images)

  /** `identity` is kind, namespace and name of a resource; `extraction` lists the files with
      problems found while reading documents, before any image or dependency is looked at. */
  datatype Repo = Repo(
    files: set<string>,
    plain: map<string, seq<Declaration>>,
    ks: map<string, Kustomization>,
    identity: map<string, string>,
    extraction: seq<string>)

  datatype Code =
    | Extraction | InvalidImage | InvalidResources | UnsafeDependency | InvalidDependency | MissingDependency
    | DependencyCycle | ParserLimit | DuplicateResource | DuplicateWorkload
    | InvalidImages | UnsupportedImages | AmbiguousOverride | UnsupportedOverride
    | UnsupportedDigestOverride | InvalidOverride

  datatype Diagnostic = Diagnostic(file: string, code: Code, subject: string)

  function NameKey(file: string, i: nat): string {
    LocationKey(file, 0, NamePath(i))
  }

  function TagKey(file: string, i: nat): string {
    LocationKey(file, 0, TagPath(i))
  }

  function NamePath(i: nat): string {
    "/images/" + Decimal(i) + "/newName"
  }

  function TagPath(i: nat): string {
    "/images/" + Decimal(i) + "/newTag"
  }

  // ----- paths -----

  /** The components of a slash-separated path. */
  function Components(s: string): (cs: seq<string>) {
    var slash := FirstIndex(s, '/');
    if slash < 0 then [s] else [s[..slash]] + Components(s[slash + 1..])
  }

  function Join(cs: seq<string>): string {
    if cs == [] then "" else if |cs| == 1 then cs[0] else cs[0] + "/" + Join(cs[1..])
  }

  /** Lexical cleaning; `None` when the path climbs above the repository root. */
  function Clean(cs: seq<string>): (r: Option<seq<string>>)
    ensures r.Some? ==> forall i :: 0 <= i < |r.value| ==> r.value[i] in cs && r.value[i] != "" && r.value[i] != "." && r.value[i] != ".."
  {
    if cs == [] then Some([])
    else
      var last := cs[|cs| - 1];
      match Clean(cs[..|cs| - 1])
      case None => None
      case Some(done) =>
        if last == "" || last == "." then Some(done)
        else if last == ".." then (if done == [] then None else Some(done[..|done| - 1]))
        else Some(done + [last])
  }

  predicate UnsafeChar(c: char) {
    c == '\\' || c == ':' || c == '\0' || c == '?' || c == '#'
  }

  /** Resolves a dependency string against its directory; `None` is the error return. */
  function LocalPath(dir: string, raw: string): Option<string> {
    if raw == "" || raw[0] == '/' || exists i :: 0 <= i < |raw| && UnsafeChar(raw[i]) then None
    else
      match Clean(Components(dir) + Components(raw))
      case None => None
      case Some(cs) => Some(if cs == [] then "." else Join(cs))
  }

  predicate Proper(c: string) {
    c != "" && c != "." && c != ".." && '/' !in c
  }

  lemma {:induction false} ComponentsHaveNoSlash(s: string)
    ensures forall c :: c in Components(s) ==> '/' !in c
    ensures Components(s) != []
  {
    hide FirstIndex;
    var slash := FirstIndex(s, '/');
    if slash >= 0 {
      var first, rest := s[..slash], s[slash + 1..];
      ComponentsHaveNoSlash(rest);
      assert '/' !in first;
      assert Components(s) == [first] + Components(rest);
    }
  }

  lemma FirstComponent(c: string, rest: string)
    requires '/' !in c
    ensures Components(c + "/" + rest) == [c] + Components(rest)
  {
    var s := c + "/" + rest;
    assert s[|c|] == '/' && forall i :: 0 <= i < |c| ==> s[i] == c[i] && c[i] in c;
    assert FirstIndex(s, '/') == |c|;
    assert s[..|c|] == c && s[|c| + 1..] == rest;
  }

  lemma {:induction false} JoinSplits(cs: seq<string>)
    requires cs != [] && forall i :: 0 <= i < |cs| ==> '/' !in cs[i]
    ensures Components(Join(cs)) == cs
  {
    if |cs| > 1 {
      JoinSplits(cs[1..]);
      FirstComponent(cs[0], Join(cs[1..]));
      assert cs == [cs[0]] + cs[1..];
    } else {
      assert cs == [cs[0]];
    }
  }

  lemma {:induction false} ProperIsClean(cs: seq<string>)
    requires forall i :: 0 <= i < |cs| ==> Proper(cs[i])
    ensures Clean(cs) == Some(cs)
    decreases |cs|
  {
    if cs != [] {
      ProperIsClean(cs[..|cs| - 1]);
      assert cs == cs[..|cs| - 1] + [cs[|cs| - 1]];
    }
  }

  /** A resolved dependency stays inside the repository and has one spelling: its components are
      proper names, and resolving it again changes nothing. */
  lemma LocalPathIsCanonical(dir: string, raw: string)
    requires LocalPath(dir, raw).Some?
    ensures var v := LocalPath(dir, raw).value;
            v == "." || ((forall i :: 0 <= i < |Components(v)| ==> Proper(Components(v)[i])) && Clean(Components(v)) == Some(Components(v)))
  {
    var all := Components(dir) + Components(raw);
    var cs := Clean(all).value;
    ComponentsHaveNoSlash(dir);
    ComponentsHaveNoSlash(raw);
    if cs != [] {
      forall i | 0 <= i < |cs|
        ensures Proper(cs[i])
      {
        assert cs[i] in all;
      }
      JoinSplits(cs);
      ProperIsClean(cs);
    }
  }

  function Dir(file: string): string {
    var slash := LastIndex(file, '/');
    if slash < 0 then "." else file[..slash]
  }

  function Base(file: string): string {
    file[LastIndex(file, '/') + 1..]
  }

  predicate KustomizationName(base: string) {
    base == "kustomization.yaml" || base == "kustomization.yml" || base == "Kustomization"
  }
}
