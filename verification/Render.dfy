/** The reference rendering: what a Kustomization graph means, without parser state.
    Every function returns `None` when the parser would raise a diagnostic. */
module Render {
  import opened Strings
  import opened ImageRefs
  import opened Repository

  const MAX_RESOLUTIONS: nat := 10000
  const MAX_DEPTH: nat := 100
  const MAX_USES: nat := 20000

  // ----- image overrides -----

  function Rename(u: Use, nn: string, at: Location): Use {
    var tag := ImageTag(u.effectiveImage);
    u.(effectiveImage := if tag == "" then nn else WithTag(nn, tag), overrides := u.overrides + [at])
  }

  function Retag(u: Use, at: Location): Use {
    u.(effectiveImage := WithTag(u.effectiveImage, at.value), target := at, overrides := u.overrides + [at])
  }

  predicate Matches(ov: Override, u: Use)
    requires ov.Override?
  {
    RawName(u.effectiveImage) == ov.name
  }

  function NewName(file: string, i: nat, ov: Override, sc: Scalars): string
    requires ov.Override?
  {
    if ov.hasNewName then At(sc, NameKey(file, i)).value else ""
  }

  /** The use after the `newName` of element `i`. */
  function Renamed(file: string, i: nat, ov: Override, sc: Scalars, u: Use): Use
    requires ov.Override?
  {
    var nn := NewName(file, i, ov, sc);
    if nn == "" then u else Rename(u, nn, Locate(sc, file, 0, NamePath(i), false))
  }

  /** The use after element `i` of the `images` list of `file`. */
  function OverrideOne(file: string, i: nat, ov: Override, sc: Scalars, u: Use): Option<Use>
    requires ov.Override?
  {
    if !Matches(ov, u) then Some(u)
    else if '@' in u.effectiveImage then None
    else
      var nn := NewName(file, i, ov, sc);
      if nn != "" && !NameOnly(nn) then None
      else
        var renamed := Renamed(file, i, ov, sc, u);
        match ov.newTag
        case NoNewTag =>
          if ValidRef(renamed.effectiveImage) then Some(renamed) else None
        case NewTag(isString) =>
          var tagged := Retag(renamed, Locate(sc, file, 0, TagPath(i), true));
          if isString && ValidRef(tagged.effectiveImage) then Some(tagged) else None
  }

  /** The whole list folded over a single use. */
  function OverrideUse(file: string, ovs: seq<Override>, sc: Scalars, u: Use): Option<Use>
    requires forall ov :: ov in ovs ==> ov.Override?
  {
    if ovs == [] then Some(u)
    else
      match OverrideUse(file, ovs[..|ovs| - 1], sc, u)
      case None => None
      case Some(v) => OverrideOne(file, |ovs| - 1, ovs[|ovs| - 1], sc, v)
  }

  /** Checks on the list itself, independent of the uses. */
  predicate OverridesOk(ovs: seq<Override>) {
    && (forall i :: 0 <= i < |ovs| ==> ovs[i].Override? && NameOnly(ovs[i].name) && !ovs[i].otherFields)
    && (forall i, j :: 0 <= i < j < |ovs| ==> ovs[i].name != ovs[j].name)
  }

  predicate OverridesApply(file: string, ovs: seq<Override>, sc: Scalars, uses: seq<Use>)
    requires OverridesOk(ovs)
  {
    forall j :: 0 <= j < |uses| ==> OverrideUse(file, ovs, sc, uses[j]).Some?
  }

  function ApplyImages(k: Kustomization, sc: Scalars, uses: seq<Use>): (r: Option<seq<Use>>)
    ensures r.Some? ==> |r.value| == |uses|
  {
    match k.images
    case NoImages => Some(uses)
    case NotASequence => None
    case Overrides(ovs) =>
      if OverridesOk(ovs) && OverridesApply(k.file, ovs, sc, uses)
      then Some(seq(|uses|, j requires 0 <= j < |uses| && OverrideUse(k.file, ovs, sc, uses[j]).Some?
                            => OverrideUse(k.file, ovs, sc, uses[j]).value))
      else None
  }

  // ----- dependency graph -----

  function PlainUse(sc: Scalars, d: Declaration): Use {
    var at := Locate(sc, d.file, d.doc, d.path, false);
    Use(d.resource, d.container, "", at.value, at.value, at, at, [])
  }

  function PlainUses(repo: Repo, sc: Scalars, file: string): (us: seq<Use>)
    ensures |us| == if file in repo.plain then |repo.plain[file]| else 0
  {
    if file in repo.plain
    then seq(|repo.plain[file]|, i requires 0 <= i < |repo.plain[file]| => PlainUse(sc, repo.plain[file][i]))
    else []
  }

  predicate FileAllowed(dir: string, name: string) {
    (dir == "." || HasPrefix(name, dir + "/")) && !KustomizationName(Base(name))
  }

  predicate NoDuplicates(uses: seq<Use>) {
    forall i, j :: 0 <= i < j < |uses| ==> uses[i].resource + uses[i].container != uses[j].resource + uses[j].container
  }

  /** Uses collected so far, and how many directories have been resolved. */
  datatype Visit = Visit(uses: seq<Use>, count: nat)

  ghost function Walk(repo: Repo, sc: Scalars, dir: string, path: set<string>, count: nat): Option<Visit>
    decreases repo.ks.Keys - path, 0, 0
  {
    if dir !in repo.ks then Some(Visit([], count))
    else if count + 1 > MAX_RESOLUTIONS || |path| > MAX_DEPTH || dir in path then None
    else
      var k := repo.ks[dir];
      match WalkEntries(repo, sc, dir, k.entries, path + {dir}, count + 1)
      case None => None
      case Some(v) =>
        if !NoDuplicates(v.uses) then None
        else
          match ApplyImages(k, sc, v.uses)
          case None => None
          case Some(uses) => Some(Visit(uses, v.count))
  }

  ghost function WalkEntries(repo: Repo, sc: Scalars, dir: string, entries: seq<string>, path: set<string>, count: nat): Option<Visit>
    decreases repo.ks.Keys - path, 1, |entries|
  {
    if entries == [] then Some(Visit([], count))
    else
      match WalkEntries(repo, sc, dir, entries[..|entries| - 1], path, count)
      case None => None
      case Some(v) =>
        match WalkEntry(repo, sc, dir, entries[|entries| - 1], path, v.count)
        case None => None
        case Some(w) =>
          if |v.uses + w.uses| > MAX_USES then None else Some(Visit(v.uses + w.uses, w.count))
  }

  ghost function WalkEntry(repo: Repo, sc: Scalars, dir: string, entry: string, path: set<string>, count: nat): Option<Visit>
    decreases repo.ks.Keys - path, 1, 0
  {
    match LocalPath(dir, entry)
    case None => Some(Visit([], count))
    case Some(name) =>
      if name in repo.ks then Walk(repo, sc, name, path, count)
      else if name in repo.files then
        if FileAllowed(dir, name) then Some(Visit(PlainUses(repo, sc, name), count)) else None
      else None
  }

  // ----- the whole repository -----

  /** Every `image:` scalar is a valid reference. */
  predicate DeclarationsOk(repo: Repo, sc: Scalars) {
    forall f, i :: f in repo.plain && 0 <= i < |repo.plain[f]| ==> ValidRef(At(sc, repo.plain[f][i].Key()).value)
  }

  predicate EntriesOk(repo: Repo) {
    forall d :: d in repo.ks ==> repo.ks[d].fieldsOk && forall i :: 0 <= i < |repo.ks[d].entries| ==> LocalPath(d, repo.ks[d].entries[i]).Some?
  }

  ghost predicate Referenced(repo: Repo, name: string) {
    exists d, i :: d in repo.ks && 0 <= i < |repo.ks[d].entries| && LocalPath(d, repo.ks[d].entries[i]) == Some(name)
  }

  function Stamp(env: string, uses: seq<Use>): (r: seq<Use>)
    ensures |r| == |uses|
    ensures forall i :: 0 <= i < |uses| ==> r[i] == uses[i].(environment := env)
  {
    seq(|uses|, i requires 0 <= i < |uses| => uses[i].(environment := env))
  }

  /** Environments: the directories no other Kustomization refers to. */
  ghost function WalkRoots(repo: Repo, sc: Scalars, dirs: seq<string>): Option<Visit> {
    if dirs == [] then Some(Visit([], 0))
    else
      var dir := dirs[|dirs| - 1];
      match WalkRoots(repo, sc, dirs[..|dirs| - 1])
      case None => None
      case Some(v) =>
        if Referenced(repo, dir) then Some(v)
        else
          match Walk(repo, sc, dir, {}, v.count)
          case None => None
          case Some(w) => Some(Visit(v.uses + Stamp(dir, w.uses), w.count))
  }

  /** The second pass, which makes disconnected cycles visible. */
  ghost function WalkAll(repo: Repo, sc: Scalars, dirs: seq<string>, count: nat): Option<nat> {
    if dirs == [] then Some(count)
    else
      match WalkAll(repo, sc, dirs[..|dirs| - 1], count)
      case None => None
      case Some(n) =>
        match Walk(repo, sc, dirs[|dirs| - 1], {}, n)
        case None => None
        case Some(w) => Some(w.count)
  }

  ghost function PlainEnvironments(repo: Repo, sc: Scalars, files: seq<string>): seq<Use> {
    if files == [] then []
    else
      var file := files[|files| - 1];
      PlainEnvironments(repo, sc, files[..|files| - 1])
      + (if Referenced(repo, file) then [] else Stamp("plain:" + Dir(file), PlainUses(repo, sc, file)))
  }

  function WorkloadKey(repo: Repo, u: Use): string {
    u.environment + "|" + (if u.resource in repo.identity then repo.identity[u.resource] else "||")
  }

  predicate NoDuplicateWorkloads(repo: Repo, uses: seq<Use>) {
    forall i, j :: 0 <= i < j < |uses| && WorkloadKey(repo, uses[i]) == WorkloadKey(repo, uses[j]) ==> uses[i].resource == uses[j].resource
  }

  /** All image uses of the repository, given its directories and files in order. */
  ghost function ParsedUses(repo: Repo, sc: Scalars, dirs: seq<string>, files: seq<string>): Option<seq<Use>> {
    if repo.extraction != [] || !DeclarationsOk(repo, sc) || !EntriesOk(repo) then None
    else
      match WalkRoots(repo, sc, dirs)
      case None => None
      case Some(v) =>
        match WalkAll(repo, sc, dirs, v.count)
        case None => None
        case Some(_) =>
          var uses := v.uses + PlainEnvironments(repo, sc, files);
          if NoDuplicateWorkloads(repo, uses) then Some(uses) else None
  }
}
