/** The parser object: depth-first resolution with an on-path set, a work budget,
    collected diagnostics and in-place image overrides. */
module Resolver {
  import opened Strings
  import opened Sorting
  import opened ImageRefs
  import opened Repository
  import opened Render

  // ----- dependency graph -----

  ghost predicate Edge(repo: Repo, a: string, b: string) {
    a in repo.ks && b in repo.ks
    && exists i :: 0 <= i < |repo.ks[a].entries| && LocalPath(a, repo.ks[a].entries[i]) == Some(b)
  }

  ghost predicate IsWalk(repo: Repo, p: seq<string>) {
    forall i :: 0 <= i < |p| - 1 ==> Edge(repo, p[i], p[i + 1])
  }

  ghost predicate IsCycle(repo: Repo, p: seq<string>) {
    |p| >= 2 && p[0] == p[|p| - 1] && IsWalk(repo, p)
  }

  ghost predicate HasCycle(repo: Repo) {
    exists p :: IsCycle(repo, p)
  }

  ghost predicate CycleReported(diagnostics: seq<Diagnostic>) {
    exists d :: d in diagnostics && d.code == DependencyCycle
  }

  ghost predicate LimitReported(diagnostics: seq<Diagnostic>) {
    exists d :: d in diagnostics && d.code == ParserLimit
  }

  /** Some traversal was cut short, at a directory on its path or at a limit. */
  ghost predicate CutShort(diagnostics: seq<Diagnostic>) {
    CycleReported(diagnostics) || LimitReported(diagnostics)
  }

  ghost predicate SameReports(before: seq<Diagnostic>, after: seq<Diagnostic>) {
    CycleReported(after) == CycleReported(before) && LimitReported(after) == LimitReported(before)
  }

  /** No chain of dependencies from the directory meets the path, or the directory again. */
  ghost predicate Escapes(repo: Repo, dir: string, path: set<string>) {
    forall p :: |p| > 0 && p[0] == dir && IsWalk(repo, p) ==> dir !in path && forall i :: 0 < i < |p| ==> p[i] !in path && p[i] != dir
  }

  ghost predicate EntriesEscape(repo: Repo, dir: string, n: nat, path: set<string>)
    requires dir in repo.ks
  {
    forall i, name :: 0 <= i < n && i < |repo.ks[dir].entries| && LocalPath(dir, repo.ks[dir].entries[i]) == Some(name) && name in repo.ks ==>
                        Escapes(repo, name, path)
  }

  lemma LimitCutsShort(diagnostics: seq<Diagnostic>)
    requires LimitReported(diagnostics)
    ensures CutShort(diagnostics)
  {
  }

  lemma NothingEscapes(repo: Repo, dir: string, path: set<string>)
    requires dir in repo.ks
    ensures EntriesEscape(repo, dir, 0, path)
  {
  }

  lemma OneMoreEscapes(repo: Repo, dir: string, i: nat, path: set<string>)
    requires dir in repo.ks && i < |repo.ks[dir].entries|
    ensures EntriesEscape(repo, dir, i, path)
            && (forall name :: LocalPath(dir, repo.ks[dir].entries[i]) == Some(name) && name in repo.ks ==> Escapes(repo, name, path)) ==>
              EntriesEscape(repo, dir, i + 1, path)
  {
    hide LocalPath, Escapes;
  }

  /** A directory that is not on the path escapes if its dependencies do, with it on the path. */
  lemma EscapesByEntries(repo: Repo, dir: string, path: set<string>)
    requires dir in repo.ks && dir !in path && EntriesEscape(repo, dir, |repo.ks[dir].entries|, path + {dir})
    ensures Escapes(repo, dir, path)
  {
    hide LocalPath;
    forall p | |p| > 0 && p[0] == dir && IsWalk(repo, p)
      ensures forall i :: 0 < i < |p| ==> p[i] !in path && p[i] != dir
    {
      if |p| > 1 {
        assert Edge(repo, p[0], p[1]);
        var q := p[1..];
        forall j | 0 <= j < |q| - 1
          ensures Edge(repo, q[j], q[j + 1])
        {
          assert Edge(repo, p[j + 1], p[j + 2]);
        }
        assert Escapes(repo, q[0], path + {dir});
        forall i | 0 < i < |p|
          ensures p[i] !in path && p[i] != dir
        {
          assert p[i] == q[i - 1];
        }
      }
    }
  }

  lemma EscapedIsAcyclic(repo: Repo)
    requires forall d :: d in repo.ks ==> Escapes(repo, d, {})
    ensures !HasCycle(repo)
  {
    hide LocalPath;
    forall p | |p| >= 2 && IsWalk(repo, p)
      ensures p[0] != p[|p| - 1]
    {
      assert Edge(repo, p[0], p[1]);
      assert Escapes(repo, p[0], {});
    }
  }

  /** `trail` lists the directories on the path, in visiting order, down to `dir`. */
  ghost predicate IsTrail(repo: Repo, trail: seq<string>, path: set<string>, dir: string) {
    (forall x :: x in path <==> x in trail) && IsWalk(repo, trail + [dir])
  }

  lemma TrailExtends(repo: Repo, trail: seq<string>, path: set<string>, dir: string, i: nat, name: string)
    requires IsTrail(repo, trail, path, dir)
    requires dir in repo.ks && name in repo.ks
    requires i < |repo.ks[dir].entries| && LocalPath(dir, repo.ks[dir].entries[i]) == Some(name)
    ensures IsTrail(repo, trail + [dir], path + {dir}, name)
  {
    var p, q := trail + [dir], trail + [dir] + [name];
    assert Edge(repo, dir, name);
    forall j | 0 <= j < |q| - 1
      ensures Edge(repo, q[j], q[j + 1])
    {
      if j < |p| - 1 {
        assert Edge(repo, p[j], p[j + 1]);
      }
    }
  }

  lemma TrailCloses(repo: Repo, trail: seq<string>, path: set<string>, dir: string)
    requires IsTrail(repo, trail, path, dir) && dir in path
    ensures HasCycle(repo)
  {
    var i :| 0 <= i < |trail| && trail[i] == dir;
    var p, q := trail + [dir], trail[i..] + [dir];
    forall j | 0 <= j < |q| - 1
      ensures Edge(repo, q[j], q[j + 1])
    {
      assert Edge(repo, p[i + j], p[i + j + 1]);
    }
    assert IsCycle(repo, q);
  }

  class Parser {
    const repo: Repo
    const sc: Scalars
    var diagnostics: seq<Diagnostic>
    var resolutions: nat
    var onPath: set<string>
    var plain: map<string, seq<Use>>

    constructor (repo: Repo, sc: Scalars)
      ensures this.repo == repo && this.sc == sc
      ensures diagnostics == [] && resolutions == 0 && onPath == {} && plain == map[]
    {
      this.repo, this.sc := repo, sc;
      diagnostics, resolutions, onPath, plain := [], 0, {}, map[];
    }

    /** Adds a diagnostic unless the same one is already recorded. */
    method Problem(file: string, code: Code, subject: string)
      modifies `diagnostics
      ensures diagnostics == if Diagnostic(file, code, subject) in old(diagnostics) then old(diagnostics)
                             else old(diagnostics) + [Diagnostic(file, code, subject)]
      ensures diagnostics != []
      ensures CycleReported(diagnostics) <==> CycleReported(old(diagnostics)) || code == DependencyCycle
      ensures LimitReported(diagnostics) <==> LimitReported(old(diagnostics)) || code == ParserLimit
    {
      var d := Diagnostic(file, code, subject);
      if d !in diagnostics {
        diagnostics := diagnostics + [d];
        assert d in diagnostics && forall e :: e in old(diagnostics) ==> e in diagnostics;
      }
    }

    /** One `images` element against one collected use. */
    method OverrideUseAt(file: string, i: nat, ov: Override, uses: array<Use>, j: nat)
      requires ov.Override? && j < uses.Length
      modifies uses, `diagnostics
      ensures diagnostics == [] <==> old(diagnostics) == [] && OverrideOne(file, i, ov, sc, old(uses[j])).Some?
      ensures diagnostics == [] ==> uses[j] == OverrideOne(file, i, ov, sc, old(uses[j])).value
      ensures forall k :: 0 <= k < uses.Length && k != j ==> uses[k] == old(uses[k])
      ensures SameReports(old(diagnostics), diagnostics)
    {
      hide ValidRef, NameOnly, RawName, ImageTag, WithTag;
      var u := uses[j];
      if RawName(u.effectiveImage) != ov.name {
        return;
      }
      if '@' in u.effectiveImage {
        Problem(file, UnsupportedDigestOverride, "");
        return;
      }
      var nn := if ov.hasNewName then At(sc, NameKey(file, i)).value else "";
      if nn != "" {
        if !NameOnly(nn) {
          Problem(file, InvalidOverride, "newName");
          return;
        }
        var tag := ImageTag(u.effectiveImage);
        var at := Locate(sc, file, 0, NamePath(i), false);
        u := u.(effectiveImage := if tag != "" then WithTag(nn, tag) else nn, overrides := u.overrides + [at]);
        uses[j] := u;
      }
      if ov.newTag.NewTag? {
        if !ov.newTag.isString {
          Problem(file, InvalidOverride, "newTag");
          return;
        }
        var at := Locate(sc, file, 0, TagPath(i), true);
        u := u.(effectiveImage := WithTag(u.effectiveImage, at.value), target := at, overrides := u.overrides + [at]);
        uses[j] := u;
      }
      if !ValidRef(u.effectiveImage) {
        Problem(file, InvalidOverride, "image");
      }
    }

    /** The inner loop: one element over all uses. */
    method OverrideElement(file: string, i: nat, ov: Override, uses: array<Use>)
      requires ov.Override?
      modifies uses, `diagnostics
      ensures diagnostics == [] <==>
              old(diagnostics) == [] && forall j :: 0 <= j < uses.Length ==> OverrideOne(file, i, ov, sc, old(uses[j])).Some?
      ensures diagnostics == [] ==>
                forall j :: 0 <= j < uses.Length ==> uses[j] == OverrideOne(file, i, ov, sc, old(uses[j])).value
      ensures SameReports(old(diagnostics), diagnostics)
    {
      hide OverrideOne;
      for j := 0 to uses.Length
        invariant diagnostics == [] <==>
                  old(diagnostics) == [] && forall k :: 0 <= k < j ==> OverrideOne(file, i, ov, sc, old(uses[k])).Some?
        invariant diagnostics == [] ==>
                    forall k :: 0 <= k < j ==> uses[k] == OverrideOne(file, i, ov, sc, old(uses[k])).value
        invariant forall k :: j <= k < uses.Length ==> uses[k] == old(uses[k])
        invariant SameReports(old(diagnostics), diagnostics)
      {
        OverrideUseAt(file, i, ov, uses, j);
      }
    }

    /** The outer loop: the `images` list applied in place, element by element. */
    method OverrideInPlace(file: string, ovs: seq<Override>, uses: array<Use>)
      modifies uses, `diagnostics
      ensures diagnostics == [] <==>
              old(diagnostics) == [] && OverridesOk(ovs) && OverridesApply(file, ovs, sc, old(uses[..]))
      ensures diagnostics == [] ==>
                forall j :: 0 <= j < uses.Length ==> uses[j] == OverrideUse(file, ovs, sc, old(uses[j])).value
      ensures SameReports(old(diagnostics), diagnostics)
    {
      hide NameOnly, OverrideOne;
      var names: set<string> := {};
      ghost var was := uses[..];
      for i := 0 to |ovs|
        invariant |was| == uses.Length
        invariant diagnostics == [] <==>
                  old(diagnostics) == [] && OverridesOk(ovs[..i]) && OverridesApply(file, ovs[..i], sc, was)
        invariant diagnostics == [] ==>
                    && (forall j :: 0 <= j < uses.Length ==> uses[j] == OverrideUse(file, ovs[..i], sc, was[j]).value)
                    && (forall n :: n in names <==> exists k :: 0 <= k < i && ovs[k].name == n)
        invariant SameReports(old(diagnostics), diagnostics)
      {
        var ov := ovs[i];
        OverridesExtend(file, ovs[..i], ov, sc, was);
        assert ovs[..i + 1] == ovs[..i] + [ov];
        if ov.NotAMapping? {
          Problem(file, UnsupportedImages, "");
          continue;
        }
        if !NameOnly(ov.name) || ov.name in names {
          assert diagnostics == [] ==> !OverridesOk(ovs[..i + 1]);
          Problem(file, AmbiguousOverride, "");
          continue;
        }
        names := names + {ov.name};
        if ov.otherFields {
          Problem(file, UnsupportedOverride, "");
        }
        OverrideElement(file, i, ov, uses);
      }
      assert ovs[..|ovs|] == ovs;
    }

    /** Reports resources that were included more than once. */
    method CheckDuplicates(file: string, uses: seq<Use>)
      modifies `diagnostics
      ensures diagnostics == [] <==> old(diagnostics) == [] && NoDuplicates(uses)
      ensures SameReports(old(diagnostics), diagnostics)
    {
      var seen: set<string> := {};
      for i := 0 to |uses|
        invariant forall s :: s in seen <==> exists k :: 0 <= k < i && uses[k].resource + uses[k].container == s
        invariant diagnostics == [] <==> old(diagnostics) == [] && NoDuplicates(uses[..i])
        invariant SameReports(old(diagnostics), diagnostics)
      {
        var key := uses[i].resource + uses[i].container;
        ghost var more := uses[..i + 1];
        assert forall k :: 0 <= k < i ==> more[k] == uses[..i][k];
        assert more[i] == uses[i];
        if key in seen {
          assert !NoDuplicates(more);
          Problem(file, DuplicateResource, uses[i].resource);
        }
        seen := seen + {key};
      }
      assert uses[..|uses|] == uses;
    }

    /** The collected plain uses are those of the declarations. */
    ghost predicate TableMatches()
      reads `plain
    {
      forall f :: (if f in plain then plain[f] else []) == PlainUses(repo, sc, f)
    }

    /** The `images` field of a Kustomization applied to the collected uses. */
    method TransformImages(k: Kustomization, collected: seq<Use>) returns (uses: seq<Use>)
      modifies `diagnostics
      ensures diagnostics == [] <==> old(diagnostics) == [] && ApplyImages(k, sc, collected).Some?
      ensures diagnostics == [] ==> uses == ApplyImages(k, sc, collected).value
      ensures SameReports(old(diagnostics), diagnostics)
    {
      hide OverridesOk, OverrideUse;
      uses := collected;
      if k.images.NotASequence? {
        Problem(k.file, InvalidImages, "");
      } else if k.images.Overrides? {
        var a := new Use[|uses|](i requires 0 <= i < |uses| => uses[i]);
        assert a[..] == collected;
        OverrideInPlace(k.file, k.images.items, a);
        uses := a[..];
      }
    }

    /** One entry of `resources` or `bases`. */
    method ResolveEntry(dir: string, i: nat, ghost trail: seq<string>, ghost path: set<string>) returns (uses: seq<Use>)
      requires dir in repo.ks && i < |repo.ks[dir].entries|
      requires dir !in path && onPath == path + {dir}
      requires diagnostics == [] ==> TableMatches()
      requires IsTrail(repo, trail, path, dir)
      requires CycleReported(diagnostics) ==> HasCycle(repo)
      modifies `diagnostics, `resolutions, `onPath
      ensures onPath == old(onPath)
      ensures diagnostics == [] <==>
              old(diagnostics) == []
              && WalkEntry(repo, sc, dir, repo.ks[dir].entries[i], onPath, old(resolutions)).Some?
      ensures diagnostics == [] ==>
                WalkEntry(repo, sc, dir, repo.ks[dir].entries[i], onPath, old(resolutions)).value == Visit(uses, resolutions)
      ensures CycleReported(diagnostics) ==> HasCycle(repo)
      ensures CutShort(old(diagnostics)) ==> CutShort(diagnostics)
      ensures CutShort(diagnostics)
              || forall name :: LocalPath(dir, repo.ks[dir].entries[i]) == Some(name) && name in repo.ks ==> Escapes(repo, name, onPath)
      decreases repo.ks.Keys - onPath, 1
    {
      hide LocalPath, IsTrail, HasCycle, Walk, WalkEntries, PlainUses, Escapes, KustomizationName, Base, HasPrefix;
      var file := repo.ks[dir].file;
      uses := [];
      var entry := LocalPath(dir, repo.ks[dir].entries[i]);
      if entry.None? {
        return;
      }
      var name := entry.value;
      if name in repo.ks {
        TrailExtends(repo, trail, path, dir, i, name);
        uses := Resolve(name, trail + [dir]);
      } else if name in repo.files {
        if dir != "." && !HasPrefix(name, dir + "/") {
          Problem(file, UnsafeDependency, name);
          return;
        }
        if KustomizationName(Base(name)) {
          Problem(file, InvalidDependency, name);
          return;
        }
        uses := if name in plain then plain[name] else [];
      } else {
        Problem(file, MissingDependency, name);
      }
    }

    /** The loop over `resources` and `bases`; stops early when too many uses pile up. */
    method CollectUses(dir: string, ghost trail: seq<string>, ghost path: set<string>) returns (uses: seq<Use>, tooMany: bool)
      requires dir in repo.ks && dir !in path && onPath == path + {dir}
      requires diagnostics == [] ==> TableMatches()
      requires IsTrail(repo, trail, path, dir)
      requires CycleReported(diagnostics) ==> HasCycle(repo)
      modifies `diagnostics, `resolutions, `onPath
      ensures onPath == old(onPath)
      ensures diagnostics == [] <==>
              old(diagnostics) == []
              && WalkEntries(repo, sc, dir, repo.ks[dir].entries, onPath, old(resolutions)).Some?
      ensures diagnostics == [] ==>
                !tooMany && WalkEntries(repo, sc, dir, repo.ks[dir].entries, onPath, old(resolutions)).value == Visit(uses, resolutions)
      ensures CycleReported(diagnostics) ==> HasCycle(repo)
      ensures CutShort(old(diagnostics)) ==> CutShort(diagnostics)
      ensures CutShort(diagnostics) || (!tooMany && EntriesEscape(repo, dir, |repo.ks[dir].entries|, onPath))
      decreases repo.ks.Keys - onPath, 2
    {
      hide LocalPath, Escapes, EntriesEscape, WalkEntry, IsTrail, HasCycle, TableMatches, CutShort, CycleReported, LimitReported;
      NothingEscapes(repo, dir, onPath);
      var k := repo.ks[dir];
      uses := [];
      for i := 0 to |k.entries|
        invariant onPath == path + {dir}
        invariant diagnostics == [] <==>
                  old(diagnostics) == [] && WalkEntries(repo, sc, dir, k.entries[..i], onPath, old(resolutions)).Some?
        invariant diagnostics == [] ==>
                    WalkEntries(repo, sc, dir, k.entries[..i], onPath, old(resolutions)).value == Visit(uses, resolutions)
        invariant CycleReported(diagnostics) ==> HasCycle(repo)
        invariant CutShort(old(diagnostics)) ==> CutShort(diagnostics)
        invariant CutShort(diagnostics) || EntriesEscape(repo, dir, i, onPath)
      {
        assert k.entries[..i + 1][..i] == k.entries[..i];
        var more := ResolveEntry(dir, i, trail, path);
        OneMoreEscapes(repo, dir, i, onPath);
        uses := uses + more;
        if |uses| > MAX_USES {
          Problem(k.file, ParserLimit, "uses");
          assert CutShort(diagnostics) by {
            LimitCutsShort(diagnostics);
          }
          if old(diagnostics) == [] {
            WalkEntriesFailsOn(repo, sc, dir, k.entries, i + 1, onPath, old(resolutions));
          }
          return [], true;
        }
      }
      tooMany := false;
      assert k.entries[..|k.entries|] == k.entries;
    }

    /** Depth-first resolution. It equals the reference rendering exactly when no
        diagnostic is raised, restores the path set on every return, and reports a
        cycle only when there is one. The shared plain uses are not in its frame. */
    method Resolve(dir: string, ghost trail: seq<string>) returns (uses: seq<Use>)
      requires diagnostics == [] ==> TableMatches()
      requires IsTrail(repo, trail, onPath, dir)
      requires CycleReported(diagnostics) ==> HasCycle(repo)
      modifies `diagnostics, `resolutions, `onPath
      ensures onPath == old(onPath)
      ensures diagnostics == [] <==>
              old(diagnostics) == [] && Walk(repo, sc, dir, onPath, old(resolutions)).Some?
      ensures diagnostics == [] ==> Walk(repo, sc, dir, onPath, old(resolutions)).value == Visit(uses, resolutions)
      ensures CycleReported(diagnostics) ==> HasCycle(repo)
      ensures CutShort(old(diagnostics)) ==> CutShort(diagnostics)
      ensures CutShort(diagnostics) || dir !in repo.ks || Escapes(repo, dir, onPath)
      decreases repo.ks.Keys - onPath, 0
    {
      hide Escapes, EntriesEscape, NoDuplicates, ApplyImages, WalkEntries, IsTrail, HasCycle, TableMatches;
      uses := [];
      if dir !in repo.ks {
        return;
      }
      var k := repo.ks[dir];
      resolutions := resolutions + 1;
      if resolutions > MAX_RESOLUTIONS || |onPath| > MAX_DEPTH {
        Problem(k.file, ParserLimit, "graph");
        return;
      }
      if dir in onPath {
        TrailCloses(repo, trail, onPath, dir);
        Problem(k.file, DependencyCycle, "");
        return;
      }
      ghost var path := onPath;
      onPath := onPath + {dir};
      var tooMany;
      uses, tooMany := CollectUses(dir, trail, path);
      if !tooMany {
        if !CutShort(diagnostics) {
          EscapesByEntries(repo, dir, path);
        }
        CheckDuplicates(k.file, uses);
        uses := TransformImages(k, uses);
      }
      onPath := onPath - {dir};
    }

    /** The table holds the uses of the files read so far. */
    ghost predicate Filled(read: set<string>)
      reads `plain
    {
      forall f :: (if f in plain then plain[f] else []) == if f in read then PlainUses(repo, sc, f) else []
    }

    /** Reads the documents: invalid images are reported, valid ones become plain uses. */
    method ReadDocuments(files: seq<string>)
      requires diagnostics == [] && plain == map[]
      requires InOrder(files, repo.files) && repo.plain.Keys <= repo.files
      modifies `diagnostics, `plain
      ensures diagnostics == [] <==> repo.extraction == [] && DeclarationsOk(repo, sc)
      ensures diagnostics == [] ==> TableMatches()
      ensures !CycleReported(diagnostics)
    {
      hide FileOk, PlainUses, Ascending;
      for i := 0 to |repo.extraction|
        invariant plain == map[]
        invariant diagnostics == [] <==> i == 0
        invariant !CycleReported(diagnostics)
      {
        Problem(repo.extraction[i], Extraction, "");
      }
      ghost var read: set<string> := {};
      for i := 0 to |files|
        invariant forall f :: f in read <==> f in files[..i]
        invariant diagnostics == [] <==> repo.extraction == [] && forall f :: f in read ==> FileOk(repo, sc, f)
        invariant diagnostics == [] ==> Filled(read)
        invariant !CycleReported(diagnostics)
      {
        ghost var before := plain;
        var file := files[i];
        if file in repo.plain {
          ReadFile(file);
        } else {
          NoDeclarations(repo, sc, file);
        }
        read := read + {file};
        assert files[..i + 1] == files[..i] + [file];
      }
      assert files[..|files|] == files;
      if diagnostics == [] {
        forall f | f !in read
          ensures PlainUses(repo, sc, f) == []
        {
          NoDeclarations(repo, sc, f);
        }
      }
      DeclarationsByFile(repo, sc);
      assert (forall f :: f in read ==> FileOk(repo, sc, f)) <==> (forall f :: f in repo.files ==> FileOk(repo, sc, f));
    }

    method ReadFile(file: string)
      requires file in repo.plain
      modifies `diagnostics, `plain
      ensures diagnostics == [] <==> old(diagnostics) == [] && FileOk(repo, sc, file)
      ensures diagnostics == [] ==> plain == old(plain)[file := PlainUses(repo, sc, file)]
      ensures SameReports(old(diagnostics), diagnostics)
    {
      hide ValidRef;
      var uses: seq<Use> := [];
      var ds := repo.plain[file];
      for i := 0 to |ds|
        invariant plain == old(plain)
        invariant diagnostics == [] <==>
                  old(diagnostics) == [] && forall k :: 0 <= k < i ==> ValidRef(At(sc, ds[k].Key()).value)
        invariant diagnostics == [] ==> uses == PlainUses(repo, sc, file)[..i]
        invariant SameReports(old(diagnostics), diagnostics)
      {
        if ValidRef(At(sc, ds[i].Key()).value) {
          uses := uses + [PlainUse(sc, ds[i])];
        } else {
          Problem(file, InvalidImage, ds[i].resource);
        }
      }
      assert PlainUses(repo, sc, file)[..|ds|] == PlainUses(repo, sc, file);
      plain := plain[file := uses];
    }

    /** Collects the referenced names and reports dependencies that cannot be followed. */
    method ReadDependencies() returns (referenced: set<string>)
      modifies `diagnostics
      ensures diagnostics == [] <==> old(diagnostics) == [] && EntriesOk(repo)
      ensures forall n :: n in referenced <==> Referenced(repo, n)
      ensures SameReports(old(diagnostics), diagnostics)
    {
      hide LocalPath, DirOk, Refers, EntriesOk, Referenced, CycleReported, LimitReported;
      DependenciesByDir(repo);
      referenced := {};
      var rest := repo.ks.Keys;
      while rest != {}
        invariant rest <= repo.ks.Keys
        invariant diagnostics == [] <==> old(diagnostics) == [] && forall d :: d in repo.ks && d !in rest ==> DirOk(repo, d)
        invariant forall n :: n in referenced <==> exists d :: d in repo.ks && d !in rest && Refers(repo, d, n, |repo.ks[d].entries|)
        invariant SameReports(old(diagnostics), diagnostics)
        decreases rest
      {
        var dir :| dir in rest;
        var more := ReadEntries(dir);
        referenced := referenced + more;
        rest := rest - {dir};
      }
    }

    /** The same for the entries of one Kustomization. */
    method ReadEntries(dir: string) returns (referenced: set<string>)
      requires dir in repo.ks
      modifies `diagnostics
      ensures diagnostics == [] <==> old(diagnostics) == [] && DirOk(repo, dir)
      ensures forall n :: n in referenced <==> Refers(repo, dir, n, |repo.ks[dir].entries|)
      ensures SameReports(old(diagnostics), diagnostics)
    {
      hide LocalPath, CycleReported, LimitReported;
      var k := repo.ks[dir];
      referenced := {};
      if !k.fieldsOk {
        Problem(k.file, InvalidResources, "");
      }
      for i := 0 to |k.entries|
        invariant diagnostics == [] <==>
                  old(diagnostics) == [] && k.fieldsOk && forall j :: 0 <= j < i ==> LocalPath(dir, k.entries[j]).Some?
        invariant forall n :: n in referenced <==> Refers(repo, dir, n, i)
        invariant SameReports(old(diagnostics), diagnostics)
      {
        var name := LocalPath(dir, k.entries[i]);
        if name.None? {
          Problem(k.file, UnsafeDependency, k.entries[i]);
        } else {
          referenced := referenced + {name.value};
        }
      }
    }

    /** First pass: every directory no other Kustomization refers to is an environment. */
    method ResolveRoots(dirs: seq<string>, referenced: set<string>) returns (uses: seq<Use>)
      requires onPath == {} && resolutions == 0
      requires forall n :: n in referenced <==> Referenced(repo, n)
      requires diagnostics == [] ==> TableMatches()
      requires !CycleReported(diagnostics)
      modifies `diagnostics, `resolutions, `onPath
      ensures onPath == {}
      ensures diagnostics == [] <==> old(diagnostics) == [] && WalkRoots(repo, sc, dirs).Some?
      ensures diagnostics == [] ==> WalkRoots(repo, sc, dirs).value == Visit(uses, resolutions)
      ensures CycleReported(diagnostics) ==> HasCycle(repo)
    {
      hide CutShort, Escapes, HasCycle, Walk, TableMatches, Referenced;
      uses := [];
      for i := 0 to |dirs|
        invariant onPath == {}
        invariant diagnostics == [] <==> old(diagnostics) == [] && WalkRoots(repo, sc, dirs[..i]).Some?
        invariant diagnostics == [] ==> WalkRoots(repo, sc, dirs[..i]).value == Visit(uses, resolutions)
        invariant CycleReported(diagnostics) ==> HasCycle(repo)
      {
        assert dirs[..i + 1][..i] == dirs[..i];
        if dirs[i] !in referenced {
          EmptyTrail(repo, dirs[i]);
          var more := Resolve(dirs[i], []);
          uses := uses + Stamp(dirs[i], more);
        }
      }
      assert dirs[..|dirs|] == dirs;
    }

    /** Second pass: every directory once more, so that a disconnected cycle is seen. */
    method ResolveAll(dirs: seq<string>)
      requires onPath == {}
      requires diagnostics == [] ==> TableMatches()
      requires CycleReported(diagnostics) ==> HasCycle(repo)
      modifies `diagnostics, `resolutions, `onPath
      ensures onPath == {}
      ensures diagnostics == [] <==> old(diagnostics) == [] && WalkAll(repo, sc, dirs, old(resolutions)).Some?
      ensures CycleReported(diagnostics) ==> HasCycle(repo)
      ensures CutShort(diagnostics) || forall d :: d in dirs && d in repo.ks ==> Escapes(repo, d, {})
    {
      hide CutShort, Escapes, HasCycle, Walk, TableMatches;
      for i := 0 to |dirs|
        invariant onPath == {}
        invariant diagnostics == [] <==> old(diagnostics) == [] && WalkAll(repo, sc, dirs[..i], old(resolutions)).Some?
        invariant diagnostics == [] ==> WalkAll(repo, sc, dirs[..i], old(resolutions)).value == resolutions
        invariant CycleReported(diagnostics) ==> HasCycle(repo)
        invariant CutShort(diagnostics) || forall j :: 0 <= j < i && dirs[j] in repo.ks ==> Escapes(repo, dirs[j], {})
      {
        assert dirs[..i + 1][..i] == dirs[..i];
        EmptyTrail(repo, dirs[i]);
        var again := Resolve(dirs[i], []);
      }
      assert dirs[..|dirs|] == dirs;
    }

    /** Unreferenced files form an environment per directory. */
    method AddPlainFiles(files: seq<string>, referenced: set<string>) returns (uses: seq<Use>)
      requires forall n :: n in referenced <==> Referenced(repo, n)
      ensures TableMatches() ==> uses == PlainEnvironments(repo, sc, files)
    {
      hide Referenced, PlainUses;
      uses := [];
      for i := 0 to |files|
        invariant TableMatches() ==> uses == PlainEnvironments(repo, sc, files[..i])
      {
        assert files[..i + 1][..i] == files[..i];
        if files[i] !in referenced {
          uses := uses + Stamp("plain:" + Dir(files[i]), if files[i] in plain then plain[files[i]] else []);
        }
      }
      assert files[..|files|] == files;
    }

    /** The whole parse. With no diagnostics, the uses are those of the reference rendering. */
    method Parse() returns (uses: seq<Use>, dirs: seq<string>, files: seq<string>)
      requires diagnostics == [] && resolutions == 0 && onPath == {} && plain == map[]
      requires repo.plain.Keys <= repo.files
      modifies this
      ensures InOrder(dirs, repo.ks.Keys) && InOrder(files, repo.files)
      ensures diagnostics == [] <==> ParsedUses(repo, sc, dirs, files).Some?
      ensures diagnostics == [] ==> uses == ParsedUses(repo, sc, dirs, files).value
      ensures CycleReported(diagnostics) ==> HasCycle(repo)
      ensures HasCycle(repo) ==> CycleReported(diagnostics) || LimitReported(diagnostics)
      ensures onPath == {}
    {
      hide Escapes, HasCycle, WalkRoots, WalkAll, DeclarationsOk, EntriesOk, TableMatches, Referenced, PlainEnvironments, NoDuplicateWorkloads;
      files := SortStrings(repo.files);
      ReadDocuments(files);
      var referenced := ReadDependencies();
      dirs := SortStrings(repo.ks.Keys);
      var overlays := ResolveRoots(dirs, referenced);
      ResolveAll(dirs);
      if !CutShort(diagnostics) {
        EscapedIsAcyclic(repo);
      }
      var rest := AddPlainFiles(files, referenced);
      uses := overlays + rest;
      CheckWorkloads(uses);
    }

    /** Reports a workload identity that two resources of an environment share. */
    method CheckWorkloads(uses: seq<Use>)
      modifies `diagnostics
      ensures diagnostics == [] <==> old(diagnostics) == [] && NoDuplicateWorkloads(repo, uses)
      ensures SameReports(old(diagnostics), diagnostics)
    {
      hide WorkloadKey, NoDuplicateWorkloads;
      var identities: map<string, string> := map[];
      NoWorkloads(repo, uses);
      for i := 0 to |uses|
        invariant diagnostics == [] <==> old(diagnostics) == [] && NoDuplicateWorkloads(repo, uses[..i])
        invariant diagnostics == [] ==> Owners(repo, uses[..i], identities)
        invariant SameReports(old(diagnostics), diagnostics)
      {
        var key := WorkloadKey(repo, uses[i]);
        assert uses[..i + 1] == uses[..i] + [uses[i]];
        if diagnostics == [] {
          OwnersExtend(repo, uses[..i], uses[i], identities);
        } else if old(diagnostics) == [] {
          DuplicatesStay(repo, uses[..i], uses[i]);
        }
        if key in identities && identities[key] != uses[i].resource {
          Problem(uses[i].source.file, DuplicateWorkload, uses[i].environment);
        }
        identities := identities[key := uses[i].resource];
      }
      assert uses[..|uses|] == uses;
    }
  }

  /** The map knows the resource of every workload identity seen so far. */
  ghost predicate Owners(repo: Repo, seen: seq<Use>, identities: map<string, string>) {
    && (forall u :: u in seen ==> WorkloadKey(repo, u) in identities && identities[WorkloadKey(repo, u)] == u.resource)
    && (forall key :: key in identities ==> exists u :: u in seen && WorkloadKey(repo, u) == key)
  }

  lemma NoWorkloads(repo: Repo, uses: seq<Use>)
    ensures NoDuplicateWorkloads(repo, uses[..0]) && Owners(repo, uses[..0], map[])
  {
  }

  lemma DuplicatesStay(repo: Repo, seen: seq<Use>, u: Use)
    requires !NoDuplicateWorkloads(repo, seen)
    ensures !NoDuplicateWorkloads(repo, seen + [u])
  {
    hide WorkloadKey;
    var i, j :| 0 <= i < j < |seen| && WorkloadKey(repo, seen[i]) == WorkloadKey(repo, seen[j]) && seen[i].resource != seen[j].resource;
    var more := seen + [u];
    assert more[i] == seen[i] && more[j] == seen[j];
  }

  lemma OwnersExtend(repo: Repo, seen: seq<Use>, u: Use, identities: map<string, string>)
    requires Owners(repo, seen, identities) && NoDuplicateWorkloads(repo, seen)
    ensures var key := WorkloadKey(repo, u);
            var fits := key in identities ==> identities[key] == u.resource;
            && (NoDuplicateWorkloads(repo, seen + [u]) <==> fits)
            && (fits ==> Owners(repo, seen + [u], identities[key := u.resource]))
  {
    hide WorkloadKey;
    var key, more := WorkloadKey(repo, u), seen + [u];
    assert more[|seen|] == u && forall i :: 0 <= i < |seen| ==> more[i] == seen[i] && seen[i] in seen;
    if key in identities && identities[key] != u.resource {
      var v :| v in seen && WorkloadKey(repo, v) == key;
      var i :| 0 <= i < |seen| && seen[i] == v;
      assert WorkloadKey(repo, more[i]) == WorkloadKey(repo, more[|seen|]);
    } else {
      assert forall v :: v in more ==> v in seen || v == u;
      assert u in more;
    }
  }

  ghost predicate InOrder(xs: seq<string>, s: set<string>) {
    Ascending(x => x, xs) && forall x :: x in xs <==> x in s
  }

  predicate FileOk(repo: Repo, sc: Scalars, file: string) {
    file in repo.plain ==> forall i :: 0 <= i < |repo.plain[file]| ==> ValidRef(At(sc, repo.plain[file][i].Key()).value)
  }

  lemma NoDeclarations(repo: Repo, sc: Scalars, file: string)
    requires file !in repo.plain
    ensures PlainUses(repo, sc, file) == [] && FileOk(repo, sc, file)
  {
  }

  lemma DeclarationsByFile(repo: Repo, sc: Scalars)
    requires repo.plain.Keys <= repo.files
    ensures DeclarationsOk(repo, sc) <==> forall f :: f in repo.files ==> FileOk(repo, sc, f)
  {
    hide ValidRef;
    if forall f :: f in repo.files ==> FileOk(repo, sc, f) {
      assert forall f :: f in repo.plain ==> FileOk(repo, sc, f);
    }
  }

  lemma DependenciesByDir(repo: Repo)
    ensures EntriesOk(repo) <==> forall d :: d in repo.ks ==> DirOk(repo, d)
    ensures forall n :: Referenced(repo, n) <==> exists d :: d in repo.ks && Refers(repo, d, n, |repo.ks[d].entries|)
  {
    hide LocalPath;
  }

  predicate DirOk(repo: Repo, dir: string)
    requires dir in repo.ks
  {
    repo.ks[dir].fieldsOk && forall i :: 0 <= i < |repo.ks[dir].entries| ==> LocalPath(dir, repo.ks[dir].entries[i]).Some?
  }

  predicate Refers(repo: Repo, dir: string, name: string, n: nat)
    requires dir in repo.ks
  {
    exists i :: 0 <= i < n && i < |repo.ks[dir].entries| && LocalPath(dir, repo.ks[dir].entries[i]) == Some(name)
  }

  lemma EmptyTrail(repo: Repo, dir: string)
    ensures IsTrail(repo, [], {}, dir)
  {
  }

  lemma OverridesExtend(file: string, ovs: seq<Override>, ov: Override, sc: Scalars, uses: seq<Use>)
    ensures OverridesOk(ovs + [ov]) <==>
            OverridesOk(ovs) && ov.Override? && NameOnly(ov.name) && !ov.otherFields
            && forall k :: 0 <= k < |ovs| ==> ovs[k].name != ov.name
    ensures OverridesOk(ovs + [ov]) ==>
              forall u :: OverrideUse(file, ovs + [ov], sc, u) ==
                          match OverrideUse(file, ovs, sc, u)
                          case None => None
                          case Some(v) => OverrideOne(file, |ovs|, ov, sc, v)
    ensures OverridesOk(ovs + [ov]) ==>
              (OverridesApply(file, ovs + [ov], sc, uses) <==>
               OverridesApply(file, ovs, sc, uses)
               && forall j :: 0 <= j < |uses| ==> OverrideOne(file, |ovs|, ov, sc, OverrideUse(file, ovs, sc, uses[j]).value).Some?)
  {
    hide NameOnly, OverrideOne, OverridesOk;
    OverridesOkExtends(ovs, ov);
    var more := ovs + [ov];
    assert more[..|ovs|] == ovs && more[|ovs|] == ov;
  }

  lemma OverridesOkExtends(ovs: seq<Override>, ov: Override)
    ensures OverridesOk(ovs + [ov]) <==>
            OverridesOk(ovs) && ov.Override? && NameOnly(ov.name) && !ov.otherFields
            && forall k :: 0 <= k < |ovs| ==> ovs[k].name != ov.name
    ensures OverridesOk(ovs + [ov]) ==> forall v :: v in ovs + [ov] ==> v.Override?
  {
    hide NameOnly;
    var more := ovs + [ov];
    assert more[|ovs|] == ov && forall k :: 0 <= k < |ovs| ==> more[k] == ovs[k];
  }

  /** Once collecting fails it stays failed. */
  lemma {:induction false} WalkEntriesFailsOn(repo: Repo, sc: Scalars, dir: string, entries: seq<string>, i: nat, path: set<string>, count: nat)
    requires i <= |entries|
    requires WalkEntries(repo, sc, dir, entries[..i], path, count).None?
    ensures WalkEntries(repo, sc, dir, entries, path, count).None?
    decreases |entries| - i
  {
    if i < |entries| {
      assert entries[..i + 1][..i] == entries[..i];
      WalkEntriesFailsOn(repo, sc, dir, entries, i + 1, path, count);
    } else {
      assert entries[..i] == entries;
    }
  }
}
