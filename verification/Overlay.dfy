/** One Kustomization over one file, and what it renders to. */
module Overlay {
  import opened Strings
  import opened Sorting
  import opened ImageRefs
  import opened Repository
  import opened Render
  import opened Resolver
  import opened Targets
  import opened Origins
  import opened PlanTheorems

  const ROOT := "."

  function OneOverlay(root: string, entry: string, kfile: string, d: Declaration, ovs: seq<Override>): Repo {
    Repo({kfile, d.file}, map[d.file := [d]], map[root := Kustomization(kfile, true, [entry], Overrides(ovs))], map[], [])
  }

  /** A plain name that the root Kustomization may list as a resource. */
  predicate FileName(name: string) {
    Proper(name) && !KustomizationName(name) && forall i :: 0 <= i < |name| ==> !UnsafeChar(name[i])
  }

  /** The overlay in `root` lists one resource of its own directory. */
  ghost predicate Layout(root: string, entry: string, kfile: string, d: Declaration, files: seq<string>) {
    && LocalPath(root, entry) == Some(d.file) && FileAllowed(root, d.file) && d.file != root
    && kfile != d.file && '#' !in kfile && '#' !in d.file && InOrder(files, {kfile, d.file})
  }

  lemma RootIsOneComponent()
    ensures Components(ROOT) == [ROOT] && FirstIndex(ROOT, '/') < 0
  {
  }

  lemma LocalFile(name: string)
    requires FileName(name)
    ensures LocalPath(ROOT, name) == Some(name) && Base(name) == name && name != ROOT
  {
    hide UnsafeChar, FirstIndex, LastIndex, Clean, Components, KustomizationName;
    RootIsOneComponent();
    OneComponent(name);
    CleanInRoot(name);
    assert [ROOT] + [name] == [ROOT, name];
    assert name[LastIndex(name, '/') + 1..] == name;
  }

  lemma OneComponent(name: string)
    requires '/' !in name
    ensures Components(name) == [name]
  {
    hide FirstIndex;
  }

  lemma CleanInRoot(name: string)
    requires Proper(name)
    ensures Clean([ROOT, name]) == Some([name])
  {
    var cs := [ROOT, name];
    assert cs[..1] == [ROOT] && [ROOT][..0] == [];
    assert Clean([ROOT][..0]) == Some([]);
    assert Clean([ROOT]) == Some([]);
    assert cs[1] == name && [] + [name] == [name];
  }

  // ----- keys -----

  lemma {:induction false} KeyKeepsFile(file: string, rest: string)
    requires '#' !in file
    ensures FirstIndex(file + "#" + rest, '#') == |file|
  {
    hide FirstIndex;
    var s := file + "#" + rest;
    assert s[|file|] == '#' && forall i :: 0 <= i < |file| ==> s[i] == file[i] && file[i] in file;
  }

  lemma KeysOfFilesDiffer(f: string, i: nat, p: string, g: string, j: nat, q: string)
    requires '#' !in f && '#' !in g && f != g
    ensures LocationKey(f, i, p) != LocationKey(g, j, q)
  {
    hide Decimal, FirstIndex;
    var a, b := Decimal(i) + ":" + p, Decimal(j) + ":" + q;
    assert LocationKey(f, i, p) == f + "#" + a && LocationKey(g, j, q) == g + "#" + b;
    KeyKeepsFile(f, a);
    KeyKeepsFile(g, b);
    assert (f + "#" + a)[..|f|] == f && (g + "#" + b)[..|g|] == g;
  }

  lemma NameKeyEnds(file: string, i: nat)
    ensures |NameKey(file, i)| > 0 && NameKey(file, i)[|NameKey(file, i)| - 1] == 'e'
  {
    hide Decimal;
    var head := file + "#" + Decimal(0) + ":" + ("/images/" + Decimal(i));
    var tail := "/newName";
    assert NameKey(file, i) == head + tail;
    assert tail[|tail| - 1] == 'e';
  }

  lemma TagKeyEnds(file: string, i: nat)
    ensures |TagKey(file, i)| > 0 && TagKey(file, i)[|TagKey(file, i)| - 1] == 'g'
  {
    hide Decimal;
    var head := file + "#" + Decimal(0) + ":" + ("/images/" + Decimal(i));
    var tail := "/newTag";
    assert TagKey(file, i) == head + tail;
    assert tail[|tail| - 1] == 'g';
  }

  lemma NameIsNotTag(file: string, i: nat, j: nat)
    ensures NameKey(file, i) != TagKey(file, j)
  {
    hide LocationKey, NamePath, TagPath;
    NameKeyEnds(file, i);
    TagKeyEnds(file, j);
  }

  lemma OverlayKeys(root: string, entry: string, kfile: string, d: Declaration, ovs: seq<Override>)
    requires '#' !in kfile && '#' !in d.file && kfile != d.file
    ensures SeparateKeys(OneOverlay(root, entry, kfile, d, ovs)) && UniqueDeclarations(OneOverlay(root, entry, kfile, d, ovs))
    ensures forall i: nat :: d.Key() != NameKey(kfile, i) && d.Key() != TagKey(kfile, i)
  {
    hide LocationKey, NamePath, TagPath;
    forall i: nat
      ensures d.Key() != NameKey(kfile, i) && d.Key() != TagKey(kfile, i)
    {
      KeysOfFilesDiffer(d.file, d.doc, d.path, kfile, 0, NamePath(i));
      KeysOfFilesDiffer(d.file, d.doc, d.path, kfile, 0, TagPath(i));
    }
    forall i: nat, j: nat
      ensures NameKey(kfile, i) != TagKey(kfile, j)
    {
      NameIsNotTag(kfile, i, j);
    }
  }

  // ----- rendering -----

  /** One directory with one resource and a list of overrides. */
  ghost predicate IsOverlay(repo: Repo, root: string, entry: string, kfile: string, d: Declaration, ovs: seq<Override>) {
    && repo.files == {kfile, d.file} && repo.plain == map[d.file := [d]] && kfile != d.file && repo.extraction == []
    && repo.ks.Keys == {root} && repo.ks[root] == Kustomization(kfile, true, [entry], Overrides(ovs))
    && LocalPath(root, entry) == Some(d.file) && FileAllowed(root, d.file) && d.file != root
  }

  lemma OneOverlayIs(root: string, entry: string, kfile: string, d: Declaration, ovs: seq<Override>, files: seq<string>)
    requires Layout(root, entry, kfile, d, files)
    ensures IsOverlay(OneOverlay(root, entry, kfile, d, ovs), root, entry, kfile, d, ovs)
  {
    hide LocalPath, FileAllowed, InOrder;
  }

  lemma TwoInOrder(a: string, b: string) returns (files: seq<string>)
    requires a != b
    ensures InOrder(files, {a, b})
  {
    LessTotal(a, b);
    files := if Less(a, b) then [a, b] else [b, a];
  }

  lemma FileNameHasNoHash(name: string)
    requires FileName(name)
    ensures '#' !in name
  {
  }

  lemma Listable(dir: string, name: string)
    requires dir == ROOT && !KustomizationName(name) && Base(name) == name
    ensures FileAllowed(dir, name)
  {
    hide KustomizationName, HasPrefix;
  }

  /** Such a layout exists for every plain file name: the overlay in the root of the repository. */
  lemma RootLayout(kfile: string, d: Declaration) returns (files: seq<string>)
    requires FileName(d.file) && kfile != d.file && '#' !in kfile
    ensures Layout(ROOT, d.file, kfile, d, files)
  {
    hide KustomizationName, LocalPath, FileAllowed, InOrder, Proper;
    LocalFile(d.file);
    Listable(ROOT, d.file);
    FileNameHasNoHash(d.file);
    files := TwoInOrder(kfile, d.file);
  }

  lemma OverlayCollects(repo: Repo, root: string, entry: string, kfile: string, d: Declaration, ovs: seq<Override>, sc: Scalars, path: set<string>, count: nat)
    requires IsOverlay(repo, root, entry, kfile, d, ovs)
    ensures WalkEntries(repo, sc, root, [entry], path, count) == Some(Visit([PlainUse(sc, d)], count))
  {
    hide LocalPath, FileAllowed, LocationKey;
    var entries := [entry];
    assert PlainUses(repo, sc, d.file) == [PlainUse(sc, d)];
    assert WalkEntry(repo, sc, root, entry, path, count) == Some(Visit([PlainUse(sc, d)], count));
    assert entries[..0] == [] && entries[0] == entry;
    assert WalkEntries(repo, sc, root, entries[..0], path, count) == Some(Visit([], count));
    assert [] + [PlainUse(sc, d)] == [PlainUse(sc, d)];
  }

  lemma OneOverridden(k: Kustomization, ovs: seq<Override>, sc: Scalars, u: Use)
    requires k.images == Overrides(ovs) && OverridesOk(ovs) && OverrideUse(k.file, ovs, sc, u).Some?
    ensures ApplyImages(k, sc, [u]) == Some([OverrideUse(k.file, ovs, sc, u).value])
  {
    hide OverrideUse, NameOnly;
    var us, v := [u], OverrideUse(k.file, ovs, sc, u).value;
    assert forall j :: 0 <= j < |us| ==> us[j] == u;
    assert OverridesApply(k.file, ovs, sc, us);
    var r := ApplyImages(k, sc, us);
    assert r.Some? && |r.value| == 1;
    assert r.value[0] == OverrideUse(k.file, ovs, sc, us[0]).value;
    assert r.value == [v];
  }

  lemma OverlayWalks(repo: Repo, root: string, entry: string, kfile: string, d: Declaration, ovs: seq<Override>, sc: Scalars, count: nat)
    requires IsOverlay(repo, root, entry, kfile, d, ovs) && OverridesOk(ovs) && count < MAX_RESOLUTIONS
    requires OverrideUse(kfile, ovs, sc, PlainUse(sc, d)).Some?
    ensures Walk(repo, sc, root, {}, count) == Some(Visit([OverrideUse(kfile, ovs, sc, PlainUse(sc, d)).value], count + 1))
  {
    hide WalkEntries, OverrideUse, LocationKey, NameOnly, ApplyImages, LocalPath, FileAllowed;
    OverlayCollects(repo, root, entry, kfile, d, ovs, sc, {} + {root}, count + 1);
    OneOverridden(repo.ks[root], ovs, sc, PlainUse(sc, d));
  }

  lemma {:induction false} NoPlainEnvironments(
    repo: Repo, root: string, entry: string, kfile: string, d: Declaration, ovs: seq<Override>, sc: Scalars, files: seq<string>)
    requires IsOverlay(repo, root, entry, kfile, d, ovs) && forall i :: 0 <= i < |files| ==> files[i] in repo.files
    ensures PlainEnvironments(repo, sc, files) == []
    decreases |files|
  {
    hide LocalPath, FileAllowed, LocationKey;
    if files != [] {
      var init, file := files[..|files| - 1], files[|files| - 1];
      NoPlainEnvironments(repo, root, entry, kfile, d, ovs, sc, init);
      if file == d.file {
        assert LocalPath(root, repo.ks[root].entries[0]) == Some(d.file);
      } else {
        assert PlainUses(repo, sc, file) == [];
      }
    }
  }

  lemma OverlayRoots(repo: Repo, root: string, entry: string, kfile: string, d: Declaration, ovs: seq<Override>, sc: Scalars)
    requires IsOverlay(repo, root, entry, kfile, d, ovs) && OverridesOk(ovs) && OverrideUse(kfile, ovs, sc, PlainUse(sc, d)).Some?
    ensures var u := OverrideUse(kfile, ovs, sc, PlainUse(sc, d)).value;
            WalkRoots(repo, sc, [root]) == Some(Visit([u.(environment := root)], 1)) && WalkAll(repo, sc, [root], 1).Some?
  {
    hide OverrideUse, LocationKey, NameOnly, Walk, LocalPath, FileAllowed;
    var u := OverrideUse(kfile, ovs, sc, PlainUse(sc, d)).value;
    var dirs := [root];
    OverlayWalks(repo, root, entry, kfile, d, ovs, sc, 0);
    OverlayWalks(repo, root, entry, kfile, d, ovs, sc, 1);
    assert !Referenced(repo, root);
    assert dirs[..0] == [] && dirs[0] == root;
    assert WalkRoots(repo, sc, dirs[..0]) == Some(Visit([], 0));
    assert [] + Stamp(root, [u]) == [u.(environment := root)];
    assert WalkAll(repo, sc, dirs[..0], 1) == Some(1);
  }

  /** The use an overlay renders to: the declaration, overridden, in the environment of the overlay. */
  lemma OverlayParses(repo: Repo, root: string, entry: string, kfile: string, d: Declaration, ovs: seq<Override>, sc: Scalars, files: seq<string>)
    requires IsOverlay(repo, root, entry, kfile, d, ovs) && OverridesOk(ovs) && ValidRef(At(sc, d.Key()).value)
    requires forall i :: 0 <= i < |files| ==> files[i] in repo.files
    requires OverrideUse(kfile, ovs, sc, PlainUse(sc, d)).Some?
    ensures ParsedUses(repo, sc, [root], files) == Some([OverrideUse(kfile, ovs, sc, PlainUse(sc, d)).value.(environment := root)])
  {
    hide OverrideUse, LocationKey, ValidRef, NameOnly, WalkRoots, WalkAll, LocalPath, FileAllowed, PlainEnvironments;
    var us := [OverrideUse(kfile, ovs, sc, PlainUse(sc, d)).value.(environment := root)];
    OverlayRoots(repo, root, entry, kfile, d, ovs, sc);
    NoPlainEnvironments(repo, root, entry, kfile, d, ovs, sc, files);
    assert us + [] == us;
    assert EntriesOk(repo);
    assert DeclarationsOk(repo, sc);
    assert NoDuplicateWorkloads(repo, us);
  }

  lemma OverlayRenders(root: string, entry: string, kfile: string, d: Declaration, ovs: seq<Override>, sc: Scalars, files: seq<string>)
    requires Layout(root, entry, kfile, d, files) && OverridesOk(ovs) && ValidRef(At(sc, d.Key()).value)
    requires OverrideUse(kfile, ovs, sc, PlainUse(sc, d)).Some?
    ensures Renders(OneOverlay(root, entry, kfile, d, ovs), sc, [root], files,
                    [OverrideUse(kfile, ovs, sc, PlainUse(sc, d)).value.(environment := root)])
  {
    hide OverrideUse, LocationKey, ValidRef, NameOnly, ParsedUses, SeparateKeys, UniqueDeclarations, IsOverlay, LocalPath, FileAllowed;
    OverlayKeys(root, entry, kfile, d, ovs);
    OneOverlayIs(root, entry, kfile, d, ovs, files);
    assert forall i :: 0 <= i < |files| ==> files[i] in files;
    OverlayParses(OneOverlay(root, entry, kfile, d, ovs), root, entry, kfile, d, ovs, sc, files);
  }
}
