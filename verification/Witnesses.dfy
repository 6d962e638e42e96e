/** Repositories written out in full: a Kustomization in the root over one file. They show that the
    hypotheses of the planning theorems meet, and that the one on tags can decide. */
module Witnesses {
  import opened Strings
  import opened ImageRefs
  import opened Repository
  import opened Render
  import opened Resolver
  import opened Overlay
  import opened Writer
  import opened Planner
  import opened PlanBuilder
  import opened PlanTheorems
  import opened PlanStability
  import opened PlanWitness
  import opened Forks
  import opened TagNecessity
  import opened Passing

  const KFILE := "Kustomization"
  const HOST := "a"
  const PORT := "5"
  const PATH := "b"
  const OLD := "1"
  const NEXT := "2"

  function Workload(): Declaration {
    Declaration("r", "c", "w.yaml", 0, "p")
  }

  /** A draft on the root overlay, and the model its edited text parses to. */
  datatype Case = Case(repo: Repo, sc: Scalars, edited: Scalars, files: seq<string>, model: Model, intent: Intent, ms: seq<Mutation>, after: Model)

  ghost predicate IsCase(c: Case) {
    && Drafted(c.repo, c.sc, c.edited, [ROOT], c.files, c.model, c.intent, [], c.ms)
    && c.after.diagnostics == [] && ParsedUses(c.repo, c.edited, [ROOT], c.files) == Some(c.after.uses)
  }

  ghost predicate Accepted(c: Case) {
    PostCheck(c.model.uses, c.after, Expected(Pairs(c.intent.changes, c.model.uses), ResolvedMap([])))
  }

  lemma SmallNames()
    ensures HostOk(HOST) && PathOk(HOST) && NameOk(HOST) && PathOk(PATH) && TagOk(OLD) && TagOk(NEXT) && TagOk(PORT) && IdOk(HOST)
    ensures NameOnly(HOST)
  {
    hide NameOnly, DomainOk, FirstIndex;
    assert HOST[0] == 'a' && PATH[0] == 'b' && OLD[0] == '1' && NEXT[0] == '2' && PORT[0] == '5';
    assert PathOk(HOST);
    assert NameOk(HOST);
    PlainNameOnly(HOST);
  }

  lemma PlainNameOnly(name: string)
    requires NameOk(name)
    ensures NameOnly(name)
  {
    hide NameOk;
    NameAlone(name);
    NameParts(name);
  }

  /** The root overlay over the workload has a layout. */
  lemma RootFiles() returns (files: seq<string>)
    ensures Layout(ROOT, Workload().file, KFILE, Workload(), files)
  {
    hide Layout;
    assert FileName("w.yaml") by {
      assert "w.yaml"[0] == 'w';
    }
    files := RootLayout(KFILE, Workload());
  }

  function Tagged(files: seq<string>, v: string): Case {
    var d := Workload();
    var u, w := OverlayUse(ROOT, KFILE, d, HOST, OLD, v), OverlayUse(ROOT, KFILE, d, HOST, OLD, NEXT);
    Case(OneOverlay(ROOT, d.file, KFILE, d, [TagOverride(HOST)]), OverlayScalars(KFILE, d, HOST, OLD, v, HOST), OverlayScalars(KFILE, d, HOST, OLD, NEXT, HOST),
         files, ModelOf(files, [u]), Retagging(HOST, HOST + ":" + OLD, NEXT), TagMutations(u, NEXT), ModelOf(files, [w]))
  }

  /** A `newTag` that holds a tag is planned, and the new rendering accepted. */
  lemma TagIsAccepted() returns (c: Case)
    ensures IsCase(c) && EditsValidTags(c.ms) && Accepted(c)
  {
    hide Drafted, Layout, NameOnly, TagOk, NameOk, HostOk, PathOk, OverlayScalars, ParsedUses, LocationKey, TagPath, PostCheck, Expected, Pairs, ResolvedMap;
    SmallNames();
    var files := RootFiles();
    var d := Workload();
    c := Tagged(files, PORT);
    TaggedName(HOST, PORT);
    TagOkChars(PORT);
    OverlayIsPlanned(ROOT, d.file, KFILE, d, files, HOST, OLD, PORT, NEXT, HOST);
    OverlayIsDrafted(ROOT, d.file, KFILE, d, files, HOST, OLD, PORT, NEXT, HOST);
    PlanningCommutesWithRendering(c.repo, c.sc, c.edited, [ROOT], files, c.model, c.intent, [], c.ms, c.after);
  }

  /** A `newTag` that holds a port and a path is drafted in the same repository, and the new rendering
      refused. */
  lemma PortAndPathIsNotAccepted() returns (c: Case)
    ensures IsCase(c) && AllDecide(c.repo, c.sc, c.model, c.ms) && !EditsValidTags(c.ms) && !Accepted(c)
  {
    hide Drafted, Layout, NameOnly, TagOk, NameOk, HostOk, PathOk, OverlayScalars, ParsedUses, LocationKey, TagPath, PostCheck, Expected, Pairs, ResolvedMap,
      ValidRef, WithTag, Strip;
    SmallNames();
    var files := RootFiles();
    var d, v := Workload(), PORT + "/" + PATH;
    c := Tagged(files, v);
    PortAndPathIsNotATag(HOST, OLD, PORT, PATH);
    TaggedName(HOST, OLD);
    RetagByStem(HOST + ":" + OLD, HOST, v);
    PathHasNoAt(PATH);
    OverlayIsDrafted(ROOT, d.file, KFILE, d, files, HOST, OLD, v, NEXT, HOST);
    SlashIsNoTag(v, |PORT|);
    TaggedDecides(files, v);
    NoTagIsRefused(ROOT, d.file, KFILE, d, files, HOST, OLD, v, NEXT, HOST, c.after);
    assert c.ms[0] in c.ms;
  }

  /** There is no later element at all. */
  lemma TaggedDecides(files: seq<string>, v: string)
    requires !TagOk(v)
    ensures var c := Tagged(files, v); AllDecide(c.repo, c.sc, c.model, c.ms)
  {
    hide TagOk, LocationKey, TagPath, OverlayScalars, Quiet, StemOf, OneOverlay, AllDecide, OverlayUse, TagMutations;
    var c, d := Tagged(files, v), Workload();
    var u := OverlayUse(ROOT, KFILE, d, HOST, OLD, v);
    assert u.target.Key() == TagKey(KFILE, 0) by {
      TargetOfOverlay(ROOT, KFILE, d, HOST, OLD, v);
    }
    OneElementIsQuiet(d, u.target.Key(), StemOf(c.sc, u));
    SmallNames();
    UseDecides(c.repo, c.sc, ROOT, KFILE, d, files, HOST, OLD, v, NEXT);
  }

  lemma TargetOfOverlay(root: string, kfile: string, d: Declaration, name: string, tag: string, v: string)
    ensures OverlayUse(root, kfile, d, name, tag, v).target.Key() == TagKey(kfile, 0)
  {
    hide LocationKey, TagPath;
  }

  lemma UseDecides(
    repo: Repo, sc: Scalars, root: string, kfile: string, d: Declaration, files: seq<string>, name: string, tag: string, v: string, next: string)
    requires !TagOk(v) && TagOk(next)
    requires var u := OverlayUse(root, kfile, d, name, tag, v); Quiet(repo, root, u.target.Key(), StemOf(sc, u))
    ensures var u := OverlayUse(root, kfile, d, name, tag, v); AllDecide(repo, sc, ModelOf(files, [u]), TagMutations(u, next))
  {
    hide TagOk, LocationKey, TagPath, Quiet, StemOf;
    var u := OverlayUse(root, kfile, d, name, tag, v);
    var ms := TagMutations(u, next);
    var m := ms[0];
    assert m in ms && BadMutation(m);
    BadKeysMeaning(ms, m);
    assert u.overrides[..0] == [];
    assert DecidesAt(repo, sc, ModelOf(files, [u]), ms, m, 0);
  }

  lemma OneElementIsQuiet(d: Declaration, key: string, name: string)
    ensures Quiet(OneOverlay(ROOT, d.file, KFILE, d, [TagOverride(HOST)]), ROOT, key, name)
  {
    hide TagKey, Reaches;
  }

  /** With a second override that renames the odd name away it is accepted after all. */
  lemma HiddenByRename() returns (c: Case)
    ensures IsCase(c) && !EditsValidTags(c.ms) && Accepted(c)
  {
    hide Drafted, Layout, NameOnly, TagOk, NameOk, HostOk, PathOk, OverlayScalars, ParsedUses, LocationKey, TagPath, NamePath, PostCheck, Expected, Pairs, ResolvedMap,
      ValidRef, WithTag, Strip;
    SmallNames();
    var files := RootFiles();
    var d, v := Workload(), PORT + "/" + PATH;
    var ovs := [TagOverride(HOST), RenameOverride(HOST + ":" + v)];
    var u, w := RenamedUse(ROOT, KFILE, d, HOST, OLD, v), OverlayUse(ROOT, KFILE, d, HOST, OLD, NEXT);
    c := Case(OneOverlay(ROOT, d.file, KFILE, d, ovs), OverlayScalars(KFILE, d, HOST, OLD, v, HOST), OverlayScalars(KFILE, d, HOST, OLD, NEXT, HOST),
              files, ModelOf(files, [u]), Retagging(HOST, HOST + ":" + OLD, NEXT), TagMutations(u, NEXT), ModelOf(files, [w]));
    SlashIsNoTag(v, |PORT|);
    HostPortPath();
    RenamedIsDrafted(ROOT, d.file, KFILE, d, files, HOST, OLD, v, NEXT, HOST);
    RenameHidesNoTag(ROOT, d.file, KFILE, d, files, HOST, OLD, v, NEXT, HOST, c.after);
  }

  /** `a:5/b` is a name: a registry with a port, and a path. */
  lemma HostPortPath()
    ensures NameOnly(HOST + ":" + (PORT + "/" + PATH))
  {
    hide NameOnly, NameOk, DomainOk, HostOk, PathOk, TagOk;
    SmallNames();
    HostWithPort(HOST, PORT);
    var n := HOST + ":" + (PORT + "/" + PATH);
    assert n == (HOST + ":" + PORT) + "/" + PATH;
    QualifiedName(HOST + ":" + PORT, PATH, n);
    PlainNameOnly(n);
  }
}
