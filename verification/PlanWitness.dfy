/** The hypotheses of the planning theorems can be met: a repository with a single workload
    can be retagged, whatever its image and the new tag. */
module PlanWitness {
  import opened Strings
  import opened Sorting
  import opened ImageRefs
  import opened Repository
  import opened Render
  import opened Resolver
  import opened Targets
  import opened Origins
  import opened Writer
  import opened Planner
  import opened Overlay
  import opened Forks
  import opened TagNecessity
  import opened PlanBuilder
  import opened PlanTheorems
  import opened PlanStability

  function OneFile(d: Declaration): Repo {
    Repo({d.file}, map[d.file := [d]], map[], map[], [])
  }

  function OneScalar(d: Declaration, image: string): Scalars {
    map[d.Key() := Scalar(image, 1, 1)]
  }

  function OneUse(d: Declaration, image: string): Use {
    PlainUse(OneScalar(d, image), d).(environment := "plain:" + Dir(d.file))
  }

  function OneModel(d: Declaration, image: string): Model {
    Model("", [d.file], [OneUse(d, image)], [])
  }

  function Retagging(id: string, image: string, tag: string): Intent {
    Intent(id, [Change(ImageName(image), tag, "", [])])
  }

  function OneEdit(d: Declaration, image: string, tag: string): seq<Mutation> {
    if WithTag(image, tag) == image then [] else [Mutation(OneUse(d, image).target, WithTag(image, tag))]
  }

  lemma OneFileRenders(d: Declaration, image: string)
    requires ValidRef(image)
    ensures Renders(OneFile(d), OneScalar(d, image), [], [d.file], [OneUse(d, image)])
  {
    hide ValidRef, LocationKey;
    var repo, sc := OneFile(d), OneScalar(d, image);
    assert At(sc, d.Key()).value == image;
    assert PlainUses(repo, sc, d.file) == [PlainUse(sc, d)];
    assert Stamp("plain:" + Dir(d.file), [PlainUse(sc, d)]) == [OneUse(d, image)];
    assert !Referenced(repo, d.file);
    assert [d.file][..0] == [];
    assert PlainEnvironments(repo, sc, [d.file]) == [OneUse(d, image)];
  }

  lemma OneIntent(id: string, image: string, tag: string)
    requires IdOk(id) && ValidRef(image) && TagOk(tag)
    ensures IntentOk(Retagging(id, image, tag))
  {
    hide IdOk, TagOk, NameOk, Normalize, Strip, TagPart, DigestPart;
    NormalizeStable(Strip(image));
    NameParts(Normalize(Strip(image)));
  }

  lemma OnePair(changes: seq<Change>, uses: seq<Use>, c: Change, u: Use)
    requires changes == [c] && uses == [u] && Selected(u, c)
    ensures Pairs(changes, uses) == [Pair(c, u)]
  {
    hide Selected;
    assert changes[..0] == [] && uses[..0] == [];
    assert SelectedPairs(c, uses[..0]) == [];
    assert SelectedPairs(c, uses) == [Pair(c, u)];
    assert Pairs(changes[..0], uses) == [];
  }

  lemma OneTable(p: Pair)
    requires PinAllowed(p, map[])
    ensures NoConflict([p], map[])
    ensures Expected([p], map[]) == map[KeyOf(p.use) := Next(p, map[])]
    ensures ScalarEdits([p], map[]) == map[p.use.target.Key() := Mutation(p.use.target, Raw(p, map[]))]
  {
    hide Next, Raw, PinAllowed, LocationKey;
    var ps := [p];
    assert ps[..0] == [] && ps[0] == p;
  }

  lemma OneRequest(p: Pair, image: string, tag: string)
    requires '@' !in image && p.change.tag == tag && p.use.sourceImage == image == p.use.effectiveImage
    requires p.use.target.value == image && !p.use.target.tagOnly
    ensures PinAllowed(p, map[]) && Next(p, map[]) == WithTag(image, tag) == Raw(p, map[])
  {
    hide WithTag;
  }

  /** A valid unpinned image is plannable for every tag, and the plan edits its only scalar. */
  lemma OneWorkloadIsPlanned(d: Declaration, image: string, tag: string, id: string)
    requires ValidRef(image) && '@' !in image && TagOk(tag) && IdOk(id)
    ensures Planned(OneFile(d), OneScalar(d, image), OneScalar(d, WithTag(image, tag)), [], [d.file],
                    OneModel(d, image), Retagging(id, image, tag), [], OneEdit(d, image, tag))
  {
    hide ValidRef, TagOk, LocationKey, IntentOk, Renders, WithTag, ImageName, PinAllowed, Next, Raw, Pairs, Expected, ScalarEdits, NoConflict;
    var model, intent := OneModel(d, image), Retagging(id, image, tag);
    var u, c := OneUse(d, image), intent.changes[0];
    OneFileRenders(d, image);
    OneIntent(id, image, tag);
    NameIsItsOwnName(image);
    assert Selected(u, c);
    OnePair(intent.changes, model.uses, c, u);
    var p := Pair(c, u);
    OneRequest(p, image, tag);
    OneTable(p);
    assert ResolvedMap([]) == map[];
    assert u in model.uses;
  }

  // ----- a use whose tag comes from an override -----

  function TagMutations(u: Use, tag: string): seq<Mutation> {
    if u.target.value == tag then [] else [Mutation(u.target, tag)]
  }

  /** The scalars differ in the given one only, which holds `v` afterwards. */
  ghost predicate OneScalarChanged(sc: Scalars, sc': Scalars, key: string, v: string) {
    forall k :: At(sc', k).value == if k == key then v else At(sc, k).value
  }

  lemma TagRequest(p: Pair)
    requires '@' !in p.use.sourceImage && '@' !in p.use.effectiveImage && p.use.target.tagOnly
    ensures PinAllowed(p, map[]) && Next(p, map[]) == WithTag(p.use.effectiveImage, p.change.tag) && Raw(p, map[]) == p.change.tag
  {
    hide WithTag;
  }

  function ModelOf(files: seq<string>, uses: seq<Use>): Model {
    Model("", files, uses, [])
  }

  /** A repository with one use, whose target is a `newTag`, can be planned for every tag. */
  lemma SingleUseIsDrafted(
    repo: Repo, sc: Scalars, sc': Scalars, dirs: seq<string>, files: seq<string>, u: Use, tag: string, id: string)
    requires Renders(repo, sc, dirs, files, [u]) && u.target.tagOnly && '@' !in u.sourceImage && '@' !in u.effectiveImage
    requires TagOk(tag) && IdOk(id) && OneScalarChanged(sc, sc', u.target.Key(), tag)
    ensures Drafted(repo, sc, sc', dirs, files, ModelOf(files, [u]), Retagging(id, u.sourceImage, tag), [], TagMutations(u, tag))
    ensures Expected(Pairs(Retagging(id, u.sourceImage, tag).changes, [u]), ResolvedMap([])) == map[KeyOf(u) := WithTag(u.effectiveImage, tag)]
  {
    hide ValidRef, TagOk, LocationKey, IntentOk, Renders, WithTag, ImageName, PinAllowed, Next, Raw, Pairs, Expected, ScalarEdits, NoConflict, KeyOf, TargetDecides,
      FromFile, At;
    var model, intent := ModelOf(files, [u]), Retagging(id, u.sourceImage, tag);
    var c := intent.changes[0];
    assert u in [u];
    RenderedUse(repo, sc, dirs, files, [u], u);
    TargetIsValid(sc, u);
    TargetValue(sc, u);
    OneIntent(id, u.sourceImage, tag);
    NameIsItsOwnName(u.sourceImage);
    assert Selected(u, c);
    OnePair(intent.changes, model.uses, c, u);
    var p := Pair(c, u);
    TagRequest(p);
    OneTable(p);
    assert ResolvedMap([]) == map[];
  }

  function TagOverride(name: string): Override {
    Override(name, false, NewTag(true), false)
  }

  function RenameOverride(name: string): Override {
    Override(name, true, NoNewTag, false)
  }

  /** The image `name:tag`, whose tag an override of the overlay replaces by `v`; another scalar
      holds a new name. */
  function OverlayScalars(kfile: string, d: Declaration, name: string, tag: string, v: string, newName: string): Scalars {
    map[d.Key() := Scalar(name + ":" + tag, 1, 1), TagKey(kfile, 0) := Scalar(v, 1, 1), NameKey(kfile, 1) := Scalar(newName, 1, 1)]
  }

  function TagLocation(kfile: string, v: string): Location {
    Location(kfile, 0, TagPath(0), 1, 1, v, true)
  }

  /** The declaration with the given image, target and overrides. */
  function Overridden(d: Declaration, name: string, tag: string, image: string, target: Location, overrides: seq<Location>): Use {
    var at := Location(d.file, d.doc, d.path, 1, 1, name + ":" + tag, false);
    Use(d.resource, d.container, "", name + ":" + tag, image, at, target, overrides)
  }

  lemma ScalarsHold(kfile: string, d: Declaration, name: string, tag: string, v: string, newName: string)
    requires '#' !in kfile && '#' !in d.file && kfile != d.file
    ensures var sc := OverlayScalars(kfile, d, name, tag, v, newName);
            && At(sc, d.Key()).value == name + ":" + tag
            && PlainUse(sc, d) == Overridden(d, name, tag, name + ":" + tag, Location(d.file, d.doc, d.path, 1, 1, name + ":" + tag, false), [])
            && Locate(sc, kfile, 0, TagPath(0), true) == TagLocation(kfile, v)
            && Locate(sc, kfile, 0, NamePath(1), false) == Location(kfile, 0, NamePath(1), 1, 1, newName, false)
  {
    hide LocationKey, NamePath, TagPath;
    OverlayKeys("", "", kfile, d, []);
    NameIsNotTag(kfile, 1, 0);
  }

  lemma ScalarChanges(kfile: string, d: Declaration, name: string, tag: string, v: string, newName: string, v': string)
    requires '#' !in kfile && '#' !in d.file && kfile != d.file
    ensures OneScalarChanged(OverlayScalars(kfile, d, name, tag, v, newName), OverlayScalars(kfile, d, name, tag, v', newName), TagKey(kfile, 0), v')
  {
    hide LocationKey, NamePath, TagPath;
    OverlayKeys("", "", kfile, d, []);
    NameIsNotTag(kfile, 1, 0);
  }

  lemma TaggedName(name: string, tag: string)
    requires NameOnly(name) && TagOk(tag)
    ensures ValidRef(name + ":" + tag) && RawName(name + ":" + tag) == name && '@' !in name + ":" + tag && Strip(name + ":" + tag) == name
  {
    hide NameOk, DigestOk;
    NameOnlyIsStripped(name);
    TagOkChars(tag);
    TaggedParts(name, tag);
  }

  /** The tag override turns `name:tag` into `name:v`. */
  lemma RetagsTo(kfile: string, d: Declaration, name: string, tag: string, v: string, newName: string)
    requires '#' !in kfile && '#' !in d.file && kfile != d.file
    requires NameOnly(name) && TagOk(tag) && ValidRef(name + ":" + v)
    ensures var sc := OverlayScalars(kfile, d, name, tag, v, newName);
            OverrideUse(kfile, [TagOverride(name)], sc, PlainUse(sc, d))
            == Some(Overridden(d, name, tag, name + ":" + v, TagLocation(kfile, v), [TagLocation(kfile, v)]))
  {
    hide ValidRef, NameOnly, TagOk, Strip, RawName, LocationKey, TagPath, OverlayScalars;
    var sc := OverlayScalars(kfile, d, name, tag, v, newName);
    var ovs, u := [TagOverride(name)], PlainUse(sc, d);
    ScalarsHold(kfile, d, name, tag, v, newName);
    TaggedName(name, tag);
    assert ovs[..0] == [] && ovs[0] == TagOverride(name);
    assert OverrideUse(kfile, ovs[..0], sc, u) == Some(u);
    assert [] + [TagLocation(kfile, v)] == [TagLocation(kfile, v)];
  }

  lemma ListIsOk(name: string)
    requires NameOnly(name)
    ensures OverridesOk([TagOverride(name)])
  {
    hide NameOnly;
  }

  function OverlayUse(root: string, kfile: string, d: Declaration, name: string, tag: string, v: string): Use {
    Overridden(d, name, tag, name + ":" + v, TagLocation(kfile, v), [TagLocation(kfile, v)]).(environment := root)
  }

  /** The overlay parses to that use, and the intent for another tag is planned on its `newTag`. */
  lemma OverlayIsDrafted(
    root: string, entry: string, kfile: string, d: Declaration, files: seq<string>, name: string, tag: string, v: string, next: string, id: string)
    requires Layout(root, entry, kfile, d, files) && NameOnly(name) && TagOk(tag) && ValidRef(name + ":" + v) && '@' !in v && TagOk(next) && IdOk(id)
    ensures var repo, u := OneOverlay(root, entry, kfile, d, [TagOverride(name)]), OverlayUse(root, kfile, d, name, tag, v);
            var sc, sc' := OverlayScalars(kfile, d, name, tag, v, name), OverlayScalars(kfile, d, name, tag, next, name);
            && Drafted(repo, sc, sc', [root], files, ModelOf(files, [u]), Retagging(id, name + ":" + tag, next), [], TagMutations(u, next))
            && ParsedUses(repo, sc', [root], files) == Some([OverlayUse(root, kfile, d, name, tag, next)])
  {
    hide ValidRef, NameOnly, TagOk, Strip, LocationKey, TagPath, OverlayScalars, ParsedUses, OverrideUse, LocalPath, FileAllowed, InOrder, OverridesOk, SeparateKeys,
      UniqueDeclarations, Drafted, OneScalarChanged, Expected;
    var sc, sc' := OverlayScalars(kfile, d, name, tag, v, name), OverlayScalars(kfile, d, name, tag, next, name);
    var ovs := [TagOverride(name)];
    TaggedName(name, tag);
    TaggedName(name, next);
    ListIsOk(name);
    RetagsTo(kfile, d, name, tag, v, name);
    RetagsTo(kfile, d, name, tag, next, name);
    ScalarsHold(kfile, d, name, tag, v, name);
    ScalarsHold(kfile, d, name, tag, next, name);
    OverlayRenders(root, entry, kfile, d, ovs, sc, files);
    OverlayRenders(root, entry, kfile, d, ovs, sc', files);
    ScalarChanges(kfile, d, name, tag, v, name, next);
    SingleUseIsDrafted(OneOverlay(root, entry, kfile, d, ovs), sc, sc', [root], files, OverlayUse(root, kfile, d, name, tag, v), next, id);
  }

  /** With a tag behind it, the overlay is an instance of the hypotheses of the planning theorems. */
  lemma OverlayIsPlanned(
    root: string, entry: string, kfile: string, d: Declaration, files: seq<string>, name: string, tag: string, v: string, next: string, id: string)
    requires Layout(root, entry, kfile, d, files) && NameOnly(name) && TagOk(tag) && TagOk(v) && TagOk(next) && IdOk(id)
    ensures var repo, u := OneOverlay(root, entry, kfile, d, [TagOverride(name)]), OverlayUse(root, kfile, d, name, tag, v);
            Planned(repo, OverlayScalars(kfile, d, name, tag, v, name), OverlayScalars(kfile, d, name, tag, next, name), [root], files,
                    ModelOf(files, [u]), Retagging(id, name + ":" + tag, next), [], TagMutations(u, next))
  {
    hide ValidRef, NameOnly, TagOk, Layout, Drafted, OverlayScalars, LocationKey, TagPath;
    TaggedName(name, v);
    TagOkChars(v);
    OverlayIsDrafted(root, entry, kfile, d, files, name, tag, v, next, id);
  }

  /** Without the hypothesis on tags the plan fails: if the `newTag` holds anything else, the intent
      is plannable, the new parse is clean, and yet the check that renders again refuses it. */
  lemma NoTagIsRefused(
    root: string, entry: string, kfile: string, d: Declaration, files: seq<string>, name: string, tag: string, v: string, next: string, id: string,
    after: Model)
    requires Layout(root, entry, kfile, d, files) && NameOnly(name) && TagOk(tag) && ValidRef(name + ":" + v) && '@' !in v && !TagOk(v)
    requires TagOk(next) && IdOk(id)
    requires var repo := OneOverlay(root, entry, kfile, d, [TagOverride(name)]);
             after.diagnostics == [] && Some(after.uses) == ParsedUses(repo, OverlayScalars(kfile, d, name, tag, next, name), [root], files)
    ensures var repo, u := OneOverlay(root, entry, kfile, d, [TagOverride(name)]), OverlayUse(root, kfile, d, name, tag, v);
            var model, intent := ModelOf(files, [u]), Retagging(id, name + ":" + tag, next);
            && Renders(repo, OverlayScalars(kfile, d, name, tag, v, name), [root], files, model.uses)
            && Plannable(model, intent, [])
            && IsMutationList(TagMutations(u, next), ScalarEdits(Pairs(intent.changes, model.uses), ResolvedMap([])))
            && !PostCheck(model.uses, after, Expected(Pairs(intent.changes, model.uses), ResolvedMap([])))
  {
    hide ValidRef, NameOnly, TagOk, Layout, OverlayScalars, LocationKey, TagPath, ParsedUses, Plannable, IsMutationList, ScalarsAfter, PostCheck, Expected, Pairs,
      ResolvedMap, ScalarEdits;
    var repo, u := OneOverlay(root, entry, kfile, d, [TagOverride(name)]), OverlayUse(root, kfile, d, name, tag, v);
    var sc, sc' := OverlayScalars(kfile, d, name, tag, v, name), OverlayScalars(kfile, d, name, tag, next, name);
    var model, intent, ms := ModelOf(files, [u]), Retagging(id, name + ":" + tag, next), TagMutations(u, next);
    OverlayIsDrafted(root, entry, kfile, d, files, name, tag, v, next, id);
    OverlayIsShown(root, kfile, d, files, name, tag, v, next, after);
    CommutesExactlyForTags(repo, sc, sc', [root], files, model, intent, [], ms, after);
    assert ms[0] in ms && BadMutation(ms[0]);
  }

  lemma OverlayIsShown(
    root: string, kfile: string, d: Declaration, files: seq<string>, name: string, tag: string, v: string, next: string, after: Model)
    requires TagOk(next) && !TagOk(v) && after.uses == [OverlayUse(root, kfile, d, name, tag, next)]
    ensures var u := OverlayUse(root, kfile, d, name, tag, v);
            AllShown(ModelOf(files, [u]), after, TagMutations(u, next))
  {
    hide TagOk, LocationKey, TagPath;
    var u, u' := OverlayUse(root, kfile, d, name, tag, v), OverlayUse(root, kfile, d, name, tag, next);
    var ms := TagMutations(u, next);
    var m := ms[0];
    assert m in ms && BadMutation(m);
    BadKeysMeaning(ms, m);
    assert u.overrides[..0] == [] && u'.overrides[..0] == [];
    assert ShownAt(ModelOf(files, [u]), after, ms, m, 0);
  }

  /** In particular for a port and a path behind a host, as `5000/b`. */
  lemma PortAndPathIsRefused(
    root: string, entry: string, kfile: string, d: Declaration, files: seq<string>, host: string, tag: string, port: string, path: string,
    next: string, id: string, after: Model)
    requires Layout(root, entry, kfile, d, files) && HostOk(host) && NameOk(host) && TagOk(tag) && PathOk(path) && TagOk(next) && IdOk(id)
    requires port != "" && forall i :: 0 <= i < |port| ==> Digit(port[i])
    requires var repo, v := OneOverlay(root, entry, kfile, d, [TagOverride(host)]), port + "/" + path;
             after.diagnostics == [] && Some(after.uses) == ParsedUses(repo, OverlayScalars(kfile, d, host, tag, next, host), [root], files)
    ensures var v := port + "/" + path;
            var repo, u := OneOverlay(root, entry, kfile, d, [TagOverride(host)]), OverlayUse(root, kfile, d, host, tag, v);
            var model, intent := ModelOf(files, [u]), Retagging(id, host + ":" + tag, next);
            && Renders(repo, OverlayScalars(kfile, d, host, tag, v, host), [root], files, model.uses)
            && Plannable(model, intent, [])
            && !PostCheck(model.uses, after, Expected(Pairs(intent.changes, model.uses), ResolvedMap([])))
  {
    hide ValidRef, TagOk, HostOk, NameOk, PathOk, Layout, OverlayScalars, LocationKey, ParsedUses, Plannable, Renders, PostCheck, IsMutationList, Expected, Pairs,
      ResolvedMap, ScalarEdits, WithTag, Strip;
    var v := port + "/" + path;
    PortAndPathIsNotATag(host, tag, port, path);
    NameParts(host);
    NameAlone(host);
    assert NameOnly(host);
    TaggedName(host, tag);
    assert WithTag(host + ":" + tag, v) == host + ":" + v by {
      RetagByStem(host + ":" + tag, host, v);
    }
    PathHasNoAt(path);
    NoTagIsRefused(root, entry, kfile, d, files, host, tag, v, next, id, after);
  }

  lemma RetagByStem(image: string, stem: string, v: string)
    requires Strip(image) == stem
    ensures WithTag(image, v) == stem + ":" + v
  {
  }

  lemma PathHasNoAt(path: string)
    requires PathOk(path)
    ensures '@' !in path
  {
  }

  // ----- an override above hides the value -----

  function RenamedUse(root: string, kfile: string, d: Declaration, name: string, tag: string, v: string): Use {
    Overridden(d, name, tag, name, TagLocation(kfile, v), [TagLocation(kfile, v), Location(kfile, 0, NamePath(1), 1, 1, name, false)]).(environment := root)
  }

  /** A second override renames `name:v`, which is itself a name, back to `name`. */
  lemma RenamesBack(kfile: string, d: Declaration, name: string, tag: string, v: string)
    requires '#' !in kfile && '#' !in d.file && kfile != d.file
    requires NameOnly(name) && TagOk(tag) && NameOnly(name + ":" + v)
    ensures var sc := OverlayScalars(kfile, d, name, tag, v, name);
            OverrideUse(kfile, [TagOverride(name), RenameOverride(name + ":" + v)], sc, PlainUse(sc, d))
            == Some(RenamedUse("", kfile, d, name, tag, v))
  {
    hide ValidRef, TagOk, Strip, LocationKey, TagPath, NamePath, OverlayScalars, TagPart, DigestPart;
    var sc := OverlayScalars(kfile, d, name, tag, v, name);
    var ovs, u := [TagOverride(name), RenameOverride(name + ":" + v)], PlainUse(sc, d);
    ScalarsHold(kfile, d, name, tag, v, name);
    RetagsTo(kfile, d, name, tag, v, name);
    NameOnlyIsStripped(name + ":" + v);
    assert ovs[..1] == [TagOverride(name)];
    assert [TagLocation(kfile, v)] + [Location(kfile, 0, NamePath(1), 1, 1, name, false)]
        == [TagLocation(kfile, v), Location(kfile, 0, NamePath(1), 1, 1, name, false)];
  }

  /** After the edit the second override does not match any more. */
  lemma RenameIsIdle(kfile: string, d: Declaration, name: string, tag: string, v: string, next: string)
    requires '#' !in kfile && '#' !in d.file && kfile != d.file
    requires NameOnly(name) && TagOk(tag) && TagOk(next) && NameOnly(name + ":" + v)
    ensures var sc := OverlayScalars(kfile, d, name, tag, next, name);
            OverrideUse(kfile, [TagOverride(name), RenameOverride(name + ":" + v)], sc, PlainUse(sc, d))
            == Some(OverlayUse("", kfile, d, name, tag, next))
  {
    hide ValidRef, TagOk, NameOnly, Strip, LocationKey, TagPath, NamePath, OverlayScalars, RawName;
    var sc := OverlayScalars(kfile, d, name, tag, next, name);
    var ovs, u := [TagOverride(name), RenameOverride(name + ":" + v)], PlainUse(sc, d);
    ScalarsHold(kfile, d, name, tag, next, name);
    TaggedName(name, next);
    RetagsTo(kfile, d, name, tag, next, name);
    assert ovs[..1] == [TagOverride(name)];
    assert |name| < |name + ":" + v|;
  }

  lemma TwoAreOk(name: string, other: string)
    requires NameOnly(name) && NameOnly(other) && name != other
    ensures OverridesOk([TagOverride(name), RenameOverride(other)])
  {
    hide NameOnly;
  }

  /** That overlay is drafted too, and parses after the edit to the use without the rename. */
  lemma RenamedIsDrafted(
    root: string, entry: string, kfile: string, d: Declaration, files: seq<string>, name: string, tag: string, v: string, next: string, id: string)
    requires Layout(root, entry, kfile, d, files) && NameOnly(name) && TagOk(tag) && TagOk(next) && NameOnly(name + ":" + v) && IdOk(id)
    ensures var repo := OneOverlay(root, entry, kfile, d, [TagOverride(name), RenameOverride(name + ":" + v)]);
            var u := RenamedUse(root, kfile, d, name, tag, v);
            var sc, sc' := OverlayScalars(kfile, d, name, tag, v, name), OverlayScalars(kfile, d, name, tag, next, name);
            && Drafted(repo, sc, sc', [root], files, ModelOf(files, [u]), Retagging(id, name + ":" + tag, next), [], TagMutations(u, next))
            && ParsedUses(repo, sc', [root], files) == Some([OverlayUse(root, kfile, d, name, tag, next)])
            && Expected(Pairs(Retagging(id, name + ":" + tag, next).changes, [u]), ResolvedMap([])) == map[KeyOf(u) := WithTag(name, next)]
  {
    hide ValidRef, NameOnly, TagOk, Strip, LocationKey, TagPath, NamePath, OverlayScalars, ParsedUses, OverrideUse, LocalPath, FileAllowed, InOrder, OverridesOk,
      SeparateKeys, UniqueDeclarations, Drafted, OneScalarChanged, Expected, Pairs, ResolvedMap;
    var ovs := [TagOverride(name), RenameOverride(name + ":" + v)];
    var sc, sc' := OverlayScalars(kfile, d, name, tag, v, name), OverlayScalars(kfile, d, name, tag, next, name);
    TaggedName(name, tag);
    TwoAreOk(name, name + ":" + v);
    RenamesBack(kfile, d, name, tag, v);
    RenameIsIdle(kfile, d, name, tag, v, next);
    ScalarsHold(kfile, d, name, tag, v, name);
    ScalarsHold(kfile, d, name, tag, next, name);
    OverlayRenders(root, entry, kfile, d, ovs, sc, files);
    OverlayRenders(root, entry, kfile, d, ovs, sc', files);
    ScalarChanges(kfile, d, name, tag, v, name, next);
    NameOnlyIsStripped(name);
    SingleUseIsDrafted(OneOverlay(root, entry, kfile, d, ovs), sc, sc', [root], files, RenamedUse(root, kfile, d, name, tag, v), next, id);
  }

  /** The hypothesis on tags is not necessary everywhere: here the edited `newTag` held no tag, and
      still the plan renders as expected, because a later override renamed the odd name away. */
  lemma RenameHidesNoTag(
    root: string, entry: string, kfile: string, d: Declaration, files: seq<string>, name: string, tag: string, v: string, next: string, id: string,
    after: Model)
    requires Layout(root, entry, kfile, d, files) && NameOnly(name) && TagOk(tag) && TagOk(next) && NameOnly(name + ":" + v) && !TagOk(v) && IdOk(id)
    requires var repo := OneOverlay(root, entry, kfile, d, [TagOverride(name), RenameOverride(name + ":" + v)]);
             after.diagnostics == [] && Some(after.uses) == ParsedUses(repo, OverlayScalars(kfile, d, name, tag, next, name), [root], files)
    ensures var repo := OneOverlay(root, entry, kfile, d, [TagOverride(name), RenameOverride(name + ":" + v)]);
            var u := RenamedUse(root, kfile, d, name, tag, v);
            var sc, sc' := OverlayScalars(kfile, d, name, tag, v, name), OverlayScalars(kfile, d, name, tag, next, name);
            var model, intent, ms := ModelOf(files, [u]), Retagging(id, name + ":" + tag, next), TagMutations(u, next);
            && Drafted(repo, sc, sc', [root], files, model, intent, [], ms) && !EditsValidTags(ms)
            && PostCheck(model.uses, after, Expected(Pairs(intent.changes, model.uses), ResolvedMap([])))
  {
    hide ValidRef, NameOnly, TagOk, Strip, LocationKey, TagPath, NamePath, OverlayScalars, ParsedUses, Layout, Drafted, Expected, Pairs, ResolvedMap;
    var u, u' := RenamedUse(root, kfile, d, name, tag, v), OverlayUse(root, kfile, d, name, tag, next);
    RenamedIsDrafted(root, entry, kfile, d, files, name, tag, v, next, id);
    NameOnlyIsStripped(name);
    RetagByStem(name, name, next);
    assert u.effectiveImage == name;
    RenamedIsWanted(u, u', after, WithTag(name, next));
    assert TagMutations(u, next)[0] in TagMutations(u, next);
  }

  lemma RenamedIsWanted(u: Use, u': Use, after: Model, image: string)
    requires after.diagnostics == [] && after.uses == [u'] && KeyOf(u') == KeyOf(u) && u'.effectiveImage == image
    ensures PostCheck([u], after, map[KeyOf(u) := image])
  {
    hide KeyOf;
    assert after.uses[..0] == [];
    assert LastUses(after.uses) == map[KeyOf(u') := u'];
  }
}
