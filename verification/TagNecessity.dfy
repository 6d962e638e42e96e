/** When planning commutes with rendering: exactly if every edited `newTag` held a tag, as long as
    an edited one that did not is the last override that applies, before and after the edit. */
module TagNecessity {
  import opened Strings
  import opened Sorting
  import opened ImageRefs
  import opened Repository
  import opened Render
  import opened Resolver
  import opened Targets
  import opened Lockstep
  import opened Origins
  import opened Forks
  import opened Writer
  import opened Planner
  import opened PlanBuilder
  import opened PlanTheorems
  import opened PlanStability

  /** An edited `newTag` scalar that held no tag. */
  predicate BadMutation(m: Mutation) {
    m.location.tagOnly && !TagOk(m.location.value)
  }

  function BadKeys(ms: seq<Mutation>): set<string> {
    set m | m in ms && BadMutation(m) :: MutationKey(m)
  }

  lemma BadKeysMeaning(ms: seq<Mutation>, m: Mutation)
    requires m in ms && BadMutation(m)
    ensures MutationKey(m) in BadKeys(ms)
  {
  }

  lemma DraftIsEditsExcept(
    repo: Repo, sc: Scalars, sc': Scalars, dirs: seq<string>, files: seq<string>,
    model: Model, intent: Intent, verified: seq<Artifact>, ms: seq<Mutation>)
    requires Drafted(repo, sc, sc', dirs, files, model, intent, verified, ms)
    ensures EditsExcept(repo, sc, sc', BadKeys(ms))
  {
    hide TagEdit, Renders, Plannable, IsMutationList, MutationKey, TagOk, IsNameKey, IsDeclarationKey;
    forall key | key !in BadKeys(ms)
      ensures TagEdit(repo, key, At(sc, key).value, At(sc', key).value)
    {
      if m :| m in ms && MutationKey(m) == key {
        MutationIsTagEdit(repo, sc, sc', dirs, files, model, intent, verified, ms, m);
      } else {
        NothingEdited(repo, key, At(sc, key).value);
      }
    }
    forall key | key in BadKeys(ms)
      ensures !IsNameKey(repo, key) && !IsDeclarationKey(repo, key)
    {
      var m :| m in ms && BadMutation(m) && MutationKey(m) == key;
      MutationIsTagEdit(repo, sc, sc', dirs, files, model, intent, verified, ms, m);
    }
  }

  /** The mutation is the last override applied to the use at position `j`, and the only edited one
      without a tag, in the old and in the new rendering. */
  ghost predicate ShownAt(model: Model, after: Model, ms: seq<Mutation>, m: Mutation, j: nat) {
    && j < |model.uses| && Exposed(BadKeys(ms), model.uses[j]) && model.uses[j].target.Key() == MutationKey(m)
    && (after.diagnostics == [] ==>
          j < |after.uses| && Exposed(BadKeys(ms), after.uses[j]) && SameEnd(model.uses[j], after.uses[j]))
  }

  ghost predicate AllShown(model: Model, after: Model, ms: seq<Mutation>) {
    forall m :: m in ms && BadMutation(m) ==> exists j: nat :: ShownAt(model, after, ms, m, j)
  }

  /** A value behind a colon that is not a tag makes the part before it longer. */
  lemma StemGrows(stem: string, v: string)
    requires '@' !in stem && '@' !in v && ValidRef(stem + ":" + v) && !TagOk(v)
    ensures |Strip(stem + ":" + v)| > |stem|
  {
    hide NameOk, DigestOk;
    if '/' in v || ':' in v {
      StripKeepsMore(stem, v);
    } else {
      TaggedParts(stem, v);
    }
  }

  /** What a use on the edited scalar is expected to become, and what the scalar holds then. */
  lemma ExposedRequest(
    repo: Repo, sc: Scalars, sc': Scalars, dirs: seq<string>, files: seq<string>,
    model: Model, intent: Intent, verified: seq<Artifact>, ms: seq<Mutation>, m: Mutation, u: Use)
    requires Drafted(repo, sc, sc', dirs, files, model, intent, verified, ms)
    requires m in ms && m.location.tagOnly && u in model.uses && u.target.Key() == MutationKey(m) && u.target.tagOnly
    ensures Wanted(u, Expected(Pairs(intent.changes, model.uses), ResolvedMap(verified))) == WithTag(u.effectiveImage, m.newValue)
    ensures '@' !in u.effectiveImage && ValidRef(u.effectiveImage)
  {
    hide Renders, Plannable, IsMutationList, ValidRef, TagOk, WithTag, PinAllowed, Expected, ScalarEdits, Pairs, ResolvedMap, KeyOf, LocationKey, TargetDecides,
      NoConflict, DistinctKeys, FromFile, Selected, NoLeak, Next, Raw, ScalarsAfter;
    var ps, resolved := Pairs(intent.changes, model.uses), ResolvedMap(verified);
    var expected, targets := Expected(ps, resolved), ScalarEdits(ps, resolved);
    PlannableParts(model, intent, verified);
    ExpectedMeaning(ps, resolved);
    TargetsMeaning(ps, resolved);
    RealMutation(targets, ms, m);
    LeakFree(model.uses, targets, expected, u);
    var p :| p in ps && KeyOf(p.use) == KeyOf(u);
    PairFacts(model, intent, verified, p);
    RenderedUse(repo, sc, dirs, files, model.uses, u);
    SameUse(model.uses, p.use, u);
    TargetIsValid(sc, u);
    NotPinned(p, resolved);
  }

  lemma PlannableParts(model: Model, intent: Intent, verified: seq<Artifact>)
    requires Plannable(model, intent, verified)
    ensures var ps, resolved := Pairs(intent.changes, model.uses), ResolvedMap(verified);
            NoConflict(ps, resolved) && NoLeak(model.uses, ScalarEdits(ps, resolved), Expected(ps, resolved))
  {
    hide NoConflict, NoLeak, Pairs, ResolvedMap, Expected, ScalarEdits, IntentOk, Matched, DigestsAgree;
  }

  lemma LeakFree(uses: seq<Use>, targets: map<string, Mutation>, expected: map<UseKey, string>, u: Use)
    requires NoLeak(uses, targets, expected) && u in uses && u.target.Key() in targets && RealChange(targets[u.target.Key()])
    ensures KeyOf(u) in expected
  {
    hide KeyOf, LocationKey;
  }

  lemma NotPinned(p: Pair, resolved: map<string, Artifact>)
    requires PinAllowed(p, resolved) && p.use.target.tagOnly
    ensures '@' !in p.use.effectiveImage && Next(p, resolved) == WithTag(p.use.effectiveImage, p.change.tag) && Raw(p, resolved) == p.change.tag
  {
    hide WithTag;
  }

  lemma RealMutation(targets: map<string, Mutation>, ms: seq<Mutation>, m: Mutation)
    requires IsMutationList(ms, targets) && m in ms
    ensures MutationKey(m) in targets && targets[MutationKey(m)] == m && RealChange(m)
  {
  }

  /** Where such a scalar is the last override, the new rendering is not the expected one. */
  lemma ShownFails(
    repo: Repo, sc: Scalars, sc': Scalars, dirs: seq<string>, files: seq<string>,
    model: Model, intent: Intent, verified: seq<Artifact>, ms: seq<Mutation>, after: Model, m: Mutation, j: nat)
    requires Drafted(repo, sc, sc', dirs, files, model, intent, verified, ms)
    requires ParsedUses(repo, sc', dirs, files) == Some(after.uses) && after.diagnostics == []
    requires m in ms && BadMutation(m) && ShownAt(model, after, ms, m, j)
    ensures KeyOf(after.uses[j]) == KeyOf(model.uses[j])
    ensures after.uses[j].effectiveImage != Wanted(model.uses[j], Expected(Pairs(intent.changes, model.uses), ResolvedMap(verified)))
  {
    hide ParsedUses, Plannable, IsMutationList, ScalarsAfter, ValidRef, TagOk, Expected, Pairs, ResolvedMap, DistinctKeys, UniqueDeclarations, SeparateKeys,
      LocationKey, EditsExcept, Corresponds, HasBad, TargetDecides, Strip, BadKeys, FromFile, WithTag, Wanted;
    var u, v, bad := model.uses[j], after.uses[j], BadKeys(ms);
    DraftIsEditsExcept(repo, sc, sc', dirs, files, model, intent, verified, ms);
    ParseRelated(repo, sc, sc', bad, dirs, files);
    assert Related(sc, sc', bad, u, v);
    ExposedHasBad(bad, u);
    assert Forked(sc, sc', u, v);
    RenderedUse(repo, sc, dirs, files, model.uses, u);
    ExposedTarget(sc, bad, u);
    MutationIsTagEdit(repo, sc, sc', dirs, files, model, intent, verified, ms, m);
    ExposedRequest(repo, sc, sc', dirs, files, model, intent, verified, ms, m, u);
    ForkIsSeen(sc, sc', u, v, m.location.value, m.newValue);
  }

  lemma ExposedHasBad(bad: set<string>, u: Use)
    requires Exposed(bad, u)
    ensures HasBad(bad, u.overrides)
  {
    assert BadAt(bad, u.overrides[|u.overrides| - 1]);
  }

  lemma ExposedTarget(sc: Scalars, bad: set<string>, u: Use)
    requires TargetDecides(sc, u) && Exposed(bad, u)
    ensures u.target == u.overrides[|u.overrides| - 1] && u.target.tagOnly
  {
    hide ValidRef, TagOk, Strip, Tail, HasBad;
  }

  lemma ForkIsSeen(sc: Scalars, sc': Scalars, u: Use, v: Use, before: string, tag: string)
    requires Forked(sc, sc', u, v) && ValidRef(u.effectiveImage) && '@' !in u.effectiveImage && !TagOk(before)
    requires var key := u.overrides[|u.overrides| - 1].Key(); At(sc, key).value == before && At(sc', key).value == tag
    ensures v.effectiveImage != WithTag(u.effectiveImage, tag)
  {
    hide ValidRef, TagOk, Strip;
    var stem :| '@' !in stem && u.effectiveImage == stem + ":" + before && v.effectiveImage == stem + ":" + tag;
    StemGrows(stem, before);
  }

  /** The exact condition: the check that renders again accepts the plan if and only if every
      edited `newTag` held a tag, wherever one that did not is the last override that applies. */
  lemma CommutesExactlyForTags(
    repo: Repo, sc: Scalars, sc': Scalars, dirs: seq<string>, files: seq<string>,
    model: Model, intent: Intent, verified: seq<Artifact>, ms: seq<Mutation>, after: Model)
    requires Drafted(repo, sc, sc', dirs, files, model, intent, verified, ms)
    requires after.diagnostics == [] <==> ParsedUses(repo, sc', dirs, files).Some?
    requires after.diagnostics == [] ==> after.uses == ParsedUses(repo, sc', dirs, files).value
    requires AllShown(model, after, ms)
    ensures PostCheck(model.uses, after, Expected(Pairs(intent.changes, model.uses), ResolvedMap(verified))) <==> EditsValidTags(ms)
  {
    hide ParsedUses, Plannable, IsMutationList, ScalarsAfter, TagOk, Expected, Pairs, ResolvedMap, KeyOf, LastUses, DistinctKeys, UniqueDeclarations,
      SeparateKeys, ShownAt, Wanted;
    if EditsValidTags(ms) {
      PlanningCommutesWithRendering(repo, sc, sc', dirs, files, model, intent, verified, ms, after);
    } else if after.diagnostics == [] {
      var m :| m in ms && BadMutation(m);
      var j: nat :| ShownAt(model, after, ms, m, j);
      ShownFails(repo, sc, sc', dirs, files, model, intent, verified, ms, after, m, j);
      ShownInRange(model, after, ms, m, j);
      ParsedKeysDistinct(repo, sc', dirs, files);
      LastUsesMeaning(after.uses, j);
      assert !UseAsWanted(model.uses[j], LastUses(after.uses), Expected(Pairs(intent.changes, model.uses), ResolvedMap(verified)));
    }
  }

  lemma ShownInRange(model: Model, after: Model, ms: seq<Mutation>, m: Mutation, j: nat)
    requires ShownAt(model, after, ms, m, j) && after.diagnostics == []
    ensures j < |model.uses| && j < |after.uses|
  {
  }
}
