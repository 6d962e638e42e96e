/** Consequences of planning: containment, stable replanning, and nothing left to do. */
module PlanStability {
  import opened Strings
  import opened Sorting
  import opened ImageRefs
  import opened Repository
  import opened Render
  import opened Resolver
  import opened Targets
  import opened Lockstep
  import opened Origins
  import opened Tokens
  import opened Splice
  import opened Writer
  import opened Planner
  import opened PlanBuilder
  import opened PlanTheorems

  // ----- containment -----

  /** The image a use has after the plan, found by its key. */
  function ImageAfter(u: Use, after: Model): string {
    var byKey := LastUses(after.uses);
    if KeyOf(u) in byKey then byKey[KeyOf(u)].effectiveImage else ""
  }

  /** No change selects a use with this key. */
  ghost predicate Unselected(u: Use, uses: seq<Use>, changes: seq<Change>) {
    forall v, c :: v in uses && c in changes && KeyOf(v) == KeyOf(u) ==> !Selected(v, c)
  }

  lemma {:induction false} ImpactMeaning(uses: seq<Use>, expected: map<UseKey, string>, im: Impact)
    ensures im in ImpactOf(uses, expected) <==>
            exists u :: u in uses && Wanted(u, expected) != u.effectiveImage
                        && im == Impact(u.resource, u.container, u.environment, u.effectiveImage, Wanted(u, expected), u.target)
    decreases |uses|
  {
    hide Wanted;
    if uses != [] {
      ImpactMeaning(uses[..|uses| - 1], expected, im);
      assert uses == uses[..|uses| - 1] + [uses[|uses| - 1]];
    }
  }

  /** For any parser whatsoever: a returned plan changes exactly what was asked for. Every use
      survives; a selected use has exactly the requested image, a use that shares no key with a
      selected one keeps its own; the impact lists exactly the uses whose image differs; and
      every change and every named environment selected something. */
  lemma PlanIsContained(
    yaml: Yaml, parse: ParseFiles, model: Model, files: Files, intent: Intent, verified: seq<Artifact>, p: Plan)
    requires Plannable(model, intent, verified) && IsPlan(yaml, model, files, intent, verified, p)
    requires RendersAsWanted(yaml, parse, model, files, intent, verified, p.mutations)
    ensures var after := parse(Applied(yaml, files, p.mutations));
            && (forall u :: u in model.uses ==> KeyOf(u) in LastUses(after.uses))
            && (forall u, c :: u in model.uses && c in intent.changes && Selected(u, c) ==>
                  ImageAfter(u, after) == Next(Pair(c, u), ResolvedMap(verified)))
            && (forall u :: u in model.uses && Unselected(u, model.uses, intent.changes) ==>
                  ImageAfter(u, after) == u.effectiveImage)
            && (forall im :: im in p.impact <==>
                  exists u :: u in model.uses && ImageAfter(u, after) != u.effectiveImage
                              && im == Impact(u.resource, u.container, u.environment, u.effectiveImage, ImageAfter(u, after), u.target))
    ensures forall c :: c in intent.changes ==> Matched(c, model.uses)
    ensures Ascending(MutationKey, p.mutations) && forall m :: m in p.mutations ==> RealChange(m)
  {
    hide NoConflict, Pairs, Expected, ScalarEdits, Next, KeyOf, LastUses, IntentOk, Matched, Selected, Applied, Applicable,
      ResolvedMap, ImpactOf, DiffsOf, IsArtifactList, RealChange, MutationKey, Ascending, DigestsAgree, NoLeak;
    var ps, resolved := Pairs(intent.changes, model.uses), ResolvedMap(verified);
    var expected := Expected(ps, resolved);
    var after := parse(Applied(yaml, files, p.mutations));
    ExpectedMeaning(ps, resolved);
    forall u, c | u in model.uses && c in intent.changes && Selected(u, c)
      ensures ImageAfter(u, after) == Next(Pair(c, u), resolved)
    {
      PairsMeaning(intent.changes, model.uses, Pair(c, u));
    }
    forall u | u in model.uses && Unselected(u, model.uses, intent.changes)
      ensures ImageAfter(u, after) == u.effectiveImage
    {
      if KeyOf(u) in expected {
        var q :| q in ps && KeyOf(q.use) == KeyOf(u);
        PairsMeaning(intent.changes, model.uses, q);
      }
    }
    assert forall u :: u in model.uses ==> ImageAfter(u, after) == Wanted(u, expected);
    forall im
      ensures im in p.impact <==>
              exists u :: u in model.uses && ImageAfter(u, after) != u.effectiveImage
                          && im == Impact(u.resource, u.container, u.environment, u.effectiveImage, ImageAfter(u, after), u.target)
    {
      ImpactMeaning(model.uses, expected, im);
    }
  }

  // ----- replanning -----

  /** Two artifact tables that answer the planner's questions alike. */
  ghost predicate SameAnswers(ps: seq<Pair>, a: map<string, Artifact>, b: map<string, Artifact>) {
    forall p :: p in ps ==> PinFor(p, a) == PinFor(p, b)
  }

  lemma {:induction false} SameRequests(ps: seq<Pair>, a: map<string, Artifact>, b: map<string, Artifact>)
    requires SameAnswers(ps, a, b)
    ensures Expected(ps, a) == Expected(ps, b) && ScalarEdits(ps, a) == ScalarEdits(ps, b)
    ensures NoConflict(ps, a) ==> NoConflict(ps, b)
    decreases |ps|
  {
    hide PinFor, WithTag, DigestOk, KeyOf, LocationKey, Pinned;
    forall p | p in ps
      ensures Next(p, a) == Next(p, b) && Raw(p, a) == Raw(p, b) && PinAllowed(p, a) == PinAllowed(p, b)
    {
    }
    if ps != [] {
      assert ps[|ps| - 1] in ps;
      SameRequests(ps[..|ps| - 1], a, b);
    }
    if NoConflict(ps, a) {
      forall p, q | p in ps && q in ps
        ensures PairsAgree(p, q, b)
      {
        assert PairsAgree(p, q, a);
      }
    }
  }

  lemma NameIsItsOwnName(image: string)
    requires ValidRef(image)
    ensures ImageName(ImageName(image)) == ImageName(image)
  {
    hide NameOk, Normalize, Strip, TagOk, DigestOk, TagPart, DigestPart;
    NormalizeStable(Strip(image));
    NameParts(Normalize(Strip(image)));
  }

  /** The artifact recorded for a selected use answers for it: same name, tag and digest. */
  lemma RecordedArtifact(p: Pair, resolved: map<string, Artifact>)
    requires ValidRef(p.use.effectiveImage) && TagOk(p.change.tag) && PinAllowed(p, resolved)
    ensures var a := ArtifactFor(Next(p, resolved), resolved);
            && VerifiedKey(a) == ArtifactKey(a) == ImageName(p.use.effectiveImage) + ":" + p.change.tag
            && a.digest == PinFor(p, resolved)
  {
    hide ValidRef, Strip, Tail, Normalize, TagOk, Next, PinAllowed, TagPart;
    RequestShape(p, resolved);
    NameIsItsOwnName(p.use.effectiveImage);
  }

  lemma ArtifactListAnswers(
    model: Model, intent: Intent, verified: seq<Artifact>, list: seq<Artifact>)
    requires Plannable(model, intent, verified)
    requires forall u :: u in model.uses ==> ValidRef(u.effectiveImage)
    requires IsArtifactList(list, model.uses, Expected(Pairs(intent.changes, model.uses), ResolvedMap(verified)), ResolvedMap(verified))
    ensures DigestsAgree(list)
    ensures forall p :: p in Pairs(intent.changes, model.uses) ==>
                          DigestFor(ResolvedMap(list), ImageName(p.use.effectiveImage) + ":" + p.change.tag) == PinFor(p, ResolvedMap(verified))
  {
    hide Pairs, Expected, ScalarEdits, Next, ArtifactFor, ImageName, ValidRef, KeyOf, IntentOk, Matched, Selected, NoLeak, NoConflict, TagOk, PinAllowed;
    var ps, resolved := Pairs(intent.changes, model.uses), ResolvedMap(verified);
    var expected := Expected(ps, resolved);
    ExpectedMeaning(ps, resolved);
    forall a | a in list
      ensures VerifiedKey(a) == ArtifactKey(a)
    {
      var u :| u in model.uses && KeyOf(u) in expected && a == ArtifactFor(expected[KeyOf(u)], resolved);
      var p :| p in ps && KeyOf(p.use) == KeyOf(u);
      PairFacts(model, intent, verified, p);
      RecordedArtifact(p, resolved);
    }
    AscendingKeysDiffer(list);
    ResolvedMeaning(list);
    forall p | p in ps
      ensures DigestFor(ResolvedMap(list), ImageName(p.use.effectiveImage) + ":" + p.change.tag) == PinFor(p, resolved)
    {
      PairFacts(model, intent, verified, p);
      RecordedArtifact(p, resolved);
      var a := ArtifactFor(Next(p, resolved), resolved);
      assert ResultsIn(a, model.uses, expected, resolved);
      assert a in list;
    }
  }

  lemma AscendingKeysDiffer(list: seq<Artifact>)
    requires Ascending(ArtifactKey, list)
    ensures forall i, j :: 0 <= i < j < |list| ==> ArtifactKey(list[i]) != ArtifactKey(list[j])
  {
    hide ArtifactKey;
    forall i, j | 0 <= i < j < |list|
      ensures ArtifactKey(list[i]) != ArtifactKey(list[j])
    {
      LessIrreflexive(ArtifactKey(list[i]));
    }
  }

  /** Replanning from the plan's own artifacts: the same intent on the same files is again
      plannable, renders as wanted, and every plan it can yield has position by position the
      same mutations, impact and diffs. An undisturbed plan is never rejected as different. */
  lemma ReplanIsStable(
    yaml: Yaml, parse: ParseFiles, model: Model, files: Files, intent: Intent, verified: seq<Artifact>, p: Plan)
    requires Plannable(model, intent, verified) && IsPlan(yaml, model, files, intent, verified, p)
    requires RendersAsWanted(yaml, parse, model, files, intent, verified, p.mutations)
    requires forall u :: u in model.uses ==> ValidRef(u.effectiveImage)
    ensures Plannable(model, intent, p.artifacts)
    ensures RendersAsWanted(yaml, parse, model, files, intent, p.artifacts, p.mutations)
    ensures IsMutationList(p.mutations, ScalarEdits(Pairs(intent.changes, model.uses), ResolvedMap(p.artifacts)))
    ensures forall q :: IsPlan(yaml, model, files, intent, p.artifacts, q) ==>
                          q.mutations == p.mutations && q.diffs == p.diffs && q.impact == p.impact
  {
    hide Pairs, Expected, ScalarEdits, KeyOf, IntentOk, Matched, NoLeak, NoConflict, ValidRef, PostCheck, Applicable, Applied,
      ImpactOf, DiffsOf, IsArtifactList, IsMutationList, DigestsAgree, ResolvedMap;
    var ps, resolved, again := Pairs(intent.changes, model.uses), ResolvedMap(verified), ResolvedMap(p.artifacts);
    ArtifactListAnswers(model, intent, verified, p.artifacts);
    SameRequests(ps, resolved, again);
    OneMutationList(ScalarEdits(ps, resolved));
  }

  // ----- planning again after the plan was applied -----

  lemma CorrespondingSelection(repo: Repo, sc: Scalars, sc': Scalars, u: Use, u': Use, c: Change)
    requires Corresponds(sc, sc', u, u') && TagEdits(repo, sc, sc')
    requires IsDeclarationKey(repo, u.source.Key())
    ensures Selected(u', c) <==> Selected(u, c)
    ensures Pinned(u') <==> Pinned(u)
    ensures ImageName(u'.effectiveImage) == ImageName(u.effectiveImage)
  {
    hide NameOk, Normalize, TagOk, DigestOk, Tail, IsDeclarationKey, IsNameKey, IsTagKey, LocationKey, Strip, TagPart, DigestPart;
    var key := u.source.Key();
    assert u'.source.Key() == key;
    assert TagEdit(repo, key, At(sc, key).value, At(sc', key).value);
    SameNames(u.sourceImage, u'.sourceImage);
    SameNames(u.effectiveImage, u'.effectiveImage);
  }

  lemma SameNames(a: string, b: string)
    requires ValidRef(a) && ValidRef(b) && Strip(a) == Strip(b)
    ensures ImageName(a) == ImageName(b)
  {
  }

  /** For a use that was selected, the request made of its new rendering is already satisfied. */
  lemma AlreadySatisfied(
    repo: Repo, sc: Scalars, sc': Scalars, model: Model, intent: Intent, verified: seq<Artifact>, again: map<string, Artifact>, p: Pair, u': Use)
    requires Corresponds(sc, sc', p.use, u') && TagOk(p.change.tag)
    requires PinAllowed(p, ResolvedMap(verified))
    requires Pinned(u') <==> Pinned(p.use)
    requires u'.effectiveImage == Next(p, ResolvedMap(verified))
    requires At(sc', p.use.target.Key()).value == Raw(p, ResolvedMap(verified))
    requires ImageName(u'.effectiveImage) == ImageName(p.use.effectiveImage)
    requires PinFor(p, again) == PinFor(p, ResolvedMap(verified))
    ensures var p' := Pair(p.change, u');
            && PinAllowed(p', again)
            && Next(p', again) == u'.effectiveImage
            && Raw(p', again) == u'.target.value
  {
    hide ValidRef, TagOk, DigestOk, Strip, Tail, TagPart, LocationKey, Pinned, ImageName, ResolvedMap, DigestFor;
    var resolved := ResolvedMap(verified);
    var p' := Pair(p.change, u');
    TargetIsValid(sc, p.use);
    TargetIsValid(sc', u');
    RequestShape(p, resolved);
    assert PinFor(p', again) == PinFor(p, resolved);
    assert PinSuffix(p', again) == PinSuffix(p, resolved);
    assert u'.target.Key() == p.use.target.Key();
    assert u'.target.value == Raw(p, resolved);
    assert WithTag(u'.effectiveImage, p.change.tag) == WithTag(p.use.effectiveImage, p.change.tag);
    if !p.use.target.tagOnly {
      assert WithTag(u'.target.value, p.change.tag) == WithTag(p.use.target.value, p.change.tag);
    }
  }

  /** The situation once a plan has been applied and the repository parsed again, with the
      artifacts the plan recorded. */
  ghost predicate Replanned(
    repo: Repo, sc: Scalars, sc': Scalars, dirs: seq<string>, files: seq<string>,
    model: Model, intent: Intent, verified: seq<Artifact>, ms: seq<Mutation>, after: Model, list: seq<Artifact>)
  {
    && Planned(repo, sc, sc', dirs, files, model, intent, verified, ms)
    && after.diagnostics == [] && ParsedUses(repo, sc', dirs, files) == Some(after.uses)
    && IsArtifactList(list, model.uses, Expected(Pairs(intent.changes, model.uses), ResolvedMap(verified)), ResolvedMap(verified))
  }

  /** Every pair selected after the edits mirrors one selected before, and asks for what is
      already there. */
  lemma PairSatisfied(
    repo: Repo, sc: Scalars, sc': Scalars, dirs: seq<string>, files: seq<string>,
    model: Model, intent: Intent, verified: seq<Artifact>, ms: seq<Mutation>, after: Model, list: seq<Artifact>, p': Pair)
    requires Replanned(repo, sc, sc', dirs, files, model, intent, verified, ms, after, list)
    requires AllCorrespond(sc, sc', model.uses, after.uses) && TagEdits(repo, sc, sc')
    requires forall u :: u in model.uses ==> TargetDecides(sc, u) && exists f :: FromFile(repo, u, f)
    requires p' in Pairs(intent.changes, after.uses)
    ensures p'.use in after.uses && PinAllowed(p', ResolvedMap(list))
    ensures Next(p', ResolvedMap(list)) == p'.use.effectiveImage && Raw(p', ResolvedMap(list)) == p'.use.target.value
    ensures p'.use.target.value == At(sc', p'.use.target.Key()).value
  {
    hide ParsedUses, NoConflict, Pairs, Expected, ScalarEdits, Next, Raw, KeyOf, IntentOk, Matched, Selected, TagEdits, Corresponds,
      TargetDecides, FromFile, PinAllowed, ImageName, TagOk, NoLeak, LocationKey, IsArtifactList, IsMutationList, SeparateKeys, UniqueDeclarations, ScalarsAfter, EditsValidTags, PinFor;
    PairsMeaning(intent.changes, after.uses, p');
    var c := p'.change;
    var i :| 0 <= i < |after.uses| && after.uses[i] == p'.use;
    var u := model.uses[i];
    var p := Pair(c, u);
    var resolved := ResolvedMap(verified);
    assert u in model.uses;
    SeparateInRenders(repo, sc, dirs, files, model.uses);
    OriginKeys(repo, u);
    CorrespondingSelection(repo, sc, sc', u, p'.use, c);
    PairsMeaning(intent.changes, model.uses, p);
    PairFacts(model, intent, verified, p);
    UseFollowsPlan(repo, sc, sc', dirs, files, model, intent, verified, ms, u, p'.use);
    assert p'.use.effectiveImage == Next(p, resolved) by {
      ExpectedMeaning(Pairs(intent.changes, model.uses), resolved);
    }
    AllTargetValues(sc, model.uses);
    TargetHoldsRequest(sc, sc', model, intent, verified, ms, p);
    AllValid(sc, model.uses);
    ArtifactListAnswers(model, intent, verified, list);
    assert PinFor(p, ResolvedMap(list)) == PinFor(p, resolved) by {
      PinForIsLookup(p, ResolvedMap(list));
    }
    AlreadySatisfied(repo, sc, sc', model, intent, verified, ResolvedMap(list), p, p'.use);
    CorrespondingTarget(sc, sc', u, p'.use);
  }

  lemma PinForIsLookup(p: Pair, resolved: map<string, Artifact>)
    ensures PinFor(p, resolved) == DigestFor(resolved, ImageName(p.use.effectiveImage) + ":" + p.change.tag)
  {
  }

  lemma AllTargetValues(sc: Scalars, uses: seq<Use>)
    requires forall u :: u in uses ==> TargetDecides(sc, u)
    ensures forall u :: u in uses ==> u.target.value == At(sc, u.target.Key()).value
  {
  }

  lemma AllValid(sc: Scalars, uses: seq<Use>)
    requires forall u :: u in uses ==> TargetDecides(sc, u)
    ensures forall u :: u in uses ==> ValidRef(u.effectiveImage)
  {
    hide ValidRef, TagOk, Tail;
  }

  lemma CorrespondingTarget(sc: Scalars, sc': Scalars, u: Use, u': Use)
    requires Corresponds(sc, sc', u, u')
    ensures u'.target.value == At(sc', u'.target.Key()).value
  {
    hide ValidRef, TagOk, Tail, Strip, LocationKey;
  }

  /** Planning the same intent again after the plan was applied succeeds, with no mutation and
      empty impact: for tagged, renamed, overridden and digest-pinned images alike. */
  lemma PlanningAgainIsNoOp(
    repo: Repo, sc: Scalars, sc': Scalars, dirs: seq<string>, files: seq<string>,
    model: Model, intent: Intent, verified: seq<Artifact>, ms: seq<Mutation>, after: Model, list: seq<Artifact>)
    requires Replanned(repo, sc, sc', dirs, files, model, intent, verified, ms, after, list)
    ensures Plannable(after, intent, list)
    ensures var ps', again := Pairs(intent.changes, after.uses), ResolvedMap(list);
            && IsMutationList([], ScalarEdits(ps', again))
            && ImpactOf(after.uses, Expected(ps', again)) == []
            && PostCheck(after.uses, after, Expected(ps', again))
  {
    hide ParsedUses, NoConflict, Pairs, Expected, ScalarEdits, KeyOf, IntentOk, Matched, Selected, TagEdits, Corresponds, Next, Raw,
      TargetDecides, FromFile, PinAllowed, LocationKey, IsArtifactList, IsMutationList, SeparateKeys, UniqueDeclarations,
      ScalarsAfter, EditsValidTags, PostCheck, NoLeak, DistinctKeys, DigestsAgree;
    PlanningCommutesWithRendering(repo, sc, sc', dirs, files, model, intent, verified, ms, after);
    PlanIsTagEdits(repo, sc, sc', dirs, files, model, intent, verified, ms);
    forall u | u in model.uses
      ensures TargetDecides(sc, u) && exists f :: FromFile(repo, u, f)
    {
      RenderedUse(repo, sc, dirs, files, model.uses, u);
    }
    AllValid(sc, model.uses);
    ArtifactListAnswers(model, intent, verified, list);
    var ps', again := Pairs(intent.changes, after.uses), ResolvedMap(list);
    forall p' | p' in ps'
      ensures p'.use in after.uses && PinAllowed(p', again)
      ensures Next(p', again) == p'.use.effectiveImage && Raw(p', again) == p'.use.target.value
      ensures p'.use.target.value == At(sc', p'.use.target.Key()).value
    {
      PairSatisfied(repo, sc, sc', dirs, files, model, intent, verified, ms, after, list, p');
    }
    ParsedKeysDistinct(repo, sc, dirs, files);
    CorrespondingKeys(sc, sc', model.uses, after.uses);
    SatisfiedPairs(sc', after.uses, ps', again);
    SatisfiedPlan(after.uses, ps', again);
    SatisfiedPostCheck(after, Expected(ps', again));
    forall c | c in intent.changes
      ensures Matched(c, after.uses)
    {
      StillMatched(repo, sc, sc', model.uses, after.uses, c);
    }
  }

  ghost predicate Satisfied(p: Pair, resolved: map<string, Artifact>) {
    PinAllowed(p, resolved) && Next(p, resolved) == p.use.effectiveImage && Raw(p, resolved) == p.use.target.value
  }

  lemma SatisfiedPairs(sc: Scalars, uses: seq<Use>, ps: seq<Pair>, resolved: map<string, Artifact>)
    requires DistinctKeys(uses)
    requires forall p :: p in ps ==> p.use in uses && Satisfied(p, resolved) && p.use.target.value == At(sc, p.use.target.Key()).value
    ensures NoConflict(ps, resolved)
  {
    hide PinAllowed, Next, Raw, KeyOf, LocationKey, DistinctKeys;
    forall p, q | p in ps && q in ps
      ensures PairsAgree(p, q, resolved)
    {
      if KeyOf(p.use) == KeyOf(q.use) {
        SameUse(uses, p.use, q.use);
      }
    }
  }

  lemma SatisfiedPlan(uses: seq<Use>, ps: seq<Pair>, resolved: map<string, Artifact>)
    requires DistinctKeys(uses) && NoConflict(ps, resolved)
    requires forall p :: p in ps ==> p.use in uses && Satisfied(p, resolved)
    ensures IsMutationList([], ScalarEdits(ps, resolved))
    ensures NoLeak(uses, ScalarEdits(ps, resolved), Expected(ps, resolved))
    ensures forall u :: u in uses ==> Wanted(u, Expected(ps, resolved)) == u.effectiveImage
    ensures ImpactOf(uses, Expected(ps, resolved)) == []
  {
    hide PinAllowed, Next, Raw, KeyOf, LocationKey, DistinctKeys, NoConflict, Expected, ScalarEdits, Satisfied, RealChange, Wanted, MutationKey;
    forall k | k in ScalarEdits(ps, resolved)
      ensures !RealChange(ScalarEdits(ps, resolved)[k])
    {
      NoRealChange(ps, resolved, k);
    }
    forall u | u in uses
      ensures Wanted(u, Expected(ps, resolved)) == u.effectiveImage
    {
      NothingWanted(uses, ps, resolved, u);
    }
    NoImpact(uses, Expected(ps, resolved));
  }

  lemma NoRealChange(ps: seq<Pair>, resolved: map<string, Artifact>, k: string)
    requires NoConflict(ps, resolved) && k in ScalarEdits(ps, resolved)
    requires forall p :: p in ps ==> Satisfied(p, resolved)
    ensures !RealChange(ScalarEdits(ps, resolved)[k])
  {
    hide PinAllowed, Next, Raw, LocationKey, NoConflict, ScalarEdits;
    TargetsMeaning(ps, resolved);
    var p :| p in ps && Asks(p, k, ScalarEdits(ps, resolved)[k], resolved);
    assert Satisfied(p, resolved);
  }

  lemma NothingWanted(uses: seq<Use>, ps: seq<Pair>, resolved: map<string, Artifact>, u: Use)
    requires DistinctKeys(uses) && NoConflict(ps, resolved) && u in uses
    requires forall p :: p in ps ==> p.use in uses && Satisfied(p, resolved)
    ensures Wanted(u, Expected(ps, resolved)) == u.effectiveImage
  {
    hide PinAllowed, Next, Raw, KeyOf, DistinctKeys, NoConflict, Expected;
    ExpectedMeaning(ps, resolved);
    if KeyOf(u) in Expected(ps, resolved) {
      var p :| p in ps && KeyOf(p.use) == KeyOf(u);
      SameUse(uses, p.use, u);
      assert Satisfied(p, resolved);
    }
  }

  lemma {:induction false} NoImpact(uses: seq<Use>, expected: map<UseKey, string>)
    requires forall u :: u in uses ==> Wanted(u, expected) == u.effectiveImage
    ensures ImpactOf(uses, expected) == []
  {
    hide Wanted;
    if uses != [] {
      assert uses[|uses| - 1] in uses;
      NoImpact(uses[..|uses| - 1], expected);
    }
  }

  lemma SatisfiedPostCheck(after: Model, expected: map<UseKey, string>)
    requires after.diagnostics == [] && DistinctKeys(after.uses)
    requires forall u :: u in after.uses ==> Wanted(u, expected) == u.effectiveImage
    ensures PostCheck(after.uses, after, expected)
  {
    hide Wanted, KeyOf, DistinctKeys, LastUses;
    forall u | u in after.uses
      ensures UseAsWanted(u, LastUses(after.uses), expected)
    {
      var i :| 0 <= i < |after.uses| && after.uses[i] == u;
      LastUsesMeaning(after.uses, i);
    }
  }

  lemma StillMatched(repo: Repo, sc: Scalars, sc': Scalars, us: seq<Use>, us': seq<Use>, c: Change)
    requires AllCorrespond(sc, sc', us, us') && TagEdits(repo, sc, sc') && Matched(c, us) && SeparateKeys(repo)
    requires forall u :: u in us ==> exists f :: FromFile(repo, u, f)
    ensures Matched(c, us')
  {
    hide Corresponds, TagEdits, Selected, FromFile, SeparateKeys;
    forall u | u in us && Selected(u, c)
      ensures exists u' :: u' in us' && Selected(u', c) && u'.environment == u.environment
    {
      var i :| 0 <= i < |us| && us[i] == u;
      OriginKeys(repo, u);
      CorrespondingSelection(repo, sc, sc', u, us'[i], c);
      CorrespondingEnvironment(sc, sc', u, us'[i]);
      assert us'[i] in us';
    }
  }

  lemma CorrespondingEnvironment(sc: Scalars, sc': Scalars, u: Use, u': Use)
    requires Corresponds(sc, sc', u, u')
    ensures u'.environment == u.environment
  {
  }

  // ----- why the tag hypothesis is needed -----

  /** The exact condition under which replacing an accepted `newTag` commutes with rendering,
      at the override that applies it: the old value is a grammatical tag. That the rendered
      image parses, which is all that is checked when the override is applied, is not enough. */
  lemma RetagCommutesExactlyForTags(image: string, before: string, tag: string)
    requires ValidRef(image) && '@' !in image && '@' !in before
    requires ValidRef(WithTag(image, before)) && TagOk(tag)
    ensures WithTag(WithTag(image, before), tag) == WithTag(image, tag) <==> TagOk(before)
  {
    hide NameOk;
    if TagOk(before) {
      WithTagAbsorbs(image, before, tag);
    } else {
      var s := Strip(image);
      var r := s + ":" + before;
      assert r[|s|] == ':';
      if '/' in before || ':' in before {
        StripKeepsMore(s, before);
      } else {
        TaggedParts(s, before);
      }
    }
  }

  lemma StripKeepsMore(s: string, v: string)
    requires '@' !in s && '@' !in v && ('/' in v || ':' in v)
    ensures |Strip(s + ":" + v)| > |s|
  {
    var r := s + ":" + v;
    assert '@' !in r;
    assert BeforeAt(r) == r;
    assert forall i :: 0 <= i < |v| ==> r[|s| + 1 + i] == v[i];
  }

  /** A whole family is accepted as `newTag` without being a tag: behind a host name, digits
      and a path turn the image name into a registry with a port, as `5000/b` does for `host:1`. */
  lemma PortAndPathIsNotATag(host: string, tag: string, port: string, path: string)
    requires HostOk(host) && NameOk(host) && TagOk(tag) && PathOk(path)
    requires port != "" && forall i :: 0 <= i < |port| ==> Digit(port[i])
    ensures ValidRef(host + ":" + tag)
    ensures ValidRef(WithTag(host + ":" + tag, port + "/" + path)) && !TagOk(port + "/" + path)
  {
    hide NameOk, DomainOk, HostOk, PathOk, ValidRef, TagOk, Strip;
    NameWithTag(host, tag);
    SlashIsNoTag(port + "/" + path, |port|);
    HostWithPort(host, port);
    var n := host + ":" + (port + "/" + path);
    assert n == (host + ":" + port) + "/" + path;
    QualifiedName(host + ":" + port, path, n);
    NameAlone(n);
  }

  lemma NameWithTag(name: string, tag: string)
    requires NameOk(name) && TagOk(tag)
    ensures ValidRef(name + ":" + tag) && Strip(name + ":" + tag) == name
  {
    hide NameOk;
    TagOkChars(tag);
    NameParts(name);
    TaggedParts(name, tag);
  }

  lemma NameAlone(name: string)
    requires NameOk(name)
    ensures ValidRef(name)
  {
    hide NameOk;
    NameParts(name);
  }

  lemma SlashIsNoTag(v: string, i: nat)
    requires i < |v| && v[i] == '/'
    ensures !TagOk(v)
  {
    assert !TagChar(v[i]);
  }

  lemma QualifiedName(domain: string, path: string, n: string)
    requires DomainOk(domain) && '/' !in domain && domain != "" && PathOk(path)
    requires n == domain + "/" + path
    ensures NameOk(n)
  {
    hide DomainOk, PathOk;
    assert forall i :: 0 <= i < |domain| ==> n[i] == domain[i];
    assert n[|domain|] == '/' && n[..|domain|] == domain && n[|domain| + 1..] == path;
    assert FirstIndex(n, '/') == |domain|;
  }

  lemma HostWithPort(host: string, port: string)
    requires HostOk(host) && port != "" && forall i :: 0 <= i < |port| ==> Digit(port[i])
    ensures var d := host + ":" + port; DomainOk(d) && '/' !in d && d != ""
  {
    var d := host + ":" + port;
    assert forall i :: 0 <= i < |host| ==> d[i] == host[i] && d[i] != ':' && d[i] != '/';
    assert forall i :: |host| < i < |d| ==> d[i] == port[i - |host| - 1];
    assert d[|host|] == ':' && d[..|host|] == host;
    assert FirstIndex(d, ':') == |host|;
  }
}
