/** Planning against rendering: edits commute with rendering, plans are contained,
    repeatable, and have nothing left to do once applied. */
module PlanTheorems {
  import opened Strings
  import opened Sorting
  import opened ImageRefs
  import opened Repository
  import opened Render
  import opened Resolver
  import opened Targets
  import opened Lockstep
  import opened Origins
  import opened Tokens
  import opened Writer
  import opened WriterLaws
  import opened Planner
  import opened PlanBuilder

  /** Scalars named by overrides, tags and image declarations are different scalars. */
  ghost predicate SeparateKeys(repo: Repo) {
    forall key ::
      !(IsNameKey(repo, key) && IsTagKey(repo, key))
      && !(IsDeclarationKey(repo, key) && (IsNameKey(repo, key) || IsTagKey(repo, key)))
  }

  /** The parser's view of one revision: a clean rendering of `repo` with scalars `sc`. */
  ghost predicate Renders(repo: Repo, sc: Scalars, dirs: seq<string>, files: seq<string>, uses: seq<Use>) {
    && InOrder(dirs, repo.ks.Keys) && InOrder(files, repo.files)
    && UniqueDeclarations(repo) && SeparateKeys(repo)
    && ParsedUses(repo, sc, dirs, files) == Some(uses)
  }

  /** `sc'` has the new values at the mutated locations and the old ones elsewhere;
      positions may have moved. */
  ghost predicate ScalarsAfter(sc: Scalars, sc': Scalars, ms: seq<Mutation>) {
    && (forall m :: m in ms ==> At(sc', MutationKey(m)).value == m.newValue)
    && (forall key :: (forall m :: m in ms ==> MutationKey(m) != key) ==> At(sc', key).value == At(sc, key).value)
  }

  /** Every `newTag` scalar about to be edited holds a grammatical tag. */
  ghost predicate EditsValidTags(ms: seq<Mutation>) {
    forall m :: m in ms && m.location.tagOnly ==> TagOk(m.location.value)
  }

  // ----- facts about one selected use -----

  lemma RenderedUse(repo: Repo, sc: Scalars, dirs: seq<string>, files: seq<string>, uses: seq<Use>, u: Use)
    requires Renders(repo, sc, dirs, files, uses) && u in uses
    ensures TargetDecides(sc, u)
    ensures exists f :: FromFile(repo, u, f)
    ensures DistinctKeys(uses)
  {
    hide ParsedUses, TargetDecides, FromFile, UniqueDeclarations, SeparateKeys, DistinctKeys;
    ParsedTargetsDecide(repo, sc, dirs, files);
    ParsedKeysDistinct(repo, sc, dirs, files);
  }

  lemma OriginKeys(repo: Repo, u: Use)
    requires exists f :: FromFile(repo, u, f)
    requires SeparateKeys(repo)
    ensures IsDeclarationKey(repo, u.source.Key())
    ensures u.target.tagOnly ==> IsTagKey(repo, u.target.Key()) && !IsNameKey(repo, u.target.Key()) && !IsDeclarationKey(repo, u.target.Key())
    ensures !u.target.tagOnly ==> u.target == u.source && !IsNameKey(repo, u.target.Key()) && !IsTagKey(repo, u.target.Key())
  {
    hide LocationKey, IsDeclarationKey, IsNameKey, IsTagKey;
    var f :| FromFile(repo, u, f);
    var i: nat :| ComesFrom(repo, u, f, i);
  }

  /** What a pin-checked, conflict-free request writes, in terms of names and tails. */
  lemma RequestShape(p: Pair, resolved: map<string, Artifact>)
    requires ValidRef(p.use.effectiveImage) && TagOk(p.change.tag) && PinAllowed(p, resolved)
    ensures Next(p, resolved) == Strip(p.use.effectiveImage) + (":" + p.change.tag + PinSuffix(p, resolved))
    ensures Strip(Next(p, resolved)) == Strip(p.use.effectiveImage)
    ensures Tail(Next(p, resolved)) == ":" + p.change.tag + PinSuffix(p, resolved)
    ensures ValidRef(Next(p, resolved)) && TagPart(Next(p, resolved)) == Some(p.change.tag)
    ensures '@' in Next(p, resolved) <==> Pinned(p.use)
    ensures p.use.target.tagOnly ==> Raw(p, resolved) == p.change.tag && !Pinned(p.use)
    ensures !p.use.target.tagOnly ==>
              && Strip(Raw(p, resolved)) == Strip(p.use.target.value)
              && Tail(Raw(p, resolved)) == ":" + p.change.tag + PinSuffix(p, resolved)
              && ('@' in Raw(p, resolved) <==> Pinned(p.use))
              && (ValidRef(p.use.target.value) ==> ValidRef(Raw(p, resolved)))
  {
    hide ValidRef, TagOk, DigestOk, Strip, Tail, PinFor, TagPart, WithTag;
    var u, t := p.use, p.change.tag;
    SuffixShape(u.effectiveImage, t, PinSuffix(p, resolved), PinFor(p, resolved));
    SuffixShape(u.target.value, t, PinSuffix(p, resolved), PinFor(p, resolved));
  }

  /** The requested image is the old name followed by what the requested scalar says. */
  lemma NextFromRaw(sc: Scalars, p: Pair, resolved: map<string, Artifact>)
    requires TargetDecides(sc, p.use) && TagOk(p.change.tag) && PinAllowed(p, resolved)
    ensures p.use.target.tagOnly ==>
              TagOk(Raw(p, resolved)) && Next(p, resolved) == Strip(p.use.effectiveImage) + (":" + Raw(p, resolved))
    ensures !p.use.target.tagOnly ==> Next(p, resolved) == Strip(p.use.effectiveImage) + Tail(Raw(p, resolved))
  {
    hide ValidRef, TagOk, Strip, Tail, TagPart, PinFor, Next, Raw, PinAllowed, TargetDecides;
    TargetIsValid(sc, p.use);
    RequestShape(p, resolved);
    var t := p.change.tag;
    assert ":" + t + "" == ":" + t;
  }

  lemma SuffixShape(raw: string, t: string, suffix: string, d: string)
    requires TagOk(t) && (suffix == "" || (suffix == "@" + d && DigestOk(d)))
    ensures var x := WithTag(raw, t) + suffix;
            && Strip(x) == Strip(raw) && Tail(x) == ":" + t + suffix
            && x == Strip(raw) + (":" + t + suffix)
            && TagPart(x) == Some(t)
            && ('@' in x <==> suffix != "")
            && (ValidRef(raw) ==> ValidRef(x))
  {
    hide ValidRef, TagOk, DigestOk, Strip, Tail, TagPart, FirstIndex, LastIndex;
    var w := WithTag(raw, t);
    WithTagLaws(raw, t);
    assert w == Strip(raw) + (":" + t);
    if suffix != "" {
      PinLaws(raw, t, d);
      assert w + "@" + d == w + suffix;
      assert ":" + t + "@" + d == ":" + t + suffix;
    } else {
      assert w + suffix == w && ":" + t + suffix == ":" + t;
    }
  }

  // ----- planning commutes with rendering -----

  /** A plannable intent on a clean repository, its mutations, and the scalars after them. */
  ghost predicate Drafted(
    repo: Repo, sc: Scalars, sc': Scalars, dirs: seq<string>, files: seq<string>,
    model: Model, intent: Intent, verified: seq<Artifact>, ms: seq<Mutation>)
  {
    && Renders(repo, sc, dirs, files, model.uses)
    && Plannable(model, intent, verified)
    && IsMutationList(ms, ScalarEdits(Pairs(intent.changes, model.uses), ResolvedMap(verified)))
    && ScalarsAfter(sc, sc', ms)
  }

  /** The situation of the theorems: all that, and every edited `newTag` held a tag. */
  ghost predicate Planned(
    repo: Repo, sc: Scalars, sc': Scalars, dirs: seq<string>, files: seq<string>,
    model: Model, intent: Intent, verified: seq<Artifact>, ms: seq<Mutation>)
  {
    Drafted(repo, sc, sc', dirs, files, model, intent, verified, ms) && EditsValidTags(ms)
  }

  lemma PairFacts(model: Model, intent: Intent, verified: seq<Artifact>, p: Pair)
    requires Plannable(model, intent, verified) && p in Pairs(intent.changes, model.uses)
    ensures p.use in model.uses && p.change in intent.changes && Selected(p.use, p.change)
    ensures TagOk(p.change.tag) && PinAllowed(p, ResolvedMap(verified))
  {
    hide Selected, TagOk, NameOnly, PinAllowed, PairsAgree;
    PairsMeaning(intent.changes, model.uses, p);
  }

  lemma MutationOrigin(model: Model, intent: Intent, verified: seq<Artifact>, ms: seq<Mutation>, m: Mutation) returns (p: Pair)
    requires Plannable(model, intent, verified) && m in ms
    requires IsMutationList(ms, ScalarEdits(Pairs(intent.changes, model.uses), ResolvedMap(verified)))
    ensures p in Pairs(intent.changes, model.uses)
    ensures m == Mutation(p.use.target, Raw(p, ResolvedMap(verified)))
  {
    hide Raw, NoConflict, Pairs, RealChange, LocationKey, IntentOk, Matched, ScalarEdits;
    var ps, resolved := Pairs(intent.changes, model.uses), ResolvedMap(verified);
    TargetsMeaning(ps, resolved);
    p :| p in ps && Asks(p, MutationKey(m), ScalarEdits(ps, resolved)[MutationKey(m)], resolved);
  }

  lemma MutationIsTagEdit(
    repo: Repo, sc: Scalars, sc': Scalars, dirs: seq<string>, files: seq<string>,
    model: Model, intent: Intent, verified: seq<Artifact>, ms: seq<Mutation>, m: Mutation)
    requires Drafted(repo, sc, sc', dirs, files, model, intent, verified, ms) && m in ms
    ensures m.location.tagOnly ==> !IsNameKey(repo, MutationKey(m)) && !IsDeclarationKey(repo, MutationKey(m))
    ensures m.location.value == At(sc, MutationKey(m)).value && m.newValue == At(sc', MutationKey(m)).value
    ensures (m.location.tagOnly ==> TagOk(m.location.value)) ==>
              TagEdit(repo, MutationKey(m), At(sc, MutationKey(m)).value, At(sc', MutationKey(m)).value)
  {
    hide Renders, Plannable, IsMutationList, ValidRef, TagOk, Strip, Tail, TagPart, LocationKey, Next, Raw,
      PinAllowed, IsDeclarationKey, IsNameKey, IsTagKey, FromFile, Selected, SeparateKeys, PinSuffix;
    var resolved := ResolvedMap(verified);
    var p := MutationOrigin(model, intent, verified, ms, m);
    PairFacts(model, intent, verified, p);
    RenderedUse(repo, sc, dirs, files, model.uses, p.use);
    SeparateInRenders(repo, sc, dirs, files, model.uses);
    OriginKeys(repo, p.use);
    TargetIsValid(sc, p.use);
    RequestShape(p, resolved);
    TargetValid(sc, p.use);
  }

  lemma SeparateInRenders(repo: Repo, sc: Scalars, dirs: seq<string>, files: seq<string>, uses: seq<Use>)
    requires Renders(repo, sc, dirs, files, uses)
    ensures SeparateKeys(repo)
  {
  }

  /** A pinned source shows in the rendered image, as long as the source decides it. */
  lemma TargetValid(sc: Scalars, u: Use)
    requires TargetDecides(sc, u)
    ensures !u.target.tagOnly && u.target == u.source ==>
              ValidRef(u.target.value) && ('@' in u.target.value <==> '@' in u.effectiveImage) && ('@' in u.target.value <==> Pinned(u))
  {
    hide ValidRef, TagOk, Strip;
    if !u.target.tagOnly && u.target == u.source {
      assert u.target.value == Strip(u.target.value) + Tail(u.target.value);
      assert u.effectiveImage == Strip(u.effectiveImage) + Tail(u.effectiveImage);
    }
  }

  /** Every value a plan writes is a tag or a reference, so it reads back in any quoting style. */
  lemma PlannedEditsAreWritable(
    repo: Repo, sc: Scalars, dirs: seq<string>, names: seq<string>,
    model: Model, intent: Intent, verified: seq<Artifact>, ms: seq<Mutation>, yaml: Yaml, files: Files)
    requires Renders(repo, sc, dirs, names, model.uses) && Plannable(model, intent, verified)
    requires IsMutationList(ms, ScalarEdits(Pairs(intent.changes, model.uses), ResolvedMap(verified)))
    ensures AllWritable(yaml, files, ms)
  {
    hide Renders, Plannable, IsMutationList, TargetDecides, ValidRef, TagOk, PinAllowed, Raw, Writable, EditFor, FromFile;
    forall m | m in ms && Locatable(yaml, files, m)
      ensures WritableAt(yaml, files[m.location.file], m)
    {
      var p := MutationOrigin(model, intent, verified, ms, m);
      PairFacts(model, intent, verified, p);
      RenderedUse(repo, sc, dirs, names, model.uses, p.use);
      SeparateInRenders(repo, sc, dirs, names, model.uses);
      OriginKeys(repo, p.use);
      TargetIsValid(sc, p.use);
      TargetValid(sc, p.use);
      RequestShape(p, ResolvedMap(verified));
      ReferencesAreWritable(yaml, files[m.location.file][EditFor(yaml, files[m.location.file], m).value.start], m.newValue);
    }
  }

  lemma PlanIsTagEdits(
    repo: Repo, sc: Scalars, sc': Scalars, dirs: seq<string>, files: seq<string>,
    model: Model, intent: Intent, verified: seq<Artifact>, ms: seq<Mutation>)
    requires Planned(repo, sc, sc', dirs, files, model, intent, verified, ms)
    ensures TagEdits(repo, sc, sc')
  {
    hide TagEdit, TagOk, Renders, Plannable, IsMutationList, MutationKey;
    forall key
      ensures TagEdit(repo, key, At(sc, key).value, At(sc', key).value)
    {
      if m :| m in ms && MutationKey(m) == key {
        MutationIsTagEdit(repo, sc, sc', dirs, files, model, intent, verified, ms, m);
      } else {
        NothingEdited(repo, key, At(sc, key).value);
      }
    }
  }

  lemma NothingEdited(repo: Repo, key: string, v: string)
    ensures TagEdit(repo, key, v, v)
  {
  }

  /** After the edits, the target of a selected use holds what the request asked for,
      whether or not that was a change. */
  lemma TargetHoldsRequest(sc: Scalars, sc': Scalars, model: Model, intent: Intent, verified: seq<Artifact>, ms: seq<Mutation>, p: Pair)
    requires Plannable(model, intent, verified) && ScalarsAfter(sc, sc', ms)
    requires IsMutationList(ms, ScalarEdits(Pairs(intent.changes, model.uses), ResolvedMap(verified)))
    requires p in Pairs(intent.changes, model.uses)
    requires forall u :: u in model.uses ==> u.target.value == At(sc, u.target.Key()).value
    ensures At(sc', p.use.target.Key()).value == Raw(p, ResolvedMap(verified))
  {
    hide Raw, NoConflict, Pairs, LocationKey, IntentOk, Matched, ScalarEdits;
    var ps, resolved := Pairs(intent.changes, model.uses), ResolvedMap(verified);
    TargetsMeaning(ps, resolved);
    var key := p.use.target.Key();
    var m := ScalarEdits(ps, resolved)[key];
    var q :| q in ps && Asks(q, key, m, resolved);
    PairsMeaning(intent.changes, model.uses, q);
    if RealChange(m) {
      assert m in ms;
    }
  }

  lemma UseFollowsPlan(
    repo: Repo, sc: Scalars, sc': Scalars, dirs: seq<string>, files: seq<string>,
    model: Model, intent: Intent, verified: seq<Artifact>, ms: seq<Mutation>, u: Use, u': Use)
    requires Planned(repo, sc, sc', dirs, files, model, intent, verified, ms)
    requires u in model.uses && Corresponds(sc, sc', u, u')
    ensures u'.effectiveImage == Wanted(u, Expected(Pairs(intent.changes, model.uses), ResolvedMap(verified)))
  {
    hide Renders, ValidRef, TagOk, Strip, Tail, TagPart, LocationKey, Next, Raw, PinAllowed, FromFile, Selected,
      NoConflict, Pairs, Expected, ScalarEdits, IntentOk, Matched, TargetDecides, KeyOf, PinSuffix, ScalarsAfter;
    var ps, resolved := Pairs(intent.changes, model.uses), ResolvedMap(verified);
    var expected := Expected(ps, resolved);
    ExpectedMeaning(ps, resolved);
    forall v | v in model.uses
      ensures v.target.value == At(sc, v.target.Key()).value
    {
      RenderedUse(repo, sc, dirs, files, model.uses, v);
      TargetValue(sc, v);
    }
    if KeyOf(u) in expected {
      var p :| p in ps && KeyOf(p.use) == KeyOf(u);
      PairFacts(model, intent, verified, p);
      RenderedUse(repo, sc, dirs, files, model.uses, u);
      SameUse(model.uses, p.use, u);
      NextFromRaw(sc, p, resolved);
      TargetHoldsRequest(sc, sc', model, intent, verified, ms, p);
      EditedTarget(repo, sc, sc', u, u');
    } else {
      UnselectedTargetKept(sc, sc', model, intent, verified, ms, u);
    }
  }

  lemma TargetValue(sc: Scalars, u: Use)
    requires TargetDecides(sc, u)
    ensures u.target.value == At(sc, u.target.Key()).value
  {
  }

  lemma SameUse(uses: seq<Use>, u: Use, v: Use)
    requires DistinctKeys(uses) && u in uses && v in uses && KeyOf(u) == KeyOf(v)
    ensures u == v
  {
    var i :| 0 <= i < |uses| && uses[i] == u;
    var j :| 0 <= j < |uses| && uses[j] == v;
    assert SameKey(uses[i], uses[j]) && SameKey(uses[j], uses[i]);
  }

  lemma UnselectedTargetKept(sc: Scalars, sc': Scalars, model: Model, intent: Intent, verified: seq<Artifact>, ms: seq<Mutation>, u: Use)
    requires Plannable(model, intent, verified) && ScalarsAfter(sc, sc', ms)
    requires IsMutationList(ms, ScalarEdits(Pairs(intent.changes, model.uses), ResolvedMap(verified)))
    requires u in model.uses && KeyOf(u) !in Expected(Pairs(intent.changes, model.uses), ResolvedMap(verified))
    ensures At(sc', u.target.Key()).value == At(sc, u.target.Key()).value
  {
    hide NoConflict, Pairs, LocationKey, IntentOk, Matched, ScalarEdits, Expected, KeyOf;
  }

  lemma {:induction false} LastUsesMeaning(uses: seq<Use>, i: nat)
    requires DistinctKeys(uses) && i < |uses|
    ensures KeyOf(uses[i]) in LastUses(uses) && LastUses(uses)[KeyOf(uses[i])] == uses[i]
    decreases |uses|
  {
    var n := |uses| - 1;
    if i < n {
      LastUsesMeaning(uses[..n], i);
      assert !SameKey(uses[i], uses[n]);
    }
  }

  lemma CorrespondingKeys(sc: Scalars, sc': Scalars, us: seq<Use>, us': seq<Use>)
    requires AllCorrespond(sc, sc', us, us')
    ensures forall i :: 0 <= i < |us| ==> KeyOf(us'[i]) == KeyOf(us[i])
    ensures DistinctKeys(us) ==> DistinctKeys(us')
  {
    hide TargetDecides, Strip;
    forall i, j | 0 <= i < j < |us| && DistinctKeys(us)
      ensures !SameKey(us'[i], us'[j])
    {
      assert !SameKey(us[i], us[j]);
    }
  }

  /** Main theorem: editing the planned scalars and rendering again gives every selected use
      exactly the image it asked for and every other use its old image, without a new
      diagnostic. The check that renders again can therefore not fail. */
  lemma PlanningCommutesWithRendering(
    repo: Repo, sc: Scalars, sc': Scalars, dirs: seq<string>, files: seq<string>,
    model: Model, intent: Intent, verified: seq<Artifact>, ms: seq<Mutation>, after: Model)
    requires Planned(repo, sc, sc', dirs, files, model, intent, verified, ms)
    requires after.diagnostics == [] <==> ParsedUses(repo, sc', dirs, files).Some?
    requires after.diagnostics == [] ==> after.uses == ParsedUses(repo, sc', dirs, files).value
    ensures AllCorrespond(sc, sc', model.uses, after.uses)
    ensures PostCheck(model.uses, after, Expected(Pairs(intent.changes, model.uses), ResolvedMap(verified)))
  {
    hide ParsedUses, Plannable, IsMutationList, Corresponds, TagEdits, ScalarsAfter, EditsValidTags,
      Expected, Pairs, ResolvedMap, KeyOf, LastUses, DistinctKeys, UniqueDeclarations, SeparateKeys;
    PlanIsTagEdits(repo, sc, sc', dirs, files, model, intent, verified, ms);
    ParseCorresponds(repo, sc, sc', dirs, files);
    ParsedKeysDistinct(repo, sc, dirs, files);
    CorrespondingKeys(sc, sc', model.uses, after.uses);
    forall u | u in model.uses
      ensures UseAsWanted(u, LastUses(after.uses), Expected(Pairs(intent.changes, model.uses), ResolvedMap(verified)))
    {
      var i :| 0 <= i < |model.uses| && model.uses[i] == u;
      UseFollowsPlan(repo, sc, sc', dirs, files, model, intent, verified, ms, u, after.uses[i]);
      LastUsesMeaning(after.uses, i);
    }
  }
}
