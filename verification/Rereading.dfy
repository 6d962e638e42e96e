/** Building a plan for a parser that reads a fixed skeleton through its scalars: the texts a plan
    writes are read back as planned, so only the edit of the text itself can still fail. */
module Rereading {
  import opened Strings
  import opened Sorting
  import opened ImageRefs
  import opened Repository
  import opened Render
  import opened Targets
  import opened Tokens
  import opened Splice
  import opened Writer
  import opened WriterLaws
  import opened Planner
  import opened PlanBuilder
  import opened PlanTheorems
  import opened TagNecessity
  import opened Passing

  /** The scalar at the location is written as one token of its file. */
  predicate Spans(yaml: Yaml, files: Files, sc: Scalars, l: Location) {
    Reads(sc, l) && l.file in files && ScalarSpan(yaml, files[l.file], l).Some?
  }

  /** Different scalars are written in different places. */
  ghost predicate SpansApart(yaml: Yaml, files: Files, sc: Scalars) {
    forall a, b :: Spans(yaml, files, sc, a) && Spans(yaml, files, sc, b) ==> Apart(yaml, files, a, b)
  }

  predicate Apart(yaml: Yaml, files: Files, a: Location, b: Location)
    requires a.file in files && ScalarSpan(yaml, files[a.file], a).Some?
    requires b.file in files && ScalarSpan(yaml, files[b.file], b).Some?
  {
    if a.Key() == b.Key() then a.file == b.file
    else
      var s, t := ScalarSpan(yaml, files[a.file], a).value, ScalarSpan(yaml, files[b.file], b).value;
      a.file != b.file || s.end <= t.start || t.end <= s.start
  }

  /** The value of the token at an offset, if there is one. */
  function ValueAt(yaml: Yaml, text: string, at: int): Option<string> {
    if at < 0 || at >= |text| then None
    else
      match TokenLength(text[at..])
      case None => None
      case Some(n) => if at + n <= |text| then Decode(yaml, text[at..at + n]) else None
  }

  /** The scalars of the changed text: whatever token now stands where the token of a scalar stood
      is its value; a scalar that was not written as one token keeps its value. */
  ghost predicate Reread(yaml: Yaml, files: Files, ms: seq<Mutation>, sc: Scalars, sc': Scalars) {
    && (forall l :: Spans(yaml, files, sc, l) ==>
                      var now := ValueAt(yaml, Applied(yaml, files, ms)[l.file],
                                         NewOffset(yaml, files, ms, l.file, ScalarSpan(yaml, files[l.file], l).value.start));
                      now.Some? ==> At(sc', l.Key()).value == now.value)
    && (forall key :: (forall l :: Spans(yaml, files, sc, l) ==> l.Key() != key) ==> At(sc', key).value == At(sc, key).value)
  }

  /** The model is the rendering of the skeleton `repo` with these scalars. */
  ghost predicate ModelOf(repo: Repo, sc: Scalars, dirs: seq<string>, names: seq<string>, model: Model) {
    var uses := ParsedUses(repo, sc, dirs, names);
    (model.diagnostics == [] <==> uses.Some?) && (uses.Some? ==> model.uses == uses.value)
  }

  /** From the changed text the parser reads the same skeleton, with the scalars that now stand there. */
  ghost predicate SkeletonParse(
    yaml: Yaml, parse: ParseFiles, repo: Repo, sc: Scalars, dirs: seq<string>, names: seq<string>, files: Files, ms: seq<Mutation>)
  {
    && SpansApart(yaml, files, sc)
    && exists sc' :: Reread(yaml, files, ms, sc, sc') && ModelOf(repo, sc', dirs, names, parse(Applied(yaml, files, ms)))
  }

  /** There is always such a reading. */
  lemma SomeReading(yaml: Yaml, files: Files, ms: seq<Mutation>, sc: Scalars) returns (sc': Scalars)
    requires SpansApart(yaml, files, sc)
    ensures Reread(yaml, files, ms, sc, sc')
  {
    hide ScalarSpan, FileEdits, Applied, NewOffset, LocationKey, ValueAt;
    sc' := map key | key in sc :: Scalar(ValueNow(yaml, files, ms, sc, key), 0, 0);
    forall l | Spans(yaml, files, sc, l)
      ensures var now := ValueAt(yaml, Applied(yaml, files, ms)[l.file],
                                 NewOffset(yaml, files, ms, l.file, ScalarSpan(yaml, files[l.file], l).value.start));
              now.Some? ==> At(sc', l.Key()).value == now.value
    {
      SpanInScalars(yaml, files, sc, l);
      var key := l.Key();
      var k :| Spans(yaml, files, sc, k) && k.Key() == key && ValueNow(yaml, files, ms, sc, key) == ValueOf(yaml, files, ms, sc, k);
      SameSpan(yaml, files, sc, k, l);
    }
  }

  ghost function ValueOf(yaml: Yaml, files: Files, ms: seq<Mutation>, sc: Scalars, l: Location): string
    requires Spans(yaml, files, sc, l)
  {
    var now := ValueAt(yaml, Applied(yaml, files, ms)[l.file],
                       NewOffset(yaml, files, ms, l.file, ScalarSpan(yaml, files[l.file], l).value.start));
    if now.Some? then now.value else l.value
  }

  ghost function ValueNow(yaml: Yaml, files: Files, ms: seq<Mutation>, sc: Scalars, key: string): (v: string)
    ensures (exists l :: Spans(yaml, files, sc, l) && l.Key() == key) ==>
              exists l :: Spans(yaml, files, sc, l) && l.Key() == key && v == ValueOf(yaml, files, ms, sc, l)
    ensures (forall l :: Spans(yaml, files, sc, l) ==> l.Key() != key) ==> v == At(sc, key).value
  {
    if l :| Spans(yaml, files, sc, l) && l.Key() == key then ValueOf(yaml, files, ms, sc, l) else At(sc, key).value
  }

  /** A scalar that is written somewhere has a line, so it is one the parser reported. */
  lemma SpanInScalars(yaml: Yaml, files: Files, sc: Scalars, l: Location)
    requires Spans(yaml, files, sc, l)
    ensures l.Key() in sc
  {
    hide TokenLength, Decode, LocationKey;
    FirstLine(files[l.file]);
  }

  lemma SameSpan(yaml: Yaml, files: Files, sc: Scalars, a: Location, b: Location)
    requires SpansApart(yaml, files, sc) && Spans(yaml, files, sc, a) && Spans(yaml, files, sc, b) && a.Key() == b.Key()
    ensures a.file == b.file && ScalarSpan(yaml, files[a.file], a) == ScalarSpan(yaml, files[b.file], b)
  {
    hide TokenLength, Decode, LocationKey, LineStart, LineLength;
    assert Apart(yaml, files, a, b);
  }

  // ----- the scalars after the edits -----

  lemma SpanOfEdit(yaml: Yaml, files: Files, m: Mutation)
    requires Locatable(yaml, files, m)
    ensures ScalarSpan(yaml, files[m.location.file], m.location).Some?
    ensures var s, e := ScalarSpan(yaml, files[m.location.file], m.location).value, EditFor(yaml, files[m.location.file], m).value;
            s.start == e.start && s.end == e.end
  {
    hide ScalarSpan, Encode;
  }

  lemma MutatedReread(yaml: Yaml, files: Files, ms: seq<Mutation>, sc: Scalars, sc': Scalars, m: Mutation)
    requires Applicable(yaml, files, ms) && AllWritable(yaml, files, ms) && Reread(yaml, files, ms, sc, sc')
    requires m in ms && Reads(sc, m.location)
    ensures At(sc', MutationKey(m)).value == m.newValue
  {
    hide ScalarSpan, EditFor, FileEdits, Applied, TokenLength, Decode, Applicable, AllWritable, NewOffset;
    WrittenValueReadsBack(yaml, files, ms, m);
    SpanOfEdit(yaml, files, m);
    assert Spans(yaml, files, sc, m.location);
  }

  lemma OtherReread(yaml: Yaml, files: Files, ms: seq<Mutation>, sc: Scalars, sc': Scalars, l: Location)
    requires Applicable(yaml, files, ms) && AllWritable(yaml, files, ms) && Reread(yaml, files, ms, sc, sc')
    requires SpansApart(yaml, files, sc) && Spans(yaml, files, sc, l)
    requires forall m :: m in ms ==> Reads(sc, m.location) && MutationKey(m) != l.Key()
    ensures At(sc', l.Key()).value == At(sc, l.Key()).value
  {
    hide ScalarSpan, EditFor, FileEdits, Applied, TokenLength, Decode, AllWritable, NewOffset, LocationKey;
    var s := ScalarSpan(yaml, files[l.file], l).value;
    forall e | e in FileEdits(yaml, files, ms, l.file)
      ensures e.end <= s.start || s.end <= e.start
    {
      var m := EditOrigin(yaml, files, ms, l.file, e);
      SpanOfEdit(yaml, files, m);
      assert Spans(yaml, files, sc, m.location);
      assert Apart(yaml, files, m.location, l);
    }
    OtherScalarsReadBack(yaml, files, ms, l);
  }

  /** What the parser reads after the edits is what was written, and otherwise what was there. */
  lemma RereadIsScalarsAfter(yaml: Yaml, files: Files, ms: seq<Mutation>, sc: Scalars, sc': Scalars)
    requires Applicable(yaml, files, ms) && AllWritable(yaml, files, ms) && Reread(yaml, files, ms, sc, sc')
    requires SpansApart(yaml, files, sc) && forall m :: m in ms ==> Reads(sc, m.location)
    ensures ScalarsAfter(sc, sc', ms)
  {
    hide Applicable, AllWritable, SpansApart, Spans, Reads, MutationKey, At;
    forall m | m in ms
      ensures At(sc', MutationKey(m)).value == m.newValue
    {
      MutatedReread(yaml, files, ms, sc, sc', m);
    }
    forall key | forall m :: m in ms ==> MutationKey(m) != key
      ensures At(sc', key).value == At(sc, key).value
    {
      if l :| Spans(yaml, files, sc, l) && l.Key() == key {
        OtherReread(yaml, files, ms, sc, sc', l);
      }
    }
  }

  // ----- building -----

  lemma MutationReads(
    repo: Repo, sc: Scalars, dirs: seq<string>, names: seq<string>,
    model: Model, intent: Intent, verified: seq<Artifact>, ms: seq<Mutation>, m: Mutation)
    requires Renders(repo, sc, dirs, names, model.uses) && Plannable(model, intent, verified) && m in ms
    requires IsMutationList(ms, ScalarEdits(Pairs(intent.changes, model.uses), ResolvedMap(verified)))
    ensures Reads(sc, m.location)
  {
    hide Renders, Plannable, IsMutationList, ValidRef, TagOk, Tail, LastTag, At, ScalarEdits, Pairs, Raw;
    var p := MutationOrigin(model, intent, verified, ms, m);
    PairFacts(model, intent, verified, p);
    RenderedUse(repo, sc, dirs, names, model.uses, p.use);
  }

  /** The edited text is read as the draft says. */
  lemma ReadAsDrafted(
    yaml: Yaml, parse: ParseFiles, repo: Repo, sc: Scalars, dirs: seq<string>, names: seq<string>,
    model: Model, files: Files, intent: Intent, verified: seq<Artifact>, ms: seq<Mutation>) returns (sc': Scalars)
    requires Renders(repo, sc, dirs, names, model.uses) && SkeletonParse(yaml, parse, repo, sc, dirs, names, files, ms)
    requires Plannable(model, intent, verified) && Applicable(yaml, files, ms)
    requires IsMutationList(ms, ScalarEdits(Pairs(intent.changes, model.uses), ResolvedMap(verified)))
    ensures Drafted(repo, sc, sc', dirs, names, model, intent, verified, ms)
    ensures ModelOf(repo, sc', dirs, names, parse(Applied(yaml, files, ms)))
  {
    hide Renders, Plannable, IsMutationList, Applicable, Applied, Pairs, ResolvedMap, ScalarEdits, ParsedUses, Reread, AllWritable, SpansApart;
    PlannedEditsAreWritable(repo, sc, dirs, names, model, intent, verified, ms, yaml, files);
    sc' :| Reread(yaml, files, ms, sc, sc') && ModelOf(repo, sc', dirs, names, parse(Applied(yaml, files, ms)));
    forall m | m in ms
      ensures Reads(sc, m.location)
    {
      MutationReads(repo, sc, dirs, names, model, intent, verified, ms, m);
    }
    RereadIsScalarsAfter(yaml, files, ms, sc, sc');
  }

  /** A plan is built exactly when it can be drafted, its scalars are found in the text, and every
      edited `newTag` held a tag, wherever one that did not is the last override that applies. */
  lemma BuildsExactly(
    yaml: Yaml, parse: ParseFiles, repo: Repo, sc: Scalars, dirs: seq<string>, names: seq<string>,
    model: Model, files: Files, intent: Intent, verified: seq<Artifact>, ms: seq<Mutation>)
    requires Renders(repo, sc, dirs, names, model.uses) && SkeletonParse(yaml, parse, repo, sc, dirs, names, files, ms)
    requires Plannable(model, intent, verified) ==>
               IsMutationList(ms, ScalarEdits(Pairs(intent.changes, model.uses), ResolvedMap(verified)))
    requires Plannable(model, intent, verified) && Applicable(yaml, files, ms) ==> AllShown(model, parse(Applied(yaml, files, ms)), ms)
    ensures Buildable(yaml, parse, model, files, intent, verified) <==>
            Plannable(model, intent, verified) && Applicable(yaml, files, ms) && EditsValidTags(ms)
  {
    hide Renders, Plannable, IsMutationList, EditsValidTags, Applicable, Applied, PostCheck, Pairs, ResolvedMap, ScalarEdits, Expected, ParsedUses,
      SkeletonParse, AllShown, Drafted;
    if Plannable(model, intent, verified) {
      OneMutationList(ScalarEdits(Pairs(intent.changes, model.uses), ResolvedMap(verified)));
      if Applicable(yaml, files, ms) {
        var sc' := ReadAsDrafted(yaml, parse, repo, sc, dirs, names, model, files, intent, verified, ms);
        CommutesExactlyForTags(repo, sc, sc', dirs, names, model, intent, verified, ms, parse(Applied(yaml, files, ms)));
      }
    }
  }

  /** The same with a condition on the repository before the edit: some use of each edited scalar that
      held no tag passes no later element that names the image it is attached to. */
  lemma BuildsExactlyByPassing(
    yaml: Yaml, parse: ParseFiles, repo: Repo, sc: Scalars, dirs: seq<string>, names: seq<string>,
    model: Model, files: Files, intent: Intent, verified: seq<Artifact>, ms: seq<Mutation>)
    requires Renders(repo, sc, dirs, names, model.uses) && SkeletonParse(yaml, parse, repo, sc, dirs, names, files, ms)
    requires Plannable(model, intent, verified) ==>
               IsMutationList(ms, ScalarEdits(Pairs(intent.changes, model.uses), ResolvedMap(verified)))
    requires AllDecide(repo, sc, model, ms)
    ensures Buildable(yaml, parse, model, files, intent, verified) <==>
            Plannable(model, intent, verified) && Applicable(yaml, files, ms) && EditsValidTags(ms)
  {
    hide Renders, Plannable, IsMutationList, EditsValidTags, Applicable, Applied, Pairs, ResolvedMap, ScalarEdits, ParsedUses, SkeletonParse, AllShown,
      AllDecide, Drafted, Buildable;
    if Plannable(model, intent, verified) && Applicable(yaml, files, ms) {
      var sc' := ReadAsDrafted(yaml, parse, repo, sc, dirs, names, model, files, intent, verified, ms);
      DecidedIsShown(repo, sc, sc', dirs, names, model, intent, verified, ms, parse(Applied(yaml, files, ms)));
    }
    BuildsExactly(yaml, parse, repo, sc, dirs, names, model, files, intent, verified, ms);
  }

  /** So for grammatical old tags the check that renders again never fails. */
  lemma BuildsExactlyWhenApplicable(
    yaml: Yaml, parse: ParseFiles, repo: Repo, sc: Scalars, dirs: seq<string>, names: seq<string>,
    model: Model, files: Files, intent: Intent, verified: seq<Artifact>, ms: seq<Mutation>)
    requires Renders(repo, sc, dirs, names, model.uses) && SkeletonParse(yaml, parse, repo, sc, dirs, names, files, ms)
    requires Plannable(model, intent, verified) ==>
               IsMutationList(ms, ScalarEdits(Pairs(intent.changes, model.uses), ResolvedMap(verified)))
    requires EditsValidTags(ms)
    ensures Buildable(yaml, parse, model, files, intent, verified) <==> Plannable(model, intent, verified) && Applicable(yaml, files, ms)
  {
    hide Renders, Plannable, IsMutationList, Applicable, Applied, Pairs, ResolvedMap, ScalarEdits, Buildable, SkeletonParse, TagOk;
    assert AllShown(model, parse(Applied(yaml, files, ms)), ms);
    BuildsExactly(yaml, parse, repo, sc, dirs, names, model, files, intent, verified, ms);
  }
}
