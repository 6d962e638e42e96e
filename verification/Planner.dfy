/** `BuildPlan`: from image changes to scalar mutations, with conflict, leak and
    render-again checks. */
module Planner {
  import opened Strings
  import opened Sorting
  import opened ImageRefs
  import opened Repository
  import opened Tokens
  import opened Writer

  datatype Change = Change(image: string, tag: string, file: string, environments: seq<string>)
  datatype Intent = Intent(id: string, changes: seq<Change>)
  datatype Artifact = Artifact(image: string, tag: string, digest: string)
  datatype Impact = Impact(resource: string, container: string, environment: string, current: string, proposed: string, target: Location)
  datatype FileDiff = FileDiff(file: string, before: string, after: string)

  /** What the parser reports about one revision. */
  datatype Model = Model(revision: string, files: seq<string>, uses: seq<Use>, diagnostics: seq<Diagnostic>)

  datatype Plan = Plan(
    id: string, intent: Intent, base: string,
    mutations: seq<Mutation>, impact: seq<Impact>, diffs: seq<FileDiff>, artifacts: seq<Artifact>)

  datatype PlanError = Invalid | NoMatch
  datatype Result<+T> = Ok(value: T) | Err(error: PlanError)

  /** Parser of whole repositories, for one revision. */
  type ParseFiles = Files -> Model

  // ----- intents -----

  predicate IdChar(c: char) { Alnum(c) || c == '.' || c == '_' || c == ':' || c == '-' }

  predicate IdOk(id: string) {
    1 <= |id| <= 160 && Alnum(id[0]) && forall k :: 0 <= k < |id| ==> IdChar(id[k])
  }

  predicate IntentOk(i: Intent) {
    && IdOk(i.id)
    && 1 <= |i.changes| <= 100
    && forall c :: c in i.changes ==> NameOnly(c.image) && TagOk(c.tag) && |c.environments| <= 100
  }

  predicate Selected(u: Use, c: Change) {
    && (ImageName(u.sourceImage) == ImageName(c.image) || ImageName(u.effectiveImage) == ImageName(c.image))
    && (c.file == "" || u.source.file == c.file || u.target.file == c.file)
    && (c.environments == [] || u.environment in c.environments)
  }

  datatype UseKey = UseKey(resource: string, container: string, environment: string, path: string)

  function KeyOf(u: Use): UseKey {
    UseKey(u.resource, u.container, u.environment, u.source.path)
  }

  // ----- registry artifacts -----

  function ArtifactKey(a: Artifact): string {
    a.image + ":" + a.tag
  }

  function VerifiedKey(a: Artifact): string {
    ImageName(a.image) + ":" + a.tag
  }

  function ResolvedMap(verified: seq<Artifact>): map<string, Artifact> {
    if verified == [] then map[]
    else
      var a := verified[|verified| - 1];
      ResolvedMap(verified[..|verified| - 1])[VerifiedKey(a) := a]
  }

  predicate DigestsAgree(verified: seq<Artifact>) {
    forall i, j :: 0 <= i < j < |verified| && VerifiedKey(verified[i]) == VerifiedKey(verified[j]) ==>
                     verified[i].digest == verified[j].digest
  }

  function DigestFor(resolved: map<string, Artifact>, key: string): string {
    if key in resolved then resolved[key].digest else ""
  }

  // ----- what one selected use asks for -----

  datatype Pair = Pair(change: Change, use: Use)

  predicate Pinned(u: Use) {
    '@' in u.sourceImage || '@' in u.effectiveImage
  }

  function PinFor(p: Pair, resolved: map<string, Artifact>): string {
    DigestFor(resolved, ImageName(p.use.effectiveImage) + ":" + p.change.tag)
  }

  predicate PinAllowed(p: Pair, resolved: map<string, Artifact>) {
    Pinned(p.use) ==> DigestOk(PinFor(p, resolved)) && !p.use.target.tagOnly && p.use.overrides == []
  }

  function PinSuffix(p: Pair, resolved: map<string, Artifact>): string {
    if Pinned(p.use) then "@" + PinFor(p, resolved) else ""
  }

  /** The image the use should render to. */
  function Next(p: Pair, resolved: map<string, Artifact>): string {
    WithTag(p.use.effectiveImage, p.change.tag) + PinSuffix(p, resolved)
  }

  /** The value its target scalar should get. */
  function Raw(p: Pair, resolved: map<string, Artifact>): string {
    if p.use.target.tagOnly then p.change.tag
    else WithTag(p.use.target.value, p.change.tag) + PinSuffix(p, resolved)
  }

  function SelectedPairs(c: Change, uses: seq<Use>): seq<Pair> {
    if uses == [] then []
    else
      var u := uses[|uses| - 1];
      SelectedPairs(c, uses[..|uses| - 1]) + (if Selected(u, c) then [Pair(c, u)] else [])
  }

  function Pairs(changes: seq<Change>, uses: seq<Use>): seq<Pair> {
    if changes == [] then []
    else Pairs(changes[..|changes| - 1], uses) + SelectedPairs(changes[|changes| - 1], uses)
  }

  predicate PairsAgree(p: Pair, q: Pair, resolved: map<string, Artifact>) {
    && (KeyOf(p.use) == KeyOf(q.use) ==> Next(p, resolved) == Next(q, resolved))
    && (p.use.target.Key() == q.use.target.Key() ==> Raw(p, resolved) == Raw(q, resolved))
  }

  ghost predicate NoConflict(ps: seq<Pair>, resolved: map<string, Artifact>) {
    && (forall p :: p in ps ==> PinAllowed(p, resolved))
    && (forall p, q :: p in ps && q in ps ==> PairsAgree(p, q, resolved))
  }

  /** The change selects something, in every environment it names. */
  ghost predicate Matched(c: Change, uses: seq<Use>) {
    && (exists u :: u in uses && Selected(u, c))
    && (forall env :: env in c.environments ==> exists u :: u in uses && Selected(u, c) && u.environment == env)
  }

  function Expected(ps: seq<Pair>, resolved: map<string, Artifact>): map<UseKey, string> {
    if ps == [] then map[]
    else
      var p := ps[|ps| - 1];
      Expected(ps[..|ps| - 1], resolved)[KeyOf(p.use) := Next(p, resolved)]
  }

  function ScalarEdits(ps: seq<Pair>, resolved: map<string, Artifact>): map<string, Mutation> {
    if ps == [] then map[]
    else
      var p := ps[|ps| - 1];
      ScalarEdits(ps[..|ps| - 1], resolved)[p.use.target.Key() := Mutation(p.use.target, Raw(p, resolved))]
  }

  lemma {:induction false} PairsMeaning(changes: seq<Change>, uses: seq<Use>, p: Pair)
    ensures p in Pairs(changes, uses) <==> p.change in changes && p.use in uses && Selected(p.use, p.change)
    decreases |changes|
  {
    hide Selected;
    if changes != [] {
      PairsMeaning(changes[..|changes| - 1], uses, p);
      SelectedPairsMeaning(changes[|changes| - 1], uses, p);
    }
  }

  lemma {:induction false} SelectedPairsMeaning(c: Change, uses: seq<Use>, p: Pair)
    ensures p in SelectedPairs(c, uses) <==> p.change == c && p.use in uses && Selected(p.use, c)
    decreases |uses|
  {
    hide Selected;
    if uses != [] {
      SelectedPairsMeaning(c, uses[..|uses| - 1], p);
    }
  }

  /** Without conflicts the collected images hold, for every selected use, what it asks for. */
  lemma {:induction false} ExpectedMeaning(ps: seq<Pair>, resolved: map<string, Artifact>)
    requires NoConflict(ps, resolved)
    ensures forall p :: p in ps ==> KeyOf(p.use) in Expected(ps, resolved) && Expected(ps, resolved)[KeyOf(p.use)] == Next(p, resolved)
    ensures forall k :: k in Expected(ps, resolved) ==> exists p :: p in ps && KeyOf(p.use) == k
    decreases |ps|
  {
    hide PinAllowed, Next, Raw, KeyOf, LocationKey;
    if ps != [] {
      var init, last := ps[..|ps| - 1], ps[|ps| - 1];
      assert last in ps && forall p :: p in ps <==> p in init || p == last;
      ExpectedMeaning(init, resolved);
      assert forall p :: p in init ==> PairsAgree(p, last, resolved);
    }
  }

  /** The same for the scalar each of them edits. */
  lemma {:induction false} TargetsMeaning(ps: seq<Pair>, resolved: map<string, Artifact>)
    requires NoConflict(ps, resolved)
    ensures forall p :: p in ps ==> p.use.target.Key() in ScalarEdits(ps, resolved)
                                    && ScalarEdits(ps, resolved)[p.use.target.Key()].newValue == Raw(p, resolved)
    ensures forall k :: k in ScalarEdits(ps, resolved) ==> exists p :: p in ps && Asks(p, k, ScalarEdits(ps, resolved)[k], resolved)
    decreases |ps|
  {
    hide PinAllowed, Next, Raw, KeyOf, LocationKey;
    if ps != [] {
      var init, last := ps[..|ps| - 1], ps[|ps| - 1];
      assert last in ps && forall p :: p in ps <==> p in init || p == last;
      TargetsMeaning(init, resolved);
      assert forall p :: p in init ==> PairsAgree(p, last, resolved);
      forall k | k in ScalarEdits(ps, resolved)
        ensures exists p :: p in ps && Asks(p, k, ScalarEdits(ps, resolved)[k], resolved)
      {
        if k == last.use.target.Key() {
          assert Asks(last, k, ScalarEdits(ps, resolved)[k], resolved);
        } else {
          var p :| p in init && Asks(p, k, ScalarEdits(init, resolved)[k], resolved);
          assert p in ps && Asks(p, k, ScalarEdits(ps, resolved)[k], resolved);
        }
      }
    }
  }

  /** The mutation is the edit that `p` asks for at key `k`. */
  predicate Asks(p: Pair, k: string, m: Mutation, resolved: map<string, Artifact>) {
    p.use.target.Key() == k && m == Mutation(p.use.target, Raw(p, resolved))
  }

  // ----- acceptance -----

  predicate RealChange(m: Mutation) {
    m.newValue != m.location.value
  }

  /** An unselected use never shares a target that really changes. */
  predicate NoLeak(uses: seq<Use>, targets: map<string, Mutation>, expected: map<UseKey, string>) {
    forall u :: u in uses && u.target.Key() in targets && RealChange(targets[u.target.Key()]) ==> KeyOf(u) in expected
  }

  function MutationKey(m: Mutation): string {
    m.location.Key()
  }

  /** The real changes, in key order. */
  ghost predicate IsMutationList(ms: seq<Mutation>, targets: map<string, Mutation>) {
    && Ascending(MutationKey, ms)
    && forall m :: m in ms <==> RealChange(m) && MutationKey(m) in targets && targets[MutationKey(m)] == m
  }

  function LastUses(uses: seq<Use>): map<UseKey, Use> {
    if uses == [] then map[]
    else LastUses(uses[..|uses| - 1])[KeyOf(uses[|uses| - 1]) := uses[|uses| - 1]]
  }

  function Wanted(u: Use, expected: map<UseKey, string>): string {
    if KeyOf(u) in expected then expected[KeyOf(u)] else u.effectiveImage
  }

  predicate UseAsWanted(before: Use, after: map<UseKey, Use>, expected: map<UseKey, string>) {
    KeyOf(before) in after && after[KeyOf(before)].effectiveImage == Wanted(before, expected)
  }

  /** The render-again check. */
  predicate PostCheck(uses: seq<Use>, after: Model, expected: map<UseKey, string>) {
    after.diagnostics == [] && forall u :: u in uses ==> UseAsWanted(u, LastUses(after.uses), expected)
  }

  /** All conditions checked before anything is rendered again. */
  ghost predicate Plannable(model: Model, intent: Intent, verified: seq<Artifact>) {
    var resolved := ResolvedMap(verified);
    var ps := Pairs(intent.changes, model.uses);
    && IntentOk(intent) && model.diagnostics == [] && DigestsAgree(verified)
    && NoConflict(ps, resolved)
    && (forall c :: c in intent.changes ==> Matched(c, model.uses))
    && NoLeak(model.uses, ScalarEdits(ps, resolved), Expected(ps, resolved))
  }

  function ImpactOf(uses: seq<Use>, expected: map<UseKey, string>): seq<Impact> {
    if uses == [] then []
    else
      var u := uses[|uses| - 1];
      ImpactOf(uses[..|uses| - 1], expected)
      + (if Wanted(u, expected) == u.effectiveImage then []
         else [Impact(u.resource, u.container, u.environment, u.effectiveImage, Wanted(u, expected), u.target)])
  }

  /** The artifact a selected use ends up with. */
  function ArtifactFor(image: string, resolved: map<string, Artifact>): Artifact {
    var key := ImageName(image) + ":" + ImageTag(image);
    Artifact(ImageName(image), ImageTag(image), DigestFor(resolved, key))
  }

  ghost predicate IsArtifactList(list: seq<Artifact>, uses: seq<Use>, expected: map<UseKey, string>, resolved: map<string, Artifact>) {
    && Ascending(ArtifactKey, list)
    && forall a :: a in list <==> ResultsIn(a, uses, expected, resolved)
  }

  ghost predicate ResultsIn(a: Artifact, uses: seq<Use>, expected: map<UseKey, string>, resolved: map<string, Artifact>) {
    exists u :: u in uses && KeyOf(u) in expected && a == ArtifactFor(expected[KeyOf(u)], resolved)
  }

  /** Different artifacts have different keys: a tag contains no colon. */
  lemma ArtifactKeyInjective(x: string, y: string, resolved: map<string, Artifact>)
    requires ArtifactKey(ArtifactFor(x, resolved)) == ArtifactKey(ArtifactFor(y, resolved))
    ensures ArtifactFor(x, resolved) == ArtifactFor(y, resolved)
  {
    hide ImageName, ImageTag;
    TagHasNoColon(x);
    TagHasNoColon(y);
    ColonSplits(ImageName(x), ImageTag(x), ImageName(y), ImageTag(y));
  }

  lemma ColonSplits(a: string, s: string, b: string, t: string)
    requires ':' !in s && ':' !in t && a + ":" + s == b + ":" + t
    ensures a == b && s == t
  {
    hide LastIndex;
    LastColon(a, s);
    LastColon(b, t);
    var k := a + ":" + s;
    assert k[..|a|] == a && k[|a| + 1..] == s;
    assert k == b + ":" + t && k[..|b|] == b && k[|b| + 1..] == t;
  }

  lemma TagHasNoColon(image: string)
    ensures ':' !in ImageTag(image)
  {
  }

  lemma LastColon(name: string, tag: string)
    ensures ':' !in tag ==> LastIndex(name + ":" + tag, ':') == |name|
  {
    hide LastIndex;
    var k := name + ":" + tag;
    assert k[|name|] == ':';
    assert forall i :: |name| < i < |k| ==> k[i] == tag[i - |name| - 1] && k[i] in tag;
  }

  function TextOf(files: Files, f: string): string {
    if f in files then files[f] else ""
  }

  function DiffsOf(names: seq<string>, files: Files, changed: Files): seq<FileDiff> {
    if names == [] then []
    else
      var f := names[|names| - 1];
      DiffsOf(names[..|names| - 1], files, changed)
      + (if TextOf(files, f) == TextOf(changed, f) then [] else [FileDiff(f, TextOf(files, f), TextOf(changed, f))])
  }
}
