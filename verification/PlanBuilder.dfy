/** The planner's loops over changes, uses, maps and files. */
module PlanBuilder {
  import opened Strings
  import opened Sorting
  import opened ImageRefs
  import opened Repository
  import opened Tokens
  import opened Writer
  import opened Planner

  lemma {:induction false} ResolvedMeaning(verified: seq<Artifact>)
    requires DigestsAgree(verified)
    ensures forall a :: a in verified ==> VerifiedKey(a) in ResolvedMap(verified) && ResolvedMap(verified)[VerifiedKey(a)].digest == a.digest
    ensures forall k :: k in ResolvedMap(verified) ==> ResolvedMap(verified)[k] in verified && VerifiedKey(ResolvedMap(verified)[k]) == k
  {
    hide VerifiedKey;
    if verified != [] {
      var init, last := verified[..|verified| - 1], verified[|verified| - 1];
      assert verified == init + [last];
      assert DigestsAgree(init) by {
        assert forall i :: 0 <= i < |init| ==> init[i] == verified[i];
      }
      ResolvedMeaning(init);
      forall a | a in init && VerifiedKey(a) == VerifiedKey(last)
        ensures a.digest == last.digest
      {
        var i :| 0 <= i < |init| && init[i] == a;
        assert verified[i] == a && verified[|verified| - 1] == last;
      }
    }
  }

  /** Looks up registry results by name and tag; two digests for one tag are an error. */
  method IndexArtifacts(verified: seq<Artifact>) returns (r: Result<map<string, Artifact>>)
    ensures r.Ok? <==> DigestsAgree(verified)
    ensures r.Ok? ==> r.value == ResolvedMap(verified)
  {
    hide VerifiedKey, DigestsAgree, ResolvedMap;
    var resolved: map<string, Artifact> := map[];
    NothingVerified();
    for i := 0 to |verified|
      invariant DigestsAgree(verified[..i])
      invariant resolved == ResolvedMap(verified[..i])
    {
      var a := verified[i];
      assert verified[..i + 1] == verified[..i] + [a];
      DigestsStep(verified[..i], a);
      if VerifiedKey(a) in resolved && resolved[VerifiedKey(a)].digest != a.digest {
        DigestsPrefix(verified, i + 1);
        return Err(Invalid);
      }
      resolved := resolved[VerifiedKey(a) := a];
    }
    assert verified[..|verified|] == verified;
    r := Ok(resolved);
  }

  lemma NothingVerified()
    ensures DigestsAgree([]) && ResolvedMap([]) == map[]
  {
  }

  lemma DigestsPrefix(verified: seq<Artifact>, n: nat)
    requires n <= |verified| && !DigestsAgree(verified[..n])
    ensures !DigestsAgree(verified)
  {
    hide VerifiedKey;
    assert forall i :: 0 <= i < n ==> verified[..n][i] == verified[i];
  }

  lemma ResolvedStep(done: seq<Artifact>, a: Artifact)
    ensures ResolvedMap(done + [a]) == ResolvedMap(done)[VerifiedKey(a) := a]
  {
    hide VerifiedKey;
    assert (done + [a])[..|done|] == done;
  }

  lemma DigestsStep(done: seq<Artifact>, a: Artifact)
    requires DigestsAgree(done)
    ensures var resolved := ResolvedMap(done);
            && (DigestsAgree(done + [a]) <==> (VerifiedKey(a) in resolved ==> resolved[VerifiedKey(a)].digest == a.digest))
            && ResolvedMap(done + [a]) == resolved[VerifiedKey(a) := a]
  {
    hide VerifiedKey, ResolvedMap;
    ResolvedMeaning(done);
    ResolvedStep(done, a);
    var more, key := done + [a], VerifiedKey(a);
    assert more[|done|] == a && forall i :: 0 <= i < |done| ==> more[i] == done[i] && done[i] in done;
    if key in ResolvedMap(done) {
      var known := ResolvedMap(done)[key];
      var i :| 0 <= i < |done| && done[i] == known;
      assert VerifiedKey(more[i]) == VerifiedKey(more[|done|]);
    }
  }

  ghost predicate Asked(a: Artifact, changes: seq<Change>, uses: seq<Use>) {
    exists c, u :: c in changes && u in uses && Selected(u, c) && a == Artifact(ImageName(u.effectiveImage), c.tag, "")
  }

  /** The table holds requested artifacts under their keys. */
  ghost predicate AskedTable(seen: map<string, Artifact>, changes: seq<Change>, uses: seq<Use>) {
    forall k :: k in seen ==> ArtifactKey(seen[k]) == k && Asked(seen[k], changes, uses)
  }

  predicate InTable(seen: map<string, Artifact>, a: Artifact) {
    ArtifactKey(a) in seen && seen[ArtifactKey(a)] == a
  }

  method RequestForChange(i: nat, uses: seq<Use>, intent: Intent, before: map<string, Artifact>) returns (seen: map<string, Artifact>)
    requires i < |intent.changes| && forall c :: c in intent.changes ==> TagOk(c.tag)
    requires AskedTable(before, intent.changes, uses)
    ensures AskedTable(seen, intent.changes, uses)
    ensures forall a :: InTable(before, a) ==> InTable(seen, a)
    ensures forall u :: u in uses && Selected(u, intent.changes[i]) ==>
                          InTable(seen, Artifact(ImageName(u.effectiveImage), intent.changes[i].tag, ""))
  {
    hide Selected, ImageName, TagOk, ArtifactKey;
    var c := intent.changes[i];
    seen := before;
    for j := 0 to |uses|
      invariant AskedTable(seen, intent.changes, uses)
      invariant forall a :: InTable(before, a) ==> InTable(seen, a)
      invariant forall u :: u in uses[..j] && Selected(u, c) ==> InTable(seen, Artifact(ImageName(u.effectiveImage), c.tag, ""))
    {
      var u := uses[j];
      assert uses[..j + 1] == uses[..j] + [u];
      if Selected(u, c) {
        var a := Artifact(ImageName(u.effectiveImage), c.tag, "");
        assert Asked(a, intent.changes, uses);
        if ArtifactKey(a) in seen {
          SameKeySameTag(seen[ArtifactKey(a)], a, intent.changes, uses);
        }
        seen := seen[ArtifactKey(a) := a];
      }
    }
    assert uses[..|uses|] == uses;
  }

  /** The registry tags a set of changes needs, after renames, each once and in order. */
  method RequestedArtifacts(uses: seq<Use>, intent: Intent) returns (list: seq<Artifact>)
    requires forall c :: c in intent.changes ==> TagOk(c.tag)
    ensures Ascending(ArtifactKey, list)
    ensures forall a :: a in list <==> Asked(a, intent.changes, uses)
  {
    hide Selected, ImageName, TagOk, ArtifactKey, Ascending;
    var seen: map<string, Artifact> := map[];
    for i := 0 to |intent.changes|
      invariant AskedTable(seen, intent.changes, uses)
      invariant forall c, u :: c in intent.changes[..i] && u in uses && Selected(u, c) ==>
                                 InTable(seen, Artifact(ImageName(u.effectiveImage), c.tag, ""))
    {
      assert intent.changes[..i + 1] == intent.changes[..i] + [intent.changes[i]];
      seen := RequestForChange(i, uses, intent, seen);
    }
    assert intent.changes[..|intent.changes|] == intent.changes;
    list := SortArtifacts(seen);
  }

  lemma SameKeySameTag(a: Artifact, b: Artifact, changes: seq<Change>, uses: seq<Use>)
    requires forall c :: c in changes ==> TagOk(c.tag)
    requires Asked(a, changes, uses) && Asked(b, changes, uses) && ArtifactKey(a) == ArtifactKey(b)
    ensures a == b
  {
    hide ImageName, TagOk;
    TagOkChars(a.tag);
    TagOkChars(b.tag);
    ColonSplits(a.image, a.tag, b.image, b.tag);
  }

  // ----- collecting the edits -----

  datatype Edits = Edits(expected: map<UseKey, string>, targets: map<string, Mutation>)

  ghost predicate Holds(e: Edits, ps: seq<Pair>, resolved: map<string, Artifact>) {
    NoConflict(ps, resolved) && e.expected == Expected(ps, resolved) && e.targets == ScalarEdits(ps, resolved)
  }

  lemma NoConflictExtends(ps: seq<Pair>, p: Pair, resolved: map<string, Artifact>)
    ensures NoConflict(ps + [p], resolved) <==>
            NoConflict(ps, resolved) && PinAllowed(p, resolved) && forall q :: q in ps ==> PairsAgree(q, p, resolved)
  {
    hide PinAllowed, Next, Raw, KeyOf, LocationKey;
  }

  lemma NoConflictPrefix(ps: seq<Pair>, more: seq<Pair>, resolved: map<string, Artifact>)
    requires NoConflict(ps + more, resolved)
    ensures NoConflict(ps, resolved)
  {
    hide PinAllowed, PairsAgree;
    assert forall p :: p in ps ==> p in ps + more;
  }

  function Grown(e: Edits, p: Pair, resolved: map<string, Artifact>): Edits {
    Edits(e.expected[KeyOf(p.use) := Next(p, resolved)],
          e.targets[p.use.target.Key() := Mutation(p.use.target, Raw(p, resolved))])
  }

  /** Comparing with the two maps is comparing with every earlier pair. */
  predicate Compatible(e: Edits, p: Pair, resolved: map<string, Artifact>) {
    && (KeyOf(p.use) in e.expected ==> e.expected[KeyOf(p.use)] == Next(p, resolved))
    && (p.use.target.Key() in e.targets ==> e.targets[p.use.target.Key()].newValue == Raw(p, resolved))
  }

  lemma PairStep(e: Edits, ps: seq<Pair>, p: Pair, resolved: map<string, Artifact>)
    requires Holds(e, ps, resolved)
    ensures NoConflict(ps + [p], resolved) <==> PinAllowed(p, resolved) && Compatible(e, p, resolved)
    ensures PinAllowed(p, resolved) && Compatible(e, p, resolved) ==> Holds(Grown(e, p, resolved), ps + [p], resolved)
  {
    hide PinAllowed, Next, Raw, KeyOf, LocationKey, NoConflict;
    NoConflictExtends(ps, p, resolved);
    AgreesWithAll(e, ps, p, resolved);
    assert (ps + [p])[..|ps|] == ps;
  }

  lemma AgreesWithAll(e: Edits, ps: seq<Pair>, p: Pair, resolved: map<string, Artifact>)
    requires Holds(e, ps, resolved)
    ensures Compatible(e, p, resolved) <==> forall q :: q in ps ==> PairsAgree(q, p, resolved)
  {
    hide KeyOf, Next, Raw, LocationKey, NoConflict, Expected, ScalarEdits;
    ImagesAgree(ps, p, resolved);
    ScalarsAgree(ps, p, resolved);
    if Compatible(e, p, resolved) {
      assert forall q :: q in ps ==> PairsAgree(q, p, resolved);
    }
  }

  lemma ImagesAgree(ps: seq<Pair>, p: Pair, resolved: map<string, Artifact>)
    requires NoConflict(ps, resolved)
    ensures (KeyOf(p.use) in Expected(ps, resolved) ==> Expected(ps, resolved)[KeyOf(p.use)] == Next(p, resolved))
            <==> forall q :: q in ps && KeyOf(q.use) == KeyOf(p.use) ==> Next(q, resolved) == Next(p, resolved)
  {
    hide KeyOf, Next, NoConflict, Expected;
    ExpectedMeaning(ps, resolved);
  }

  lemma ScalarsAgree(ps: seq<Pair>, p: Pair, resolved: map<string, Artifact>)
    requires NoConflict(ps, resolved)
    ensures (p.use.target.Key() in ScalarEdits(ps, resolved) ==> ScalarEdits(ps, resolved)[p.use.target.Key()].newValue == Raw(p, resolved))
            <==> forall q :: q in ps && q.use.target.Key() == p.use.target.Key() ==> Raw(q, resolved) == Raw(p, resolved)
  {
    hide Raw, LocationKey, NoConflict, ScalarEdits;
    TargetsMeaning(ps, resolved);
  }

  /** One selected use: pin check, image conflict, scalar conflict, then both maps grow. */
  method AddPair(p: Pair, resolved: map<string, Artifact>, e: Edits, ghost ps: seq<Pair>) returns (r: Result<Edits>)
    requires Holds(e, ps, resolved)
    ensures r.Ok? <==> NoConflict(ps + [p], resolved)
    ensures r.Ok? ==> Holds(r.value, ps + [p], resolved)
    ensures r.Err? ==> r.error == Invalid
  {
    hide KeyOf, WithTag, DigestOk, LocationKey, ImageName, Pinned, NoConflict, Holds, DigestFor;
    PairStep(e, ps, p, resolved);
    var u := p.use;
    var next := WithTag(u.effectiveImage, p.change.tag);
    var raw := WithTag(u.target.value, p.change.tag);
    if Pinned(u) {
      var digest := DigestFor(resolved, ImageName(u.effectiveImage) + ":" + p.change.tag);
      if !DigestOk(digest) || u.target.tagOnly || u.overrides != [] {
        return Err(Invalid);
      }
      next := next + ("@" + digest);
      raw := raw + ("@" + digest);
    } else {
      assert next + "" == next && raw + "" == raw;
    }
    if KeyOf(u) in e.expected && e.expected[KeyOf(u)] != next {
      return Err(Invalid);
    }
    if u.target.tagOnly {
      raw := p.change.tag;
    }
    if u.target.Key() in e.targets && e.targets[u.target.Key()].newValue != raw {
      return Err(Invalid);
    }
    r := Ok(Edits(e.expected[KeyOf(u) := next], e.targets[u.target.Key() := Mutation(u.target, raw)]));
    assert r.value == Grown(e, p, resolved);
  }

  /** The inner loop: all uses against one change. */
  method SelectUses(c: Change, uses: seq<Use>, resolved: map<string, Artifact>, e: Edits, ghost ps: seq<Pair>) returns (r: Result<Edits>)
    requires Holds(e, ps, resolved)
    ensures r.Ok? <==> NoConflict(ps + SelectedPairs(c, uses), resolved) && Matched(c, uses)
    ensures r.Ok? ==> Holds(r.value, ps + SelectedPairs(c, uses), resolved)
    ensures r.Err? && r.error == NoMatch ==> forall u :: u in uses ==> !Selected(u, c)
  {
    hide Selected, NoConflict, Holds, SelectedPairs;
    var edits := e;
    var found := false;
    var envFound: set<string> := {};
    SelectedPairsStep(c, [], ps);
    HoldsMeansNoConflict(e, ps, resolved);
    for j := 0 to |uses|
      invariant Holds(edits, ps + SelectedPairs(c, uses[..j]), resolved)
      invariant found <==> exists u :: u in uses[..j] && Selected(u, c)
      invariant forall env :: env in envFound <==> exists u :: u in uses[..j] && Selected(u, c) && u.environment == env
    {
      var u := uses[j];
      assert uses[..j + 1] == uses[..j] + [u];
      SelectedPairsStep(c, uses[..j + 1], ps);
      assert uses[..j + 1][..j] == uses[..j];
      if Selected(u, c) {
        found := true;
        envFound := envFound + {u.environment};
        var next := AddPair(Pair(c, u), resolved, edits, ps + SelectedPairs(c, uses[..j]));
        if next.Err? {
          assert u in uses;
          LaterConflict(c, uses, j + 1, ps, resolved);
          return next;
        }
        edits := next.value;
      }
    }
    assert uses[..|uses|] == uses;
    HoldsMeansNoConflict(edits, ps + SelectedPairs(c, uses), resolved);
    if !found {
      return Err(NoMatch);
    }
    var all := AllFound(c.environments, envFound);
    r := if all then Ok(edits) else Err(Invalid);
  }

  method AllFound(environments: seq<string>, envFound: set<string>) returns (ok: bool)
    ensures ok <==> forall env :: env in environments ==> env in envFound
  {
    for k := 0 to |environments|
      invariant forall env :: env in environments[..k] ==> env in envFound
    {
      if environments[k] !in envFound {
        return false;
      }
      assert environments[..k + 1] == environments[..k] + [environments[k]];
    }
    assert environments[..|environments|] == environments;
    ok := true;
  }

  lemma HoldsMeansNoConflict(e: Edits, ps: seq<Pair>, resolved: map<string, Artifact>)
    requires Holds(e, ps, resolved)
    ensures NoConflict(ps, resolved)
  {
  }

  lemma SelectedPairsStep(c: Change, uses: seq<Use>, ps: seq<Pair>)
    ensures ps + SelectedPairs(c, []) == ps
    ensures uses != [] ==>
              var init, u := uses[..|uses| - 1], uses[|uses| - 1];
              ps + SelectedPairs(c, uses) == if Selected(u, c) then ps + SelectedPairs(c, init) + [Pair(c, u)] else ps + SelectedPairs(c, init)
  {
    hide Selected;
  }

  lemma {:induction false} LaterConflict(c: Change, uses: seq<Use>, j: nat, ps: seq<Pair>, resolved: map<string, Artifact>)
    requires j <= |uses| && !NoConflict(ps + SelectedPairs(c, uses[..j]), resolved)
    ensures !NoConflict(ps + SelectedPairs(c, uses), resolved)
    decreases |uses| - j
  {
    hide NoConflict, Selected;
    if j < |uses| {
      var now, more := SelectedPairs(c, uses[..j]), if Selected(uses[j], c) then [Pair(c, uses[j])] else [];
      assert uses[..j + 1][..j] == uses[..j];
      assert SelectedPairs(c, uses[..j + 1]) == now + more;
      assert ps + (now + more) == ps + now + more;
      if NoConflict(ps + (now + more), resolved) {
        NoConflictPrefix(ps + now, more, resolved);
      }
      LaterConflict(c, uses, j + 1, ps, resolved);
    } else {
      assert uses[..j] == uses;
    }
  }

  /** The outer loop over the changes. */
  method CollectTargets(changes: seq<Change>, uses: seq<Use>, resolved: map<string, Artifact>) returns (r: Result<Edits>)
    ensures r.Ok? <==> NoConflict(Pairs(changes, uses), resolved) && forall c :: c in changes ==> Matched(c, uses)
    ensures r.Ok? ==> Holds(r.value, Pairs(changes, uses), resolved)
    ensures r.Err? && r.error == NoMatch ==> exists c :: c in changes && forall u :: u in uses ==> !Selected(u, c)
  {
    hide Selected, NoConflict, Expected, ScalarEdits, Matched;
    var edits := Edits(map[], map[]);
    NothingCollected(resolved);
    for i := 0 to |changes|
      invariant Holds(edits, Pairs(changes[..i], uses), resolved)
      invariant forall c :: c in changes[..i] ==> Matched(c, uses)
    {
      assert changes[..i + 1][..i] == changes[..i];
      assert changes[..i + 1] == changes[..i] + [changes[i]];
      var next := SelectUses(changes[i], uses, resolved, edits, Pairs(changes[..i], uses));
      if next.Err? {
        LaterChangeConflict(changes, i + 1, uses, resolved);
        assert changes[i] in changes;
        return next;
      }
      edits := next.value;
    }
    assert changes[..|changes|] == changes;
    r := Ok(edits);
  }

  lemma NothingCollected(resolved: map<string, Artifact>)
    ensures Holds(Edits(map[], map[]), [], resolved)
  {
  }

  lemma {:induction false} LaterChangeConflict(changes: seq<Change>, i: nat, uses: seq<Use>, resolved: map<string, Artifact>)
    requires i <= |changes|
    ensures !NoConflict(Pairs(changes[..i], uses), resolved) ==> !NoConflict(Pairs(changes, uses), resolved)
    decreases |changes| - i
  {
    hide NoConflict, SelectedPairs;
    if i < |changes| {
      assert changes[..i + 1][..i] == changes[..i];
      if NoConflict(Pairs(changes[..i + 1], uses), resolved) {
        NoConflictPrefix(Pairs(changes[..i], uses), SelectedPairs(changes[i], uses), resolved);
      }
      LaterChangeConflict(changes, i + 1, uses, resolved);
    } else {
      assert changes[..i] == changes;
    }
  }

  // ----- the rest of the plan -----

  method CheckLeaks(uses: seq<Use>, e: Edits) returns (ok: bool)
    ensures ok <==> NoLeak(uses, e.targets, e.expected)
  {
    hide KeyOf, LocationKey, RealChange;
    for i := 0 to |uses|
      invariant NoLeak(uses[..i], e.targets, e.expected)
    {
      var u := uses[i];
      assert uses[..i + 1] == uses[..i] + [u];
      if u.target.Key() in e.targets && RealChange(e.targets[u.target.Key()]) && KeyOf(u) !in e.expected {
        assert u in uses;
        return false;
      }
    }
    assert uses[..|uses|] == uses;
    ok := true;
  }

  /** Collects the real changes in whatever order the map yields them, then sorts by key. */
  method ListMutations(targets: map<string, Mutation>) returns (ms: seq<Mutation>)
    requires forall k :: k in targets ==> MutationKey(targets[k]) == k
    ensures IsMutationList(ms, targets)
  {
    hide RealChange, MutationKey;
    ms := [];
    var rest := targets.Keys;
    while rest != {}
      invariant rest <= targets.Keys
      invariant Ascending(MutationKey, ms)
      invariant forall m :: m in ms <==>
                              RealChange(m) && MutationKey(m) in targets && MutationKey(m) !in rest && targets[MutationKey(m)] == m
      decreases rest
    {
      var k :| k in rest;
      if RealChange(targets[k]) {
        ms := InsertAscending(MutationKey, ms, targets[k]);
      }
      rest := rest - {k};
    }
  }

  method IndexUses(uses: seq<Use>) returns (byKey: map<UseKey, Use>)
    ensures byKey == LastUses(uses)
  {
    byKey := map[];
    for i := 0 to |uses|
      invariant byKey == LastUses(uses[..i])
    {
      assert uses[..i + 1][..i] == uses[..i];
      byKey := byKey[KeyOf(uses[i]) := uses[i]];
    }
    assert uses[..|uses|] == uses;
  }

  datatype Review = Review(impact: seq<Impact>, artifacts: map<string, Artifact>)

  ghost predicate ResultTable(artifacts: map<string, Artifact>, uses: seq<Use>, expected: map<UseKey, string>, resolved: map<string, Artifact>) {
    forall k :: k in artifacts ==> ArtifactKey(artifacts[k]) == k && ResultsIn(artifacts[k], uses, expected, resolved)
  }

  /** Records the artifact of one selected use. */
  method RecordArtifact(u: Use, uses: seq<Use>, expected: map<UseKey, string>, resolved: map<string, Artifact>, before: map<string, Artifact>)
    returns (artifacts: map<string, Artifact>)
    requires u in uses && KeyOf(u) in expected && ResultTable(before, uses, expected, resolved)
    ensures ResultTable(artifacts, uses, expected, resolved)
    ensures InTable(artifacts, ArtifactFor(expected[KeyOf(u)], resolved))
    ensures forall a :: InTable(before, a) ==> InTable(artifacts, a)
  {
    hide KeyOf, ArtifactFor, ArtifactKey;
    var a := ArtifactFor(expected[KeyOf(u)], resolved);
    assert ResultsIn(a, uses, expected, resolved);
    if ArtifactKey(a) in before {
      SameArtifact(before[ArtifactKey(a)], expected[KeyOf(u)], uses, expected, resolved);
    }
    artifacts := before[ArtifactKey(a) := a];
  }

  /** Compares every earlier use with its new rendering and records impact and artifacts. */
  method CompareUses(uses: seq<Use>, after: Model, expected: map<UseKey, string>, resolved: map<string, Artifact>) returns (r: Result<Review>)
    ensures r.Ok? <==> PostCheck(uses, after, expected)
    ensures r.Ok? ==> r.value.impact == ImpactOf(uses, expected)
    ensures r.Ok? ==> ResultTable(r.value.artifacts, uses, expected, resolved)
    ensures r.Ok? ==> forall a :: ResultsIn(a, uses, expected, resolved) ==> InTable(r.value.artifacts, a)
    ensures r.Err? ==> r.error == Invalid
  {
    hide KeyOf, ArtifactFor, InTable, ResultTable, LastUses;
    if after.diagnostics != [] {
      return Err(Invalid);
    }
    var afterUses := IndexUses(after.uses);
    var impact: seq<Impact> := [];
    var artifacts: map<string, Artifact> := map[];
    NoResults(uses, expected, resolved);
    for i := 0 to |uses|
      invariant forall u :: u in uses[..i] ==> UseAsWanted(u, afterUses, expected)
      invariant impact == ImpactOf(uses[..i], expected)
      invariant ResultTable(artifacts, uses, expected, resolved)
      invariant forall u :: u in uses[..i] && KeyOf(u) in expected ==> InTable(artifacts, ArtifactFor(expected[KeyOf(u)], resolved))
    {
      var before := uses[i];
      assert uses[..i + 1][..i] == uses[..i] && uses[..i + 1] == uses[..i] + [before];
      if KeyOf(before) !in afterUses || afterUses[KeyOf(before)].effectiveImage != Wanted(before, expected) {
        assert before in uses && !UseAsWanted(before, afterUses, expected);
        return Err(Invalid);
      }
      var image := afterUses[KeyOf(before)].effectiveImage;
      if KeyOf(before) in expected {
        artifacts := RecordArtifact(before, uses, expected, resolved, artifacts);
      }
      if image != before.effectiveImage {
        impact := impact + [Impact(before.resource, before.container, before.environment, before.effectiveImage, image, before.target)];
      }
    }
    assert uses[..|uses|] == uses;
    r := Ok(Review(impact, artifacts));
  }

  lemma NoResults(uses: seq<Use>, expected: map<UseKey, string>, resolved: map<string, Artifact>)
    ensures ResultTable(map[], uses, expected, resolved)
  {
  }

  lemma SameArtifact(a: Artifact, image: string, uses: seq<Use>, expected: map<UseKey, string>, resolved: map<string, Artifact>)
    requires ResultsIn(a, uses, expected, resolved) && ArtifactKey(a) == ArtifactKey(ArtifactFor(image, resolved))
    ensures a == ArtifactFor(image, resolved)
  {
    hide ArtifactFor, KeyOf, ArtifactKey;
    var u :| u in uses && KeyOf(u) in expected && a == ArtifactFor(expected[KeyOf(u)], resolved);
    ArtifactKeyInjective(expected[KeyOf(u)], image, resolved);
  }

  method SortArtifacts(artifacts: map<string, Artifact>) returns (list: seq<Artifact>)
    requires forall k :: k in artifacts ==> ArtifactKey(artifacts[k]) == k
    ensures Ascending(ArtifactKey, list)
    ensures forall a :: a in list <==> InTable(artifacts, a)
  {
    list := [];
    var rest := artifacts.Keys;
    while rest != {}
      invariant rest <= artifacts.Keys
      invariant Ascending(ArtifactKey, list)
      invariant forall a :: a in list <==> ArtifactKey(a) in artifacts && ArtifactKey(a) !in rest && artifacts[ArtifactKey(a)] == a
      decreases rest
    {
      var k :| k in rest;
      list := InsertAscending(ArtifactKey, list, artifacts[k]);
      rest := rest - {k};
    }
  }

  method ListDiffs(names: seq<string>, files: Files, changed: Files) returns (diffs: seq<FileDiff>)
    ensures diffs == DiffsOf(names, files, changed)
  {
    diffs := [];
    for i := 0 to |names|
      invariant diffs == DiffsOf(names[..i], files, changed)
    {
      assert names[..i + 1][..i] == names[..i];
      var f := names[i];
      if TextOf(files, f) != TextOf(changed, f) {
        diffs := diffs + [FileDiff(f, TextOf(files, f), TextOf(changed, f))];
      }
    }
    assert names[..|names|] == names;
  }

  /** The plan a successful build returns, given the sorted mutations. */
  ghost predicate IsPlan(yaml: Yaml, model: Model, files: Files, intent: Intent, verified: seq<Artifact>, p: Plan) {
    var resolved := ResolvedMap(verified);
    var ps := Pairs(intent.changes, model.uses);
    && p.id == intent.id && p.intent == intent && p.base == model.revision
    && IsMutationList(p.mutations, ScalarEdits(ps, resolved))
    && p.impact == ImpactOf(model.uses, Expected(ps, resolved))
    && IsArtifactList(p.artifacts, model.uses, Expected(ps, resolved), resolved)
    && p.diffs == DiffsOf(model.files, files, Applied(yaml, files, p.mutations))
  }

  /** The checks that depend on the changed text. */
  ghost predicate RendersAsWanted(
    yaml: Yaml, parse: ParseFiles, model: Model, files: Files, intent: Intent, verified: seq<Artifact>, ms: seq<Mutation>)
  {
    && Applicable(yaml, files, ms)
    && PostCheck(model.uses, parse(Applied(yaml, files, ms)), Expected(Pairs(intent.changes, model.uses), ResolvedMap(verified)))
  }

  /** All checks: those before the text is touched, and those on the changed text. */
  ghost predicate Buildable(yaml: Yaml, parse: ParseFiles, model: Model, files: Files, intent: Intent, verified: seq<Artifact>) {
    && Plannable(model, intent, verified)
    && exists ms :: IsMutationList(ms, ScalarEdits(Pairs(intent.changes, model.uses), ResolvedMap(verified)))
                    && RendersAsWanted(yaml, parse, model, files, intent, verified, ms)
  }

  datatype Draft = Draft(resolved: map<string, Artifact>, expected: map<UseKey, string>, mutations: seq<Mutation>)

  /** Everything that is checked before the text is touched. */
  method DraftPlan(model: Model, intent: Intent, verified: seq<Artifact>) returns (r: Result<Draft>)
    ensures r.Ok? <==> Plannable(model, intent, verified)
    ensures r.Ok? ==>
              var ps, resolved := Pairs(intent.changes, model.uses), ResolvedMap(verified);
              && r.value.resolved == resolved && r.value.expected == Expected(ps, resolved)
              && IsMutationList(r.value.mutations, ScalarEdits(ps, resolved))
    ensures r.Err? && r.error == NoMatch ==> exists c :: c in intent.changes && forall u :: u in model.uses ==> !Selected(u, c)
  {
    hide IntentOk, NoConflict, Expected, ScalarEdits, Matched, NoLeak, Selected, Pairs, DigestsAgree, ResolvedMap, IsMutationList, MutationKey;
    if !IntentOk(intent) || model.diagnostics != [] {
      return Err(Invalid);
    }
    var index := IndexArtifacts(verified);
    if index.Err? {
      return Err(Invalid);
    }
    var resolved := index.value;
    var collected := CollectTargets(intent.changes, model.uses, resolved);
    if collected.Err? {
      return Err(collected.error);
    }
    var edits := collected.value;
    var contained := CheckLeaks(model.uses, edits);
    if !contained {
      return Err(Invalid);
    }
    TargetKeys(Pairs(intent.changes, model.uses), resolved);
    var ms := ListMutations(edits.targets);
    r := Ok(Draft(resolved, edits.expected, ms));
  }

  /** Succeeds exactly when the intent is plannable, the text can be edited and the changed
      repository renders as wanted; then the plan is determined. */
  method BuildPlan(yaml: Yaml, parse: ParseFiles, model: Model, files: Files, intent: Intent, verified: seq<Artifact>)
    returns (r: Result<Plan>)
    ensures r.Ok? ==>
              && Plannable(model, intent, verified)
              && IsPlan(yaml, model, files, intent, verified, r.value)
              && RendersAsWanted(yaml, parse, model, files, intent, verified, r.value.mutations)
    ensures r.Ok? <==> Buildable(yaml, parse, model, files, intent, verified)
    ensures r.Err? && r.error == NoMatch ==> exists c :: c in intent.changes && forall u :: u in model.uses ==> !Selected(u, c)
  {
    hide Plannable, Expected, ScalarEdits, PostCheck, Applicable, Applied, Selected, Pairs, ImpactOf, DiffsOf, ResultsIn, ResolvedMap, IsMutationList, Ascending;
    var draft := DraftPlan(model, intent, verified);
    if draft.Err? {
      return Err(draft.error);
    }
    var ms := draft.value.mutations;
    OneMutationList(ScalarEdits(Pairs(intent.changes, model.uses), ResolvedMap(verified)));
    var changed := Apply(yaml, files, ms);
    if changed.None? {
      return Err(Invalid);
    }
    var review := CompareUses(model.uses, parse(changed.value), draft.value.expected, draft.value.resolved);
    if review.Err? {
      return Err(Invalid);
    }
    var artifacts := SortArtifacts(review.value.artifacts);
    var diffs := ListDiffs(model.files, files, changed.value);
    r := Ok(Plan(intent.id, intent, model.revision, ms, review.value.impact, diffs, artifacts));
  }

  lemma TargetKeys(ps: seq<Pair>, resolved: map<string, Artifact>)
    requires NoConflict(ps, resolved)
    ensures forall k :: k in ScalarEdits(ps, resolved) ==> MutationKey(ScalarEdits(ps, resolved)[k]) == k
  {
    hide NoConflict, LocationKey, Raw;
    TargetsMeaning(ps, resolved);
  }

  /** Map iteration order leaves no trace: there is one sorted list of the real changes. */
  lemma OneMutationList(targets: map<string, Mutation>)
    ensures forall ms, ms' :: IsMutationList(ms, targets) && IsMutationList(ms', targets) ==> ms == ms'
  {
    hide RealChange, MutationKey, Ascending;
    forall ms, ms' | IsMutationList(ms, targets) && IsMutationList(ms', targets)
      ensures ms == ms'
    {
      AscendingUnique(MutationKey, ms, ms');
    }
  }
}
