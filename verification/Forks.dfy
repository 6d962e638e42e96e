/** Rendering before and after a plan that edits some `newTag` scalars which hold no tag. Up to
    the first of them a use renders in lockstep; from there on the two renderings may fork. */
module Forks {
  import opened Strings
  import opened ImageRefs
  import opened Repository
  import opened Render
  import opened Resolver
  import opened Targets
  import opened Lockstep

  /** The edits are tag edits but for the given `newTag` scalars. */
  ghost predicate EditsExcept(repo: Repo, sc: Scalars, sc': Scalars, bad: set<string>) {
    && (forall key :: key !in bad ==> TagEdit(repo, key, At(sc, key).value, At(sc', key).value))
    && forall key :: key in bad ==> !IsNameKey(repo, key) && !IsDeclarationKey(repo, key)
  }

  predicate BadAt(bad: set<string>, l: Location) {
    l.tagOnly && l.Key() in bad
  }

  predicate HasBad(bad: set<string>, overrides: seq<Location>) {
    exists i :: 0 <= i < |overrides| && BadAt(bad, overrides[i])
  }

  /** The last override applied to the use is such a scalar, and the only one. */
  predicate Exposed(bad: set<string>, u: Use) {
    && u.overrides != [] && BadAt(bad, u.overrides[|u.overrides| - 1])
    && !HasBad(bad, u.overrides[..|u.overrides| - 1])
  }

  predicate SameUseOf(u: Use, v: Use) {
    u.resource == v.resource && u.container == v.container && u.environment == v.environment && SamePlace(u.source, v.source)
  }

  predicate SameEnd(u: Use, v: Use) {
    u.overrides != [] && v.overrides != [] && u.overrides[|u.overrides| - 1].Key() == v.overrides[|v.overrides| - 1].Key()
  }

  /** One stem, with the old value behind it on one side and the new one on the other. */
  ghost predicate Forked(sc: Scalars, sc': Scalars, u: Use, v: Use) {
    && u.overrides != []
    && var key := u.overrides[|u.overrides| - 1].Key();
       exists stem :: '@' !in stem && u.effectiveImage == stem + ":" + At(sc, key).value && v.effectiveImage == stem + ":" + At(sc', key).value
  }

  ghost predicate Related(sc: Scalars, sc': Scalars, bad: set<string>, u: Use, v: Use) {
    && SameUseOf(u, v)
    && (HasBad(bad, u.overrides) <==> HasBad(bad, v.overrides))
    && (if HasBad(bad, u.overrides)
        then Exposed(bad, u) && Exposed(bad, v) && SameEnd(u, v) ==> Forked(sc, sc', u, v)
        else Corresponds(sc, sc', u, v))
  }

  ghost predicate AllRelated(sc: Scalars, sc': Scalars, bad: set<string>, us: seq<Use>, vs: seq<Use>) {
    |us| == |vs| && forall i :: 0 <= i < |us| ==> Related(sc, sc', bad, us[i], vs[i])
  }

  // ----- one override -----

  lemma HasBadMore(bad: set<string>, xs: seq<Location>, at: Location)
    ensures HasBad(bad, xs + [at]) <==> HasBad(bad, xs) || BadAt(bad, at)
  {
    hide BadAt;
    var all := xs + [at];
    assert all[|xs|] == at && forall i :: 0 <= i < |xs| ==> all[i] == xs[i];
  }

  lemma ExposedMore(bad: set<string>, u: Use, xs: seq<Location>, at: Location)
    requires u.overrides == xs + [at]
    ensures Exposed(bad, u) <==> BadAt(bad, at) && !HasBad(bad, xs)
  {
    assert (xs + [at])[..|xs|] == xs;
  }

  /** What an override adds to the list of a use; without an addition it changes nothing. */
  lemma OverrideAdds(file: string, i: nat, ov: Override, sc: Scalars, bad: set<string>, u: Use)
    requires ov.Override? && OverrideOne(file, i, ov, sc, u).Some?
    ensures var r := OverrideOne(file, i, ov, sc, u).value;
            && SameUseOf(u, r)
            && (HasBad(bad, u.overrides) ==> HasBad(bad, r.overrides))
            && (Exposed(bad, r) && HasBad(bad, u.overrides) ==> r == u)
  {
    hide ValidRef, NameOnly, WithTag, ImageTag, RawName, HasBad, Exposed, LocationKey;
    var r := OverrideOne(file, i, ov, sc, u).value;
    if Matches(ov, u) {
      var nn := NewName(file, i, ov, sc);
      var name, tag := Locate(sc, file, 0, NamePath(i), false), Locate(sc, file, 0, TagPath(i), true);
      var xs := Renamed(file, i, ov, sc, u).overrides;
      if nn != "" {
        HasBadMore(bad, u.overrides, name);
        ExposedMore(bad, Renamed(file, i, ov, sc, u), u.overrides, name);
      }
      if ov.newTag.NewTag? {
        HasBadMore(bad, xs, tag);
        ExposedMore(bad, r, xs, tag);
      }
    }
  }

  /** Two uses in lockstep meet an override whose tag is not among the exceptions. */
  lemma GoodElement(file: string, i: nat, ov: Override, sc: Scalars, sc': Scalars, bad: set<string>, u: Use, v: Use)
    requires ov.Override? && ElementEdit(file, i, sc, sc') && TagKey(file, i) !in bad
    requires Corresponds(sc, sc', u, v) && !HasBad(bad, u.overrides) && !HasBad(bad, v.overrides)
    requires OverrideOne(file, i, ov, sc, u).Some?
    ensures OverrideOne(file, i, ov, sc', v).Some?
    ensures Related(sc, sc', bad, OverrideOne(file, i, ov, sc, u).value, OverrideOne(file, i, ov, sc', v).value)
  {
    hide OverrideOne, Corresponds, HasBad, LocationKey, TagOk;
    ElementCorresponds(file, i, ov, sc, sc', u, v);
    NothingBadAdded(file, i, ov, sc, bad, u);
    NothingBadAdded(file, i, ov, sc', bad, v);
    CorrespondsSameUse(sc, sc', OverrideOne(file, i, ov, sc, u).value, OverrideOne(file, i, ov, sc', v).value);
  }

  lemma CorrespondsSameUse(sc: Scalars, sc': Scalars, u: Use, v: Use)
    requires Corresponds(sc, sc', u, v)
    ensures SameUseOf(u, v)
  {
  }

  lemma NothingBadAdded(file: string, i: nat, ov: Override, sc: Scalars, bad: set<string>, u: Use)
    requires ov.Override? && OverrideOne(file, i, ov, sc, u).Some? && TagKey(file, i) !in bad && !HasBad(bad, u.overrides)
    ensures !HasBad(bad, OverrideOne(file, i, ov, sc, u).value.overrides)
  {
    hide ValidRef, NameOnly, WithTag, ImageTag, RawName, HasBad, LocationKey;
    if Matches(ov, u) {
      HasBadMore(bad, u.overrides, Locate(sc, file, 0, NamePath(i), false));
      HasBadMore(bad, Renamed(file, i, ov, sc, u).overrides, Locate(sc, file, 0, TagPath(i), true));
    }
  }

  /** Two uses in lockstep meet an override whose tag is one of the exceptions: from here they fork. */
  lemma BadElement(file: string, i: nat, ov: Override, sc: Scalars, sc': Scalars, bad: set<string>, u: Use, v: Use)
    requires ov.Override? && TagKey(file, i) in bad && At(sc', NameKey(file, i)).value == At(sc, NameKey(file, i)).value
    requires Corresponds(sc, sc', u, v) && !HasBad(bad, u.overrides) && !HasBad(bad, v.overrides)
    requires OverrideOne(file, i, ov, sc, u).Some? && OverrideOne(file, i, ov, sc', v).Some?
    ensures Related(sc, sc', bad, OverrideOne(file, i, ov, sc, u).value, OverrideOne(file, i, ov, sc', v).value)
  {
    hide ValidRef, NameOnly, RawName, HasBad, Exposed, LocationKey, Corresponds, TargetDecides, Strip, Rename, NewName;
    CorrespondsDecides(sc, sc', u, v);
    CorrespondsSameUse(sc, sc', u, v);
    if Matches(ov, u) {
      RenamedCorresponds(file, i, ov, sc, sc', u, v);
      var r, r' := Renamed(file, i, ov, sc, u), Renamed(file, i, ov, sc', v);
      CorrespondsSameUse(sc, sc', r, r');
      RenameAddsNoBad(file, i, ov, sc, bad, u);
      RenameAddsNoBad(file, i, ov, sc', bad, v);
      if ov.newTag.NewTag? {
        var at, at' := Locate(sc, file, 0, TagPath(i), true), Locate(sc', file, 0, TagPath(i), true);
        HasBadMore(bad, r.overrides, at);
        HasBadMore(bad, r'.overrides, at');
        RetagForks(sc, sc', r, r', at, at');
      }
    }
  }

  lemma RenameAddsNoBad(file: string, i: nat, ov: Override, sc: Scalars, bad: set<string>, u: Use)
    requires ov.Override? && !HasBad(bad, u.overrides)
    ensures !HasBad(bad, Renamed(file, i, ov, sc, u).overrides)
  {
    hide HasBad, LocationKey, WithTag, ImageTag;
    HasBadMore(bad, u.overrides, Locate(sc, file, 0, NamePath(i), false));
  }

  lemma RetagForks(sc: Scalars, sc': Scalars, r: Use, r': Use, at: Location, at': Location)
    requires Corresponds(sc, sc', r, r') && at.Key() == at'.Key()
    requires Reads(sc, at) && Reads(sc', at')
    ensures Forked(sc, sc', Retag(r, at), Retag(r', at'))
  {
    hide TargetDecides, ValidRef, LocationKey;
    StripHasNoAt(r.effectiveImage);
    var stem := Strip(r.effectiveImage);
    assert Strip(r'.effectiveImage) == stem;
    assert (r.overrides + [at])[|r.overrides|] == at;
  }

  lemma ElementRelated(repo: Repo, dir: string, i: nat, sc: Scalars, sc': Scalars, bad: set<string>, u: Use, v: Use)
    requires dir in repo.ks && repo.ks[dir].images.Overrides? && i < |repo.ks[dir].images.items| && repo.ks[dir].images.items[i].Override?
    requires EditsExcept(repo, sc, sc', bad) && Related(sc, sc', bad, u, v)
    requires OverrideOne(repo.ks[dir].file, i, repo.ks[dir].images.items[i], sc, u).Some?
    requires OverrideOne(repo.ks[dir].file, i, repo.ks[dir].images.items[i], sc', v).Some?
    ensures var k := repo.ks[dir];
            Related(sc, sc', bad, OverrideOne(k.file, i, k.images.items[i], sc, u).value, OverrideOne(k.file, i, k.images.items[i], sc', v).value)
  {
    hide OverrideOne, Corresponds, HasBad, Exposed, LocationKey, NamePath, TagPath, TagOk, Forked, SamePlace;
    var k := repo.ks[dir];
    var ov := k.images.items[i];
    OverrideAdds(k.file, i, ov, sc, bad, u);
    OverrideAdds(k.file, i, ov, sc', bad, v);
    if !HasBad(bad, u.overrides) {
      ElementScalars(repo, dir, i, sc, sc', bad);
      if TagKey(k.file, i) in bad {
        BadElement(k.file, i, ov, sc, sc', bad, u, v);
      } else {
        GoodElement(k.file, i, ov, sc, sc', bad, u, v);
      }
    } else {
      SameUseChain(u, v, OverrideOne(k.file, i, ov, sc, u).value, OverrideOne(k.file, i, ov, sc', v).value);
    }
  }

  lemma SameUseChain(u: Use, v: Use, u': Use, v': Use)
    requires SameUseOf(u, v) && SameUseOf(u, u') && SameUseOf(v, v')
    ensures SameUseOf(u', v')
  {
  }

  lemma ElementScalars(repo: Repo, dir: string, i: nat, sc: Scalars, sc': Scalars, bad: set<string>)
    requires dir in repo.ks && repo.ks[dir].images.Overrides? && i < |repo.ks[dir].images.items|
    requires EditsExcept(repo, sc, sc', bad)
    ensures At(sc', NameKey(repo.ks[dir].file, i)).value == At(sc, NameKey(repo.ks[dir].file, i)).value
    ensures TagKey(repo.ks[dir].file, i) !in bad ==> ElementEdit(repo.ks[dir].file, i, sc, sc')
  {
    hide TagOk, NameKey, TagKey, At, Strip, ValidRef;
    var name, tag := NameKey(repo.ks[dir].file, i), TagKey(repo.ks[dir].file, i);
    assert IsNameKey(repo, name) && IsTagKey(repo, tag);
    assert name !in bad;
    assert TagEdit(repo, name, At(sc, name).value, At(sc', name).value);
    assert tag !in bad ==> TagEdit(repo, tag, At(sc, tag).value, At(sc', tag).value);
  }

  lemma {:induction false} OverridesRelated(repo: Repo, dir: string, n: nat, sc: Scalars, sc': Scalars, bad: set<string>, u: Use, v: Use)
    requires dir in repo.ks && repo.ks[dir].images.Overrides? && n <= |repo.ks[dir].images.items|
    requires forall ov :: ov in repo.ks[dir].images.items ==> ov.Override?
    requires EditsExcept(repo, sc, sc', bad) && Related(sc, sc', bad, u, v)
    requires OverrideUse(repo.ks[dir].file, repo.ks[dir].images.items[..n], sc, u).Some?
    requires OverrideUse(repo.ks[dir].file, repo.ks[dir].images.items[..n], sc', v).Some?
    ensures var k := repo.ks[dir];
            Related(sc, sc', bad, OverrideUse(k.file, k.images.items[..n], sc, u).value, OverrideUse(k.file, k.images.items[..n], sc', v).value)
    decreases n
  {
    hide Related, EditsExcept, OverrideOne;
    var k := repo.ks[dir];
    var ovs := k.images.items;
    if n > 0 {
      assert ovs[..n][..n - 1] == ovs[..n - 1] && ovs[..n][n - 1] == ovs[n - 1];
      OverridesRelated(repo, dir, n - 1, sc, sc', bad, u, v);
      ElementRelated(repo, dir, n - 1, sc, sc', bad,
                     OverrideUse(k.file, ovs[..n - 1], sc, u).value, OverrideUse(k.file, ovs[..n - 1], sc', v).value);
    }
  }

  lemma ImagesRelated(repo: Repo, dir: string, sc: Scalars, sc': Scalars, bad: set<string>, us: seq<Use>, vs: seq<Use>)
    requires dir in repo.ks && EditsExcept(repo, sc, sc', bad) && AllRelated(sc, sc', bad, us, vs)
    requires ApplyImages(repo.ks[dir], sc, us).Some? && ApplyImages(repo.ks[dir], sc', vs).Some?
    ensures AllRelated(sc, sc', bad, ApplyImages(repo.ks[dir], sc, us).value, ApplyImages(repo.ks[dir], sc', vs).value)
  {
    hide Related, EditsExcept, OverrideUse, NameOnly;
    var k := repo.ks[dir];
    if k.images.Overrides? {
      var ovs := k.images.items;
      assert ovs[..|ovs|] == ovs;
      forall j | 0 <= j < |us|
        ensures Related(sc, sc', bad, OverrideUse(k.file, ovs, sc, us[j]).value, OverrideUse(k.file, ovs, sc', vs[j]).value)
      {
        OverridesRelated(repo, dir, |ovs|, sc, sc', bad, us[j], vs[j]);
      }
    }
  }

  // ----- the dependency graph -----

  lemma PlainRelated(repo: Repo, sc: Scalars, sc': Scalars, bad: set<string>, file: string)
    requires EditsExcept(repo, sc, sc', bad) && DeclarationsOk(repo, sc)
    ensures AllRelated(sc, sc', bad, PlainUses(repo, sc, file), PlainUses(repo, sc', file))
  {
    hide ValidRef, TagOk, Strip, LocationKey, Corresponds, EditsExcept;
    if file in repo.plain {
      forall i | 0 <= i < |repo.plain[file]|
        ensures Related(sc, sc', bad, PlainUse(sc, repo.plain[file][i]), PlainUse(sc', repo.plain[file][i]))
      {
        DeclarationRelated(repo, sc, sc', bad, file, i);
      }
    }
  }

  lemma DeclarationRelated(repo: Repo, sc: Scalars, sc': Scalars, bad: set<string>, file: string, i: nat)
    requires EditsExcept(repo, sc, sc', bad) && DeclarationsOk(repo, sc)
    requires file in repo.plain && i < |repo.plain[file]|
    ensures Related(sc, sc', bad, PlainUse(sc, repo.plain[file][i]), PlainUse(sc', repo.plain[file][i]))
  {
    hide ValidRef, TagOk, Strip, LocationKey, Tail;
    var d := repo.plain[file][i];
    assert IsDeclarationKey(repo, d.Key());
    assert d.Key() !in bad;
    assert TagEdit(repo, d.Key(), At(sc, d.Key()).value, At(sc', d.Key()).value);
    PlainTarget(sc, d);
    PlainTarget(sc', d);
  }

  lemma StampRelated(sc: Scalars, sc': Scalars, bad: set<string>, env: string, us: seq<Use>, vs: seq<Use>)
    requires AllRelated(sc, sc', bad, us, vs)
    ensures AllRelated(sc, sc', bad, Stamp(env, us), Stamp(env, vs))
  {
    hide Related;
    forall i | 0 <= i < |us|
      ensures Related(sc, sc', bad, us[i].(environment := env), vs[i].(environment := env))
    {
      StampOne(sc, sc', bad, env, us[i], vs[i]);
    }
  }

  lemma StampOne(sc: Scalars, sc': Scalars, bad: set<string>, env: string, u: Use, v: Use)
    requires Related(sc, sc', bad, u, v)
    ensures Related(sc, sc', bad, u.(environment := env), v.(environment := env))
  {
    hide HasBad, ValidRef, TagOk, Strip, Tail, LocationKey;
  }

  lemma {:induction false} WalkRelated(repo: Repo, sc: Scalars, sc': Scalars, bad: set<string>, dir: string, path: set<string>, count: nat)
    requires EditsExcept(repo, sc, sc', bad) && DeclarationsOk(repo, sc)
    requires Walk(repo, sc, dir, path, count).Some? && Walk(repo, sc', dir, path, count).Some?
    ensures var v, v' := Walk(repo, sc, dir, path, count).value, Walk(repo, sc', dir, path, count).value;
            v'.count == v.count && AllRelated(sc, sc', bad, v.uses, v'.uses)
    decreases repo.ks.Keys - path, 0, 0
  {
    hide Related, EditsExcept, ApplyImages, NoDuplicates, DeclarationsOk;
    if dir in repo.ks {
      var k := repo.ks[dir];
      EntriesRelated(repo, sc, sc', bad, dir, k.entries, path + {dir}, count + 1);
      ImagesRelated(repo, dir, sc, sc', bad, WalkEntries(repo, sc, dir, k.entries, path + {dir}, count + 1).value.uses,
                    WalkEntries(repo, sc', dir, k.entries, path + {dir}, count + 1).value.uses);
    }
  }

  lemma {:induction false} EntriesRelated(
    repo: Repo, sc: Scalars, sc': Scalars, bad: set<string>, dir: string, entries: seq<string>, path: set<string>, count: nat)
    requires EditsExcept(repo, sc, sc', bad) && DeclarationsOk(repo, sc)
    requires WalkEntries(repo, sc, dir, entries, path, count).Some? && WalkEntries(repo, sc', dir, entries, path, count).Some?
    ensures var v, v' := WalkEntries(repo, sc, dir, entries, path, count).value, WalkEntries(repo, sc', dir, entries, path, count).value;
            v'.count == v.count && AllRelated(sc, sc', bad, v.uses, v'.uses)
    decreases repo.ks.Keys - path, 1, |entries|
  {
    hide Related, EditsExcept, LocalPath, FileAllowed, PlainUses, DeclarationsOk;
    if entries != [] {
      var init, last := entries[..|entries| - 1], entries[|entries| - 1];
      EntriesRelated(repo, sc, sc', bad, dir, init, path, count);
      var c := WalkEntries(repo, sc, dir, init, path, count).value.count;
      var name := LocalPath(dir, last);
      if name.Some? {
        PlainRelated(repo, sc, sc', bad, name.value);
        if name.value in repo.ks {
          WalkRelated(repo, sc, sc', bad, name.value, path, c);
        }
      }
    }
  }

  lemma {:induction false} RootsRelated(repo: Repo, sc: Scalars, sc': Scalars, bad: set<string>, dirs: seq<string>)
    requires EditsExcept(repo, sc, sc', bad) && DeclarationsOk(repo, sc)
    requires WalkRoots(repo, sc, dirs).Some? && WalkRoots(repo, sc', dirs).Some?
    ensures var v, v' := WalkRoots(repo, sc, dirs).value, WalkRoots(repo, sc', dirs).value;
            v'.count == v.count && AllRelated(sc, sc', bad, v.uses, v'.uses)
    decreases |dirs|
  {
    hide Related, EditsExcept, Walk, Referenced, DeclarationsOk;
    if dirs != [] {
      var init, dir := dirs[..|dirs| - 1], dirs[|dirs| - 1];
      RootsRelated(repo, sc, sc', bad, init);
      var c := WalkRoots(repo, sc, init).value.count;
      if !Referenced(repo, dir) {
        WalkRelated(repo, sc, sc', bad, dir, {}, c);
        StampRelated(sc, sc', bad, dir, Walk(repo, sc, dir, {}, c).value.uses, Walk(repo, sc', dir, {}, c).value.uses);
      }
    }
  }

  lemma {:induction false} PlainEnvironmentsRelated(repo: Repo, sc: Scalars, sc': Scalars, bad: set<string>, files: seq<string>)
    requires EditsExcept(repo, sc, sc', bad) && DeclarationsOk(repo, sc)
    ensures AllRelated(sc, sc', bad, PlainEnvironments(repo, sc, files), PlainEnvironments(repo, sc', files))
    decreases |files|
  {
    hide Related, EditsExcept, PlainUses, Referenced, DeclarationsOk;
    if files != [] {
      var file := files[|files| - 1];
      PlainEnvironmentsRelated(repo, sc, sc', bad, files[..|files| - 1]);
      PlainRelated(repo, sc, sc', bad, file);
      StampRelated(sc, sc', bad, "plain:" + Dir(file), PlainUses(repo, sc, file), PlainUses(repo, sc', file));
    }
  }

  /** Two clean parses, before and after such edits, have related uses in the same order. */
  lemma ParseRelated(repo: Repo, sc: Scalars, sc': Scalars, bad: set<string>, dirs: seq<string>, files: seq<string>)
    requires EditsExcept(repo, sc, sc', bad)
    requires ParsedUses(repo, sc, dirs, files).Some? && ParsedUses(repo, sc', dirs, files).Some?
    ensures AllRelated(sc, sc', bad, ParsedUses(repo, sc, dirs, files).value, ParsedUses(repo, sc', dirs, files).value)
  {
    hide Related, EditsExcept, WalkRoots, WalkAll, PlainEnvironments, NoDuplicateWorkloads, EntriesOk, DeclarationsOk;
    RootsRelated(repo, sc, sc', bad, dirs);
    PlainEnvironmentsRelated(repo, sc, sc', bad, files);
  }
}
