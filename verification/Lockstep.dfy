/** Rendering before and after tag edits runs in lockstep over the whole repository:
    the same uses in the same order, the same budget, and no new diagnostic. */
module Lockstep {
  import opened Strings
  import opened ImageRefs
  import opened Repository
  import opened Render
  import opened Resolver
  import opened Targets

  ghost predicate AllCorrespond(sc: Scalars, sc': Scalars, us: seq<Use>, us': seq<Use>) {
    |us'| == |us| && forall i :: 0 <= i < |us| ==> Corresponds(sc, sc', us[i], us'[i])
  }

  lemma {:induction false} OverridesCorrespond(repo: Repo, dir: string, n: nat, sc: Scalars, sc': Scalars, u: Use, u': Use)
    requires dir in repo.ks && repo.ks[dir].images.Overrides? && n <= |repo.ks[dir].images.items|
    requires forall ov :: ov in repo.ks[dir].images.items ==> ov.Override?
    requires TagEdits(repo, sc, sc') && Corresponds(sc, sc', u, u')
    requires OverrideUse(repo.ks[dir].file, repo.ks[dir].images.items[..n], sc, u).Some?
    ensures var k := repo.ks[dir];
            var r' := OverrideUse(k.file, k.images.items[..n], sc', u');
            r'.Some? && Corresponds(sc, sc', OverrideUse(k.file, k.images.items[..n], sc, u).value, r'.value)
    decreases n
  {
    hide Corresponds, TagEdits, OverrideOne;
    var k := repo.ks[dir];
    var ovs := k.images.items;
    if n > 0 {
      assert ovs[..n][..n - 1] == ovs[..n - 1];
      OverridesCorrespond(repo, dir, n - 1, sc, sc', u, u');
      var v := OverrideUse(k.file, ovs[..n - 1], sc, u).value;
      var v' := OverrideUse(k.file, ovs[..n - 1], sc', u').value;
      OverrideCorresponds(repo, dir, n - 1, sc, sc', v, v');
    }
  }

  lemma ImagesCorrespond(repo: Repo, dir: string, sc: Scalars, sc': Scalars, us: seq<Use>, us': seq<Use>)
    requires dir in repo.ks
    requires TagEdits(repo, sc, sc') && AllCorrespond(sc, sc', us, us')
    requires ApplyImages(repo.ks[dir], sc, us).Some?
    ensures var r' := ApplyImages(repo.ks[dir], sc', us');
            r'.Some? && AllCorrespond(sc, sc', ApplyImages(repo.ks[dir], sc, us).value, r'.value)
  {
    hide Corresponds, TagEdits, OverrideUse, NameOnly;
    var k := repo.ks[dir];
    if k.images.Overrides? {
      var ovs := k.images.items;
      assert ovs[..|ovs|] == ovs;
      forall j | 0 <= j < |us|
        ensures OverrideUse(k.file, ovs, sc', us'[j]).Some?
        ensures Corresponds(sc, sc', OverrideUse(k.file, ovs, sc, us[j]).value, OverrideUse(k.file, ovs, sc', us'[j]).value)
      {
        OverridesCorrespond(repo, dir, |ovs|, sc, sc', us[j], us'[j]);
      }
    }
  }

  lemma PlainCorrespond(repo: Repo, sc: Scalars, sc': Scalars, file: string)
    requires TagEdits(repo, sc, sc') && DeclarationsOk(repo, sc)
    ensures AllCorrespond(sc, sc', PlainUses(repo, sc, file), PlainUses(repo, sc', file))
    ensures FileOk(repo, sc', file)
  {
    hide ValidRef, TagOk, Strip, LocationKey, Corresponds;
    if file in repo.plain {
      forall i | 0 <= i < |repo.plain[file]|
        ensures Corresponds(sc, sc', PlainUse(sc, repo.plain[file][i]), PlainUse(sc', repo.plain[file][i]))
        ensures ValidRef(At(sc', repo.plain[file][i].Key()).value)
      {
        DeclarationCorresponds(repo, sc, sc', file, i);
      }
    }
  }

  lemma DeclarationCorresponds(repo: Repo, sc: Scalars, sc': Scalars, file: string, i: nat)
    requires TagEdits(repo, sc, sc') && DeclarationsOk(repo, sc)
    requires file in repo.plain && i < |repo.plain[file]|
    ensures Corresponds(sc, sc', PlainUse(sc, repo.plain[file][i]), PlainUse(sc', repo.plain[file][i]))
    ensures ValidRef(At(sc', repo.plain[file][i].Key()).value)
  {
    hide ValidRef, TagOk, Strip, LocationKey, Tail;
    var d := repo.plain[file][i];
    assert IsDeclarationKey(repo, d.Key());
    assert TagEdit(repo, d.Key(), At(sc, d.Key()).value, At(sc', d.Key()).value);
    PlainTarget(sc, d);
    PlainTarget(sc', d);
  }

  lemma StampCorresponds(sc: Scalars, sc': Scalars, env: string, us: seq<Use>, us': seq<Use>)
    requires AllCorrespond(sc, sc', us, us')
    ensures AllCorrespond(sc, sc', Stamp(env, us), Stamp(env, us'))
  {
    hide ValidRef, TagOk, Strip, Tail, LocationKey;
    forall i | 0 <= i < |us|
      ensures Corresponds(sc, sc', us[i].(environment := env), us'[i].(environment := env))
    {
    }
  }

  lemma SameIdentities(repo: Repo, sc: Scalars, sc': Scalars, us: seq<Use>, us': seq<Use>)
    requires AllCorrespond(sc, sc', us, us')
    ensures NoDuplicates(us) <==> NoDuplicates(us')
    ensures NoDuplicateWorkloads(repo, us) <==> NoDuplicateWorkloads(repo, us')
  {
    hide TargetDecides, Strip;
    assert forall i :: 0 <= i < |us| ==> us'[i].resource == us[i].resource && us'[i].container == us[i].container
                                         && WorkloadKey(repo, us'[i]) == WorkloadKey(repo, us[i]);
  }

  lemma {:induction false} WalkCorresponds(repo: Repo, sc: Scalars, sc': Scalars, dir: string, path: set<string>, count: nat)
    requires TagEdits(repo, sc, sc') && DeclarationsOk(repo, sc)
    requires Walk(repo, sc, dir, path, count).Some?
    ensures var v := Walk(repo, sc, dir, path, count).value;
            var r' := Walk(repo, sc', dir, path, count);
            r'.Some? && r'.value.count == v.count && AllCorrespond(sc, sc', v.uses, r'.value.uses)
    decreases repo.ks.Keys - path, 0, 0
  {
    hide Corresponds, TagEdits, ApplyImages, NoDuplicates, NoDuplicateWorkloads, DeclarationsOk;
    if dir in repo.ks {
      var k := repo.ks[dir];
      WalkEntriesCorrespond(repo, sc, sc', dir, k.entries, path + {dir}, count + 1);
      var v := WalkEntries(repo, sc, dir, k.entries, path + {dir}, count + 1).value;
      var v' := WalkEntries(repo, sc', dir, k.entries, path + {dir}, count + 1).value;
      SameIdentities(repo, sc, sc', v.uses, v'.uses);
      ImagesCorrespond(repo, dir, sc, sc', v.uses, v'.uses);
    }
  }

  lemma {:induction false} WalkEntriesCorrespond(
    repo: Repo, sc: Scalars, sc': Scalars, dir: string, entries: seq<string>, path: set<string>, count: nat)
    requires TagEdits(repo, sc, sc') && DeclarationsOk(repo, sc)
    requires WalkEntries(repo, sc, dir, entries, path, count).Some?
    ensures var v := WalkEntries(repo, sc, dir, entries, path, count).value;
            var r' := WalkEntries(repo, sc', dir, entries, path, count);
            r'.Some? && r'.value.count == v.count && AllCorrespond(sc, sc', v.uses, r'.value.uses)
    decreases repo.ks.Keys - path, 1, |entries|
  {
    hide Corresponds, TagEdits, LocalPath, FileAllowed, PlainUses, DeclarationsOk;
    if entries != [] {
      var init, last := entries[..|entries| - 1], entries[|entries| - 1];
      WalkEntriesCorrespond(repo, sc, sc', dir, init, path, count);
      var c := WalkEntries(repo, sc, dir, init, path, count).value.count;
      var name := LocalPath(dir, last);
      if name.Some? {
        PlainCorrespond(repo, sc, sc', name.value);
        if name.value in repo.ks {
          WalkCorresponds(repo, sc, sc', name.value, path, c);
        }
      }
    }
  }

  lemma {:induction false} RootsCorrespond(repo: Repo, sc: Scalars, sc': Scalars, dirs: seq<string>)
    requires TagEdits(repo, sc, sc') && DeclarationsOk(repo, sc)
    requires WalkRoots(repo, sc, dirs).Some?
    ensures var v := WalkRoots(repo, sc, dirs).value;
            var r' := WalkRoots(repo, sc', dirs);
            r'.Some? && r'.value.count == v.count && AllCorrespond(sc, sc', v.uses, r'.value.uses)
    decreases |dirs|
  {
    hide Corresponds, TagEdits, Walk, Referenced, DeclarationsOk;
    if dirs != [] {
      var init, dir := dirs[..|dirs| - 1], dirs[|dirs| - 1];
      RootsCorrespond(repo, sc, sc', init);
      var c := WalkRoots(repo, sc, init).value.count;
      if !Referenced(repo, dir) {
        WalkCorresponds(repo, sc, sc', dir, {}, c);
        StampCorresponds(sc, sc', dir, Walk(repo, sc, dir, {}, c).value.uses, Walk(repo, sc', dir, {}, c).value.uses);
      }
    }
  }

  lemma {:induction false} SecondPassCorresponds(repo: Repo, sc: Scalars, sc': Scalars, dirs: seq<string>, count: nat)
    requires TagEdits(repo, sc, sc') && DeclarationsOk(repo, sc)
    requires WalkAll(repo, sc, dirs, count).Some?
    ensures WalkAll(repo, sc', dirs, count) == WalkAll(repo, sc, dirs, count)
    decreases |dirs|
  {
    hide Walk, TagEdits, DeclarationsOk;
    if dirs != [] {
      SecondPassCorresponds(repo, sc, sc', dirs[..|dirs| - 1], count);
      WalkCorresponds(repo, sc, sc', dirs[|dirs| - 1], {}, WalkAll(repo, sc, dirs[..|dirs| - 1], count).value);
    }
  }

  lemma {:induction false} PlainEnvironmentsCorrespond(repo: Repo, sc: Scalars, sc': Scalars, files: seq<string>)
    requires TagEdits(repo, sc, sc') && DeclarationsOk(repo, sc)
    ensures AllCorrespond(sc, sc', PlainEnvironments(repo, sc, files), PlainEnvironments(repo, sc', files))
    decreases |files|
  {
    hide Corresponds, TagEdits, PlainUses, Referenced, DeclarationsOk;
    if files != [] {
      var file := files[|files| - 1];
      PlainEnvironmentsCorrespond(repo, sc, sc', files[..|files| - 1]);
      PlainCorrespond(repo, sc, sc', file);
      StampCorresponds(sc, sc', "plain:" + Dir(file), PlainUses(repo, sc, file), PlainUses(repo, sc', file));
    }
  }

  /** A repository that parses cleanly still does after tag edits, and use by use the two
      parses correspond. */
  lemma ParseCorresponds(repo: Repo, sc: Scalars, sc': Scalars, dirs: seq<string>, files: seq<string>)
    requires ParsedUses(repo, sc, dirs, files).Some?
    requires TagEdits(repo, sc, sc')
    ensures ParsedUses(repo, sc', dirs, files).Some?
    ensures AllCorrespond(sc, sc', ParsedUses(repo, sc, dirs, files).value, ParsedUses(repo, sc', dirs, files).value)
  {
    hide Corresponds, TagEdits, WalkRoots, WalkAll, PlainEnvironments, NoDuplicateWorkloads, EntriesOk, FileOk;
    DeclarationsStayOk(repo, sc, sc');
    RootsCorrespond(repo, sc, sc', dirs);
    SecondPassCorresponds(repo, sc, sc', dirs, WalkRoots(repo, sc, dirs).value.count);
    PlainEnvironmentsCorrespond(repo, sc, sc', files);
    SameIdentities(repo, sc, sc', ParsedUses(repo, sc, dirs, files).value,
                   WalkRoots(repo, sc', dirs).value.uses + PlainEnvironments(repo, sc', files));
  }

  lemma DeclarationsStayOk(repo: Repo, sc: Scalars, sc': Scalars)
    requires DeclarationsOk(repo, sc) && TagEdits(repo, sc, sc')
    ensures DeclarationsOk(repo, sc')
  {
    hide ValidRef, TagEdits;
    forall f, i | f in repo.plain && 0 <= i < |repo.plain[f]|
      ensures ValidRef(At(sc', repo.plain[f][i].Key()).value)
    {
      PlainCorrespond(repo, sc, sc', f);
    }
  }

  /** Every use of a clean parse carries the target that decides its tag. */
  lemma ParsedTargetsDecide(repo: Repo, sc: Scalars, dirs: seq<string>, files: seq<string>)
    requires ParsedUses(repo, sc, dirs, files).Some?
    ensures forall u :: u in ParsedUses(repo, sc, dirs, files).value ==> TargetDecides(sc, u)
  {
    hide ParsedUses, TargetDecides, ValidRef, Strip, TagOk, IsNameKey, IsTagKey, IsDeclarationKey;
    assert TagEdits(repo, sc, sc);
    ParseCorresponds(repo, sc, sc, dirs, files);
  }
}
