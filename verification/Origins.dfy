/** Where rendered uses come from: each from one declaration, and no two with the same key. */
module Origins {
  import opened Strings
  import opened Sorting
  import opened ImageRefs
  import opened Repository
  import opened Render
  import opened Resolver
  import opened Targets

  /** `u` descends from declaration `i` of `file`, and its target is that scalar or a `newTag`. */
  ghost predicate ComesFrom(repo: Repo, u: Use, file: string, i: nat) {
    && file in repo.plain && i < |repo.plain[file]|
    && (var d := repo.plain[file][i];
        && u.resource == d.resource && u.container == d.container
        && u.source.file == d.file && u.source.doc == d.doc && u.source.path == d.path
        && IsDeclarationKey(repo, u.source.Key()))
    && (if u.target.tagOnly then IsTagKey(repo, u.target.Key()) else u.target == u.source)
  }

  ghost predicate FromFile(repo: Repo, u: Use, file: string) {
    exists i: nat :: ComesFrom(repo, u, file, i)
  }

  ghost predicate FromReferenced(repo: Repo, u: Use) {
    exists file :: Referenced(repo, file) && FromFile(repo, u, file)
  }

  /** No two image scalars share resource and path, within a file or across files. */
  ghost predicate UniqueDeclarations(repo: Repo) {
    forall f, i, g, j ::
      f in repo.plain && 0 <= i < |repo.plain[f]| && g in repo.plain && 0 <= j < |repo.plain[g]|
      && SameScalar(repo.plain[f][i], repo.plain[g][j])
      ==> f == g && i == j
  }

  predicate SameScalar(a: Declaration, b: Declaration) {
    a.resource == b.resource && a.path == b.path
  }

  /** What overrides leave alone. */
  ghost predicate SameOrigin(repo: Repo, u: Use, v: Use) {
    && v.resource == u.resource && v.container == u.container && v.source == u.source
    && (v.target == u.target || (v.target.tagOnly && IsTagKey(repo, v.target.Key())))
  }

  lemma OverrideOrigin(repo: Repo, dir: string, i: nat, sc: Scalars, u: Use)
    requires dir in repo.ks && repo.ks[dir].images.Overrides? && i < |repo.ks[dir].images.items|
    requires repo.ks[dir].images.items[i].Override?
    requires OverrideOne(repo.ks[dir].file, i, repo.ks[dir].images.items[i], sc, u).Some?
    ensures SameOrigin(repo, u, OverrideOne(repo.ks[dir].file, i, repo.ks[dir].images.items[i], sc, u).value)
  {
    hide ValidRef, NameOnly, ImageTag, WithTag, RawName, LocationKey, TagPath, NamePath;
    assert IsTagKey(repo, TagKey(repo.ks[dir].file, i));
  }

  lemma {:induction false} OverridesOrigin(repo: Repo, dir: string, n: nat, sc: Scalars, u: Use)
    requires dir in repo.ks && repo.ks[dir].images.Overrides? && n <= |repo.ks[dir].images.items|
    requires forall ov :: ov in repo.ks[dir].images.items ==> ov.Override?
    requires OverrideUse(repo.ks[dir].file, repo.ks[dir].images.items[..n], sc, u).Some?
    ensures SameOrigin(repo, u, OverrideUse(repo.ks[dir].file, repo.ks[dir].images.items[..n], sc, u).value)
    decreases n
  {
    hide OverrideOne;
    var k := repo.ks[dir];
    if n > 0 {
      assert k.images.items[..n][..n - 1] == k.images.items[..n - 1];
      OverridesOrigin(repo, dir, n - 1, sc, u);
      OverrideOrigin(repo, dir, n - 1, sc, OverrideUse(k.file, k.images.items[..n - 1], sc, u).value);
    }
  }

  lemma ImagesOrigin(repo: Repo, dir: string, sc: Scalars, us: seq<Use>)
    requires dir in repo.ks && ApplyImages(repo.ks[dir], sc, us).Some?
    ensures var r := ApplyImages(repo.ks[dir], sc, us).value;
            forall j :: 0 <= j < |us| ==> SameOrigin(repo, us[j], r[j])
  {
    hide OverrideUse, NameOnly;
    var k := repo.ks[dir];
    if k.images.Overrides? {
      var ovs := k.images.items;
      assert ovs[..|ovs|] == ovs;
      forall j | 0 <= j < |us|
        ensures SameOrigin(repo, us[j], OverrideUse(k.file, ovs, sc, us[j]).value)
      {
        OverridesOrigin(repo, dir, |ovs|, sc, us[j]);
      }
    }
  }

  ghost predicate AllReferenced(repo: Repo, us: seq<Use>) {
    forall u :: u in us ==> FromReferenced(repo, u)
  }

  lemma SameOriginFrom(repo: Repo, u: Use, v: Use)
    requires SameOrigin(repo, u, v) && FromReferenced(repo, u)
    ensures FromReferenced(repo, v)
  {
    hide Referenced, LocationKey, IsDeclarationKey, IsTagKey;
    var file :| Referenced(repo, file) && FromFile(repo, u, file);
    var i: nat :| ComesFrom(repo, u, file, i);
    assert ComesFrom(repo, v, file, i);
    assert FromFile(repo, v, file);
  }

  lemma PlainOrigin(repo: Repo, sc: Scalars, file: string)
    ensures forall u :: u in PlainUses(repo, sc, file) ==> FromFile(repo, u, file)
  {
    hide LocationKey;
    forall u | u in PlainUses(repo, sc, file)
      ensures FromFile(repo, u, file)
    {
      var i :| 0 <= i < |PlainUses(repo, sc, file)| && PlainUses(repo, sc, file)[i] == u;
      assert u == PlainUse(sc, repo.plain[file][i]);
      assert IsDeclarationKey(repo, repo.plain[file][i].Key());
      assert ComesFrom(repo, u, file, i);
    }
  }

  lemma {:induction false} WalkOrigins(repo: Repo, sc: Scalars, dir: string, path: set<string>, count: nat)
    requires Walk(repo, sc, dir, path, count).Some?
    ensures AllReferenced(repo, Walk(repo, sc, dir, path, count).value.uses)
    ensures NoDuplicates(Walk(repo, sc, dir, path, count).value.uses)
    decreases repo.ks.Keys - path, 0
  {
    hide ApplyImages, FromReferenced, SameOrigin;
    if dir in repo.ks {
      var entries := repo.ks[dir].entries;
      assert entries[..|entries|] == entries;
      EntriesOrigins(repo, sc, dir, |entries|, path + {dir}, count + 1);
      var v := WalkEntries(repo, sc, dir, entries, path + {dir}, count + 1).value;
      ImagesOrigin(repo, dir, sc, v.uses);
      var uses := ApplyImages(repo.ks[dir], sc, v.uses).value;
      forall j | 0 <= j < |uses|
        ensures FromReferenced(repo, uses[j])
        ensures uses[j].resource == v.uses[j].resource && uses[j].container == v.uses[j].container
      {
        OriginNames(repo, v.uses[j], uses[j]);
        SameOriginFrom(repo, v.uses[j], uses[j]);
      }
    }
  }

  lemma OriginNames(repo: Repo, u: Use, v: Use)
    requires SameOrigin(repo, u, v)
    ensures v.resource == u.resource && v.container == u.container
  {
  }

  lemma {:induction false} EntriesOrigins(repo: Repo, sc: Scalars, dir: string, n: nat, path: set<string>, count: nat)
    requires dir in repo.ks && n <= |repo.ks[dir].entries|
    requires WalkEntries(repo, sc, dir, repo.ks[dir].entries[..n], path, count).Some?
    ensures AllReferenced(repo, WalkEntries(repo, sc, dir, repo.ks[dir].entries[..n], path, count).value.uses)
    decreases repo.ks.Keys - path, 1, n
  {
    hide LocalPath, FileAllowed, PlainUses, FromReferenced, NoDuplicates;
    var entries := repo.ks[dir].entries;
    if n > 0 {
      assert entries[..n][..n - 1] == entries[..n - 1];
      EntriesOrigins(repo, sc, dir, n - 1, path, count);
      var c := WalkEntries(repo, sc, dir, entries[..n - 1], path, count).value.count;
      var name := LocalPath(dir, entries[n - 1]);
      if name.Some? {
        if name.value in repo.ks {
          WalkOrigins(repo, sc, name.value, path, c);
        } else {
          EntryFileReferenced(repo, sc, dir, n - 1, name.value);
        }
      }
    }
  }

  lemma EntryFileReferenced(repo: Repo, sc: Scalars, dir: string, i: nat, file: string)
    requires dir in repo.ks && i < |repo.ks[dir].entries| && LocalPath(dir, repo.ks[dir].entries[i]) == Some(file)
    ensures AllReferenced(repo, PlainUses(repo, sc, file))
  {
    hide PlainUses, FromFile;
    PlainOrigin(repo, sc, file);
    assert Referenced(repo, file);
  }

  // ----- keys -----

  predicate SameKey(u: Use, v: Use) {
    u.resource == v.resource && u.container == v.container && u.environment == v.environment && u.source.path == v.source.path
  }

  /** No two uses of the list share resource, container, environment and path. */
  ghost predicate DistinctKeys(us: seq<Use>) {
    forall i, j :: 0 <= i < j < |us| ==> !SameKey(us[i], us[j])
  }

  ghost predicate RootUse(repo: Repo, u: Use, dirs: seq<string>) {
    FromReferenced(repo, u) && u.environment in dirs
  }

  lemma StampOrigin(repo: Repo, u: Use, env: string)
    requires FromReferenced(repo, u)
    ensures FromReferenced(repo, u.(environment := env))
  {
    hide Referenced, LocationKey, IsDeclarationKey, IsTagKey;
    var file :| Referenced(repo, file) && FromFile(repo, u, file);
    var i: nat :| ComesFrom(repo, u, file, i);
    assert ComesFrom(repo, u.(environment := env), file, i);
    assert FromFile(repo, u.(environment := env), file);
  }

  lemma {:induction false} RootKeys(repo: Repo, sc: Scalars, dirs: seq<string>)
    requires WalkRoots(repo, sc, dirs).Some?
    requires Ascending(x => x, dirs)
    ensures forall u :: u in WalkRoots(repo, sc, dirs).value.uses ==> RootUse(repo, u, dirs)
    ensures DistinctKeys(WalkRoots(repo, sc, dirs).value.uses)
    decreases |dirs|
  {
    hide Walk, FromReferenced, Referenced, NoDuplicates;
    if dirs != [] {
      var init, dir := dirs[..|dirs| - 1], dirs[|dirs| - 1];
      RootKeys(repo, sc, init);
      var v := WalkRoots(repo, sc, init).value;
      assert forall e :: e in init ==> e in dirs;
      if !Referenced(repo, dir) {
        var w := Walk(repo, sc, dir, {}, v.count).value;
        WalkOrigins(repo, sc, dir, {}, v.count);
        forall j | 0 <= j < |w.uses|
          ensures FromReferenced(repo, w.uses[j].(environment := dir))
        {
          StampOrigin(repo, w.uses[j], dir);
        }
        FreshEnvironment(dirs);
        AppendEnvironment(v.uses, w.uses, init, dir);
      }
    }
  }

  lemma FreshEnvironment(dirs: seq<string>)
    requires Ascending(x => x, dirs) && dirs != []
    ensures dirs[|dirs| - 1] !in dirs[..|dirs| - 1]
  {
    LessIrreflexive(dirs[|dirs| - 1]);
  }

  lemma AppendEnvironment(before: seq<Use>, uses: seq<Use>, envs: seq<string>, env: string)
    requires DistinctKeys(before) && NoDuplicates(uses) && env !in envs
    requires forall u :: u in before ==> u.environment in envs
    ensures DistinctKeys(before + Stamp(env, uses))
  {
    var all := before + Stamp(env, uses);
    forall i, j | 0 <= i < j < |all|
      ensures !SameKey(all[i], all[j])
    {
      if j < |before| {
        assert all[i] == before[i] && all[j] == before[j];
      } else if i < |before| {
        assert all[i] == before[i] && all[i].environment in envs;
      } else {
        assert all[i] == uses[i - |before|].(environment := env) && all[j] == uses[j - |before|].(environment := env);
      }
    }
  }

  ghost predicate FromUnreferenced(repo: Repo, u: Use, files: seq<string>) {
    exists file :: file in files && !Referenced(repo, file) && FromFile(repo, u, file)
  }

  lemma {:induction false} PlainKeys(repo: Repo, sc: Scalars, files: seq<string>)
    requires UniqueDeclarations(repo) && Ascending(x => x, files)
    ensures forall u :: u in PlainEnvironments(repo, sc, files) ==> FromUnreferenced(repo, u, files)
    ensures DistinctKeys(PlainEnvironments(repo, sc, files))
    decreases |files|
  {
    hide FromFile, Referenced, PlainUses, UniqueDeclarations;
    if files != [] {
      var init, file := files[..|files| - 1], files[|files| - 1];
      PlainKeys(repo, sc, init);
      FreshEnvironment(files);
      var before := PlainEnvironments(repo, sc, init);
      if !Referenced(repo, file) {
        var env := "plain:" + Dir(file);
        PlainStamped(repo, sc, file, env);
        forall u | u in before
          ensures FromUnreferenced(repo, u, files)
        {
          var f :| f in init && !Referenced(repo, f) && FromFile(repo, u, f);
          assert f in files;
        }
        forall i, j | 0 <= i < |before| && 0 <= j < |PlainUses(repo, sc, file)|
          ensures !SameKey(before[i], Stamp(env, PlainUses(repo, sc, file))[j])
        {
          assert FromUnreferenced(repo, before[i], init);
          var f :| f in init && !Referenced(repo, f) && FromFile(repo, before[i], f);
          FilesSeparate(repo, before[i], f, Stamp(env, PlainUses(repo, sc, file))[j], file);
        }
      } else {
        assert before + [] == before;
        forall u | u in before
          ensures FromUnreferenced(repo, u, files)
        {
          var f :| f in init && !Referenced(repo, f) && FromFile(repo, u, f);
          assert f in files;
        }
      }
    }
  }

  lemma FilesSeparate(repo: Repo, u: Use, f: string, v: Use, g: string)
    requires UniqueDeclarations(repo) && FromFile(repo, u, f) && FromFile(repo, v, g) && f != g
    ensures !SameKey(u, v)
  {
    hide LocationKey, IsDeclarationKey, IsTagKey;
    var i: nat :| ComesFrom(repo, u, f, i);
    var j: nat :| ComesFrom(repo, v, g, j);
  }

  lemma PlainStamped(repo: Repo, sc: Scalars, file: string, env: string)
    requires UniqueDeclarations(repo)
    ensures forall u :: u in Stamp(env, PlainUses(repo, sc, file)) ==> FromFile(repo, u, file)
    ensures DistinctKeys(Stamp(env, PlainUses(repo, sc, file)))
  {
    hide LocationKey;
    var us := Stamp(env, PlainUses(repo, sc, file));
    forall i | 0 <= i < |us|
      ensures FromFile(repo, us[i], file)
    {
      assert us[i] == PlainUse(sc, repo.plain[file][i]).(environment := env);
      assert IsDeclarationKey(repo, repo.plain[file][i].Key());
      assert ComesFrom(repo, us[i], file, i);
    }
  }

  /** In a clean parse, resource, container, environment and path identify a use. */
  lemma ParsedKeysDistinct(repo: Repo, sc: Scalars, dirs: seq<string>, files: seq<string>)
    requires ParsedUses(repo, sc, dirs, files).Some?
    requires InOrder(dirs, repo.ks.Keys) && InOrder(files, repo.files)
    requires UniqueDeclarations(repo)
    ensures DistinctKeys(ParsedUses(repo, sc, dirs, files).value)
    ensures forall u :: u in ParsedUses(repo, sc, dirs, files).value ==> exists f :: FromFile(repo, u, f)
  {
    hide WalkRoots, WalkAll, PlainEnvironments, NoDuplicateWorkloads, DeclarationsOk, EntriesOk, FromFile, Referenced, UniqueDeclarations, Ascending;
    RootKeys(repo, sc, dirs);
    PlainKeys(repo, sc, files);
    var a, b := WalkRoots(repo, sc, dirs).value.uses, PlainEnvironments(repo, sc, files);
    forall i, j | 0 <= i < |a| && 0 <= j < |b|
      ensures !SameKey(a[i], b[j])
    {
      assert RootUse(repo, a[i], dirs) && FromUnreferenced(repo, b[j], files);
      var f :| Referenced(repo, f) && FromFile(repo, a[i], f);
      var g :| g in files && !Referenced(repo, g) && FromFile(repo, b[j], g);
      FilesSeparate(repo, a[i], f, b[j], g);
    }
    forall u | u in a + b
      ensures exists f :: FromFile(repo, u, f)
    {
      if u in a {
        assert RootUse(repo, u, dirs);
      } else {
        assert FromUnreferenced(repo, u, files);
      }
    }
  }
}
