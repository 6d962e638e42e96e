/** Which overrides a use passes after a given one. If none of them names the stem that a `newTag`
    without a tag is attached to, that `newTag` stays the last override when it is edited. */
module Passing {
  import opened Strings
  import opened Sorting
  import opened ImageRefs
  import opened Repository
  import opened Render
  import opened Resolver
  import opened Targets
  import opened Lockstep
  import opened Origins
  import opened Forks
  import opened Writer
  import opened Planner
  import opened PlanBuilder
  import opened PlanTheorems
  import opened PlanStability
  import opened TagNecessity
  import G = Graph

  // ----- the order of overrides -----

  ghost predicate Reaches(repo: Repo, a: string, b: string) {
    exists p :: |p| > 0 && p[0] == a && p[|p| - 1] == b && IsWalk(repo, p)
  }

  predicate HasElement(repo: Repo, dir: string, i: int) {
    dir in repo.ks && repo.ks[dir].images.Overrides? && 0 <= i < |repo.ks[dir].images.items|
  }

  /** The scalar is the `newTag` of an element at or below the directory, among its first `n` if it
      is of the directory itself. */
  ghost predicate From(repo: Repo, dir: string, n: int, key: string) {
    exists d, i :: HasElement(repo, d, i) && TagKey(repo.ks[d].file, i) == key && Reaches(repo, dir, d) && (d == dir ==> i < n)
  }

  /** Where `root` is rendered, this element is applied to what the element of the scalar was applied to,
      and later. */
  ghost predicate AppliedLater(repo: Repo, root: string, key: string, dir: string, i: int) {
    Reaches(repo, root, dir) && From(repo, dir, i, key)
  }

  predicate Names(repo: Repo, dir: string, i: int, name: string) {
    HasElement(repo, dir, i) && repo.ks[dir].images.items[i].Override? && repo.ks[dir].images.items[i].name == name
  }

  /** No later element names the image. */
  ghost predicate Quiet(repo: Repo, root: string, key: string, name: string) {
    forall dir, i :: Names(repo, dir, i, name) ==> !AppliedLater(repo, root, key, dir, i)
  }

  lemma {:induction false} ReachesFurther(repo: Repo, a: string, b: string, c: string)
    requires Edge(repo, a, b) && Reaches(repo, b, c)
    ensures Reaches(repo, a, c)
  {
    hide LocalPath;
    var p :| |p| > 0 && p[0] == b && p[|p| - 1] == c && IsWalk(repo, p);
    var q := [a] + p;
    forall i | 0 <= i < |q| - 1
      ensures Edge(repo, q[i], q[i + 1])
    {
      if i > 0 {
        assert Edge(repo, p[i - 1], p[i]);
      }
    }
    assert q[0] == a && q[|q| - 1] == c;
  }

  lemma {:induction false} ReachesOn(repo: Repo, a: string, b: string, c: string)
    requires Reaches(repo, a, b) && Edge(repo, b, c)
    ensures Reaches(repo, a, c)
  {
    hide LocalPath;
    var p :| |p| > 0 && p[0] == a && p[|p| - 1] == b && IsWalk(repo, p);
    var q := p + [c];
    forall i | 0 <= i < |q| - 1
      ensures Edge(repo, q[i], q[i + 1])
    {
      if i < |p| - 1 {
        assert Edge(repo, p[i], p[i + 1]);
      }
    }
    assert q[0] == a && q[|q| - 1] == c;
  }

  lemma ReachesItself(repo: Repo, a: string)
    ensures Reaches(repo, a, a)
  {
    var p := [a];
    assert |p| > 0 && p[0] == a && p[|p| - 1] == a && IsWalk(repo, p);
  }

  // ----- uses -----

  function LastKey(u: Use): string {
    if u.overrides == [] then "" else u.overrides[|u.overrides| - 1].Key()
  }

  /** The image without the value of its last override. */
  function StemOf(sc: Scalars, u: Use): string {
    var n := |At(sc, LastKey(u)).value| + 1;
    if n <= |u.effectiveImage| then u.effectiveImage[..|u.effectiveImage| - n] else ""
  }

  /** A use before and after the edit, when the first `n` elements of `dir` have been applied: an
      exposed one stays so, if no later element names its stem. */
  ghost predicate Sharp(repo: Repo, sc: Scalars, sc': Scalars, bad: set<string>, root: string, dir: string, n: int, u: Use, v: Use) {
    && Related(sc, sc', bad, u, v)
    && (Exposed(bad, u) ==> From(repo, dir, n, LastKey(u)) && (Quiet(repo, root, LastKey(u), StemOf(sc, u)) ==> Exposed(bad, v) && SameEnd(u, v)))
  }

  ghost predicate AllSharp(repo: Repo, sc: Scalars, sc': Scalars, bad: set<string>, root: string, dir: string, n: int, us: seq<Use>, vs: seq<Use>) {
    |us| == |vs| && forall i :: 0 <= i < |us| ==> Sharp(repo, sc, sc', bad, root, dir, n, us[i], vs[i])
  }

  ghost predicate TagsAfter(sc': Scalars, bad: set<string>) {
    forall key :: key in bad ==> TagOk(At(sc', key).value)
  }

  /** After the edit the image of an exposed use is named by its stem. */
  lemma StemNames(sc: Scalars, sc': Scalars, bad: set<string>, u: Use, v: Use)
    requires Related(sc, sc', bad, u, v) && Exposed(bad, u) && Exposed(bad, v) && SameEnd(u, v) && TagsAfter(sc', bad)
    ensures RawName(v.effectiveImage) == StemOf(sc, u) || RawName(v.effectiveImage) == ""
  {
    hide HasBad, Corresponds, ValidRef, TagOk, Strip, LocationKey;
    ExposedHasBad(bad, u);
    assert Forked(sc, sc', u, v);
    var key := LastKey(u);
    var stem :| '@' !in stem && u.effectiveImage == stem + ":" + At(sc, key).value && v.effectiveImage == stem + ":" + At(sc', key).value;
    assert (stem + ":" + At(sc, key).value)[..|stem|] == stem;
    TagOkChars(At(sc', key).value);
    TaggedParts(stem, At(sc', key).value);
  }

  lemma IdleElement(file: string, i: nat, ov: Override, sc: Scalars, u: Use)
    requires ov.Override? && NameOnly(ov.name) && (RawName(u.effectiveImage) == "" || ov.name != RawName(u.effectiveImage))
    ensures OverrideOne(file, i, ov, sc, u) == Some(u)
  {
    hide ValidRef, TagOk, Strip, LocationKey;
    NameOnlyIsStripped(ov.name);
  }

  /** An element whose tag is edited and was none exposes a use on both sides. */
  lemma BothExposed(file: string, i: nat, ov: Override, sc: Scalars, sc': Scalars, bad: set<string>, u: Use, v: Use)
    requires ov.Override? && TagKey(file, i) in bad && At(sc', NameKey(file, i)).value == At(sc, NameKey(file, i)).value
    requires Corresponds(sc, sc', u, v) && !HasBad(bad, u.overrides) && !HasBad(bad, v.overrides)
    requires OverrideOne(file, i, ov, sc, u).Some? && OverrideOne(file, i, ov, sc', v).Some?
    ensures var r, r' := OverrideOne(file, i, ov, sc, u).value, OverrideOne(file, i, ov, sc', v).value;
            Exposed(bad, r) ==> LastKey(r) == TagKey(file, i) && Exposed(bad, r') && SameEnd(r, r')
  {
    hide ValidRef, NameOnly, RawName, HasBad, Exposed, LocationKey, Corresponds, TargetDecides, Strip, Rename, NewName;
    var r, r' := OverrideOne(file, i, ov, sc, u).value, OverrideOne(file, i, ov, sc', v).value;
    CorrespondsDecides(sc, sc', u, v);
    if Matches(ov, u) {
      var w, w' := Renamed(file, i, ov, sc, u), Renamed(file, i, ov, sc', v);
      RenameAddsNoBad(file, i, ov, sc, bad, u);
      RenameAddsNoBad(file, i, ov, sc', bad, v);
      if ov.newTag.NewTag? {
        ExposedMore(bad, r, w.overrides, Locate(sc, file, 0, TagPath(i), true));
        ExposedMore(bad, r', w'.overrides, Locate(sc', file, 0, TagPath(i), true));
      } else {
        NotExposed(bad, r);
      }
    } else {
      NotExposed(bad, r);
    }
  }

  lemma NotExposed(bad: set<string>, u: Use)
    requires !HasBad(bad, u.overrides)
    ensures !Exposed(bad, u)
  {
    if Exposed(bad, u) {
      ExposedHasBad(bad, u);
    }
  }

  // ----- one element, one list -----

  lemma ElementSharp(repo: Repo, root: string, dir: string, i: nat, sc: Scalars, sc': Scalars, bad: set<string>, u: Use, v: Use)
    requires HasElement(repo, dir, i) && repo.ks[dir].images.items[i].Override? && NameOnly(repo.ks[dir].images.items[i].name)
    requires EditsExcept(repo, sc, sc', bad) && TagsAfter(sc', bad) && Reaches(repo, root, dir)
    requires Sharp(repo, sc, sc', bad, root, dir, i, u, v)
    requires OverrideOne(repo.ks[dir].file, i, repo.ks[dir].images.items[i], sc, u).Some?
    requires OverrideOne(repo.ks[dir].file, i, repo.ks[dir].images.items[i], sc', v).Some?
    ensures var k := repo.ks[dir];
            Sharp(repo, sc, sc', bad, root, dir, i + 1, OverrideOne(k.file, i, k.images.items[i], sc, u).value,
                  OverrideOne(k.file, i, k.images.items[i], sc', v).value)
  {
    hide OverrideOne, Related, HasBad, Exposed, LocationKey, TagKey, NameKey, TagsAfter, EditsExcept, Reaches, NameOnly, RawName, SameEnd;
    var k := repo.ks[dir];
    var ov := k.images.items[i];
    var r, r' := OverrideOne(k.file, i, ov, sc, u).value, OverrideOne(k.file, i, ov, sc', v).value;
    ElementRelated(repo, dir, i, sc, sc', bad, u, v);
    if Exposed(bad, r) {
      if HasBad(bad, u.overrides) {
        PastElement(repo, root, dir, i, sc, sc', bad, u, v);
      } else {
        ExposingElement(repo, dir, i, sc, sc', bad, u, v);
        ReachesItself(repo, dir);
        assert HasElement(repo, dir, i) && TagKey(k.file, i) == LastKey(r);
      }
    }
  }

  /** An exposed use passes the element untouched, before and, in the quiet case, after the edit. */
  lemma PastElement(repo: Repo, root: string, dir: string, i: nat, sc: Scalars, sc': Scalars, bad: set<string>, u: Use, v: Use)
    requires HasElement(repo, dir, i) && repo.ks[dir].images.items[i].Override? && NameOnly(repo.ks[dir].images.items[i].name)
    requires TagsAfter(sc', bad) && Reaches(repo, root, dir) && Sharp(repo, sc, sc', bad, root, dir, i, u, v) && HasBad(bad, u.overrides)
    requires OverrideOne(repo.ks[dir].file, i, repo.ks[dir].images.items[i], sc, u).Some?
    requires OverrideOne(repo.ks[dir].file, i, repo.ks[dir].images.items[i], sc', v).Some?
    ensures var k := repo.ks[dir];
            var r, r' := OverrideOne(k.file, i, k.images.items[i], sc, u).value, OverrideOne(k.file, i, k.images.items[i], sc', v).value;
            Exposed(bad, r) ==> r == u && From(repo, dir, i, LastKey(r)) && (Quiet(repo, root, LastKey(r), StemOf(sc, r)) ==> r' == v && Exposed(bad, v) && SameEnd(u, v))
  {
    hide OverrideOne, Related, HasBad, Exposed, LocationKey, TagsAfter, Reaches, NameOnly, RawName, SameEnd, From, StemOf, LastKey;
    var k := repo.ks[dir];
    var ov := k.images.items[i];
    OverrideAdds(k.file, i, ov, sc, bad, u);
    if Exposed(bad, OverrideOne(k.file, i, ov, sc, u).value) && Quiet(repo, root, LastKey(u), StemOf(sc, u)) {
      StemNames(sc, sc', bad, u, v);
      assert AppliedLater(repo, root, LastKey(u), dir, i);
      assert !Names(repo, dir, i, StemOf(sc, u));
      IdleElement(k.file, i, ov, sc', v);
    }
  }

  /** A use that becomes exposed here does so on both sides. */
  lemma ExposingElement(repo: Repo, dir: string, i: nat, sc: Scalars, sc': Scalars, bad: set<string>, u: Use, v: Use)
    requires HasElement(repo, dir, i) && repo.ks[dir].images.items[i].Override?
    requires EditsExcept(repo, sc, sc', bad) && Related(sc, sc', bad, u, v) && !HasBad(bad, u.overrides)
    requires OverrideOne(repo.ks[dir].file, i, repo.ks[dir].images.items[i], sc, u).Some?
    requires OverrideOne(repo.ks[dir].file, i, repo.ks[dir].images.items[i], sc', v).Some?
    ensures var k := repo.ks[dir];
            var r, r' := OverrideOne(k.file, i, k.images.items[i], sc, u).value, OverrideOne(k.file, i, k.images.items[i], sc', v).value;
            Exposed(bad, r) ==> LastKey(r) == TagKey(k.file, i) && Exposed(bad, r') && SameEnd(r, r')
  {
    hide OverrideOne, Corresponds, HasBad, Exposed, LocationKey, NamePath, TagPath, TagOk, Forked, SamePlace, SameEnd, LastKey;
    var k := repo.ks[dir];
    var ov := k.images.items[i];
    ElementScalars(repo, dir, i, sc, sc', bad);
    if TagKey(k.file, i) in bad {
      BothExposed(k.file, i, ov, sc, sc', bad, u, v);
    } else {
      NothingBadAdded(k.file, i, ov, sc, bad, u);
      NotExposed(bad, OverrideOne(k.file, i, ov, sc, u).value);
    }
  }

  lemma {:induction false} OverridesSharp(repo: Repo, root: string, dir: string, n: nat, sc: Scalars, sc': Scalars, bad: set<string>, u: Use, v: Use)
    requires dir in repo.ks && repo.ks[dir].images.Overrides? && n <= |repo.ks[dir].images.items| && OverridesOk(repo.ks[dir].images.items)
    requires EditsExcept(repo, sc, sc', bad) && TagsAfter(sc', bad) && Reaches(repo, root, dir) && Sharp(repo, sc, sc', bad, root, dir, 0, u, v)
    requires OverrideUse(repo.ks[dir].file, repo.ks[dir].images.items[..n], sc, u).Some?
    requires OverrideUse(repo.ks[dir].file, repo.ks[dir].images.items[..n], sc', v).Some?
    ensures var k := repo.ks[dir];
            Sharp(repo, sc, sc', bad, root, dir, n, OverrideUse(k.file, k.images.items[..n], sc, u).value,
                  OverrideUse(k.file, k.images.items[..n], sc', v).value)
    decreases n
  {
    hide Sharp, EditsExcept, OverrideOne, TagsAfter, Reaches, NameOnly;
    var k := repo.ks[dir];
    var ovs := k.images.items;
    if n > 0 {
      assert ovs[..n][..n - 1] == ovs[..n - 1] && ovs[..n][n - 1] == ovs[n - 1];
      OverridesSharp(repo, root, dir, n - 1, sc, sc', bad, u, v);
      ElementSharp(repo, root, dir, n - 1, sc, sc', bad,
                   OverrideUse(k.file, ovs[..n - 1], sc, u).value, OverrideUse(k.file, ovs[..n - 1], sc', v).value);
    }
  }

  function ElementCount(k: Kustomization): nat {
    if k.images.Overrides? then |k.images.items| else 0
  }

  lemma ImagesSharp(repo: Repo, root: string, dir: string, sc: Scalars, sc': Scalars, bad: set<string>, us: seq<Use>, vs: seq<Use>)
    requires dir in repo.ks && EditsExcept(repo, sc, sc', bad) && TagsAfter(sc', bad) && Reaches(repo, root, dir)
    requires AllSharp(repo, sc, sc', bad, root, dir, 0, us, vs)
    requires ApplyImages(repo.ks[dir], sc, us).Some? && ApplyImages(repo.ks[dir], sc', vs).Some?
    ensures AllSharp(repo, sc, sc', bad, root, dir, ElementCount(repo.ks[dir]), ApplyImages(repo.ks[dir], sc, us).value,
                     ApplyImages(repo.ks[dir], sc', vs).value)
  {
    hide Sharp, EditsExcept, OverrideUse, NameOnly, TagsAfter, Reaches;
    var k := repo.ks[dir];
    if k.images.Overrides? {
      var ovs := k.images.items;
      assert ovs[..|ovs|] == ovs;
      forall j | 0 <= j < |us|
        ensures Sharp(repo, sc, sc', bad, root, dir, |ovs|, OverrideUse(k.file, ovs, sc, us[j]).value, OverrideUse(k.file, ovs, sc', vs[j]).value)
      {
        OverridesSharp(repo, root, dir, |ovs|, sc, sc', bad, us[j], vs[j]);
      }
    }
  }

  // ----- the dependency graph -----

  lemma PlainSharp(repo: Repo, root: string, dir: string, sc: Scalars, sc': Scalars, bad: set<string>, file: string)
    requires EditsExcept(repo, sc, sc', bad) && DeclarationsOk(repo, sc)
    ensures AllSharp(repo, sc, sc', bad, root, dir, 0, PlainUses(repo, sc, file), PlainUses(repo, sc', file))
  {
    hide Related, EditsExcept, DeclarationsOk, HasBad, From, Quiet;
    PlainRelated(repo, sc, sc', bad, file);
  }

  /** What a dependency renders to is collected before any element of the directory is applied. */
  lemma ChildSharp(repo: Repo, root: string, dir: string, child: string, sc: Scalars, sc': Scalars, bad: set<string>, us: seq<Use>, vs: seq<Use>)
    requires child in repo.ks && Edge(repo, dir, child) && !Reaches(repo, child, dir)
    requires AllSharp(repo, sc, sc', bad, root, child, ElementCount(repo.ks[child]), us, vs)
    ensures AllSharp(repo, sc, sc', bad, root, dir, 0, us, vs)
  {
    hide Related, Exposed, Quiet, Edge, Reaches, LocationKey, SameEnd;
    forall i | 0 <= i < |us|
      ensures Sharp(repo, sc, sc', bad, root, dir, 0, us[i], vs[i])
    {
      assert Sharp(repo, sc, sc', bad, root, child, ElementCount(repo.ks[child]), us[i], vs[i]);
      if Exposed(bad, us[i]) {
        var d, j :| HasElement(repo, d, j) && TagKey(repo.ks[d].file, j) == LastKey(us[i]) && Reaches(repo, child, d);
        ReachesFurther(repo, dir, child, d);
        assert d != dir;
      }
    }
  }

  lemma {:induction false} WalkSharp(repo: Repo, root: string, sc: Scalars, sc': Scalars, bad: set<string>, dir: string, path: set<string>, count: nat)
    requires EditsExcept(repo, sc, sc', bad) && DeclarationsOk(repo, sc) && TagsAfter(sc', bad) && Reaches(repo, root, dir) && dir in repo.ks
    requires Walk(repo, sc, dir, path, count).Some? && Walk(repo, sc', dir, path, count).Some?
    ensures var v, v' := Walk(repo, sc, dir, path, count).value, Walk(repo, sc', dir, path, count).value;
            v'.count == v.count && AllSharp(repo, sc, sc', bad, root, dir, ElementCount(repo.ks[dir]), v.uses, v'.uses)
    decreases repo.ks.Keys - path, 0, 0
  {
    hide AllSharp, EditsExcept, ApplyImages, NoDuplicates, DeclarationsOk, Reaches, TagsAfter;
    var k := repo.ks[dir];
    assert k.entries[..|k.entries|] == k.entries;
    EntriesSharp(repo, root, sc, sc', bad, dir, |k.entries|, path + {dir}, count + 1);
    ImagesSharp(repo, root, dir, sc, sc', bad, WalkEntries(repo, sc, dir, k.entries, path + {dir}, count + 1).value.uses,
                WalkEntries(repo, sc', dir, k.entries, path + {dir}, count + 1).value.uses);
  }

  lemma {:induction false} EntriesSharp(
    repo: Repo, root: string, sc: Scalars, sc': Scalars, bad: set<string>, dir: string, n: nat, path: set<string>, count: nat)
    requires EditsExcept(repo, sc, sc', bad) && DeclarationsOk(repo, sc) && TagsAfter(sc', bad) && Reaches(repo, root, dir)
    requires dir in repo.ks && dir in path && n <= |repo.ks[dir].entries|
    requires WalkEntries(repo, sc, dir, repo.ks[dir].entries[..n], path, count).Some?
    requires WalkEntries(repo, sc', dir, repo.ks[dir].entries[..n], path, count).Some?
    ensures var entries := repo.ks[dir].entries[..n];
            var v, v' := WalkEntries(repo, sc, dir, entries, path, count).value, WalkEntries(repo, sc', dir, entries, path, count).value;
            v'.count == v.count && AllSharp(repo, sc, sc', bad, root, dir, 0, v.uses, v'.uses)
    decreases repo.ks.Keys - path, 1, n
  {
    hide Sharp, EditsExcept, LocalPath, FileAllowed, PlainUses, DeclarationsOk, Reaches, TagsAfter, Walk, Edge;
    var entries := repo.ks[dir].entries;
    if n > 0 {
      assert entries[..n][..n - 1] == entries[..n - 1] && entries[..n][n - 1] == entries[n - 1];
      EntriesSharp(repo, root, sc, sc', bad, dir, n - 1, path, count);
      var c := WalkEntries(repo, sc, dir, entries[..n - 1], path, count).value.count;
      var name := LocalPath(dir, entries[n - 1]);
      if name.Some? {
        PlainSharp(repo, root, dir, sc, sc', bad, name.value);
        if name.value in repo.ks {
          assert Edge(repo, dir, name.value) by {
            EdgeOfEntry(repo, dir, n - 1, name.value);
          }
          ReachesOn(repo, root, dir, name.value);
          WalkSharp(repo, root, sc, sc', bad, name.value, path, c);
          NotBack(repo, sc, name.value, dir, path, c);
          ChildSharp(repo, root, dir, name.value, sc, sc', bad, Walk(repo, sc, name.value, path, c).value.uses,
                     Walk(repo, sc', name.value, path, c).value.uses);
        }
      }
    }
  }

  lemma EdgeOfEntry(repo: Repo, dir: string, i: nat, name: string)
    requires dir in repo.ks && name in repo.ks && i < |repo.ks[dir].entries| && LocalPath(dir, repo.ks[dir].entries[i]) == Some(name)
    ensures Edge(repo, dir, name)
  {
    hide LocalPath;
  }

  lemma NotBack(repo: Repo, sc: Scalars, child: string, dir: string, path: set<string>, count: nat)
    requires child in repo.ks && dir in path && Walk(repo, sc, child, path, count).Some?
    ensures !Reaches(repo, child, dir)
  {
    hide Walk, IsWalk;
    if Reaches(repo, child, dir) {
      var p :| |p| > 0 && p[0] == child && p[|p| - 1] == dir && IsWalk(repo, p);
      G.WalkAvoidsPath(repo, sc, p, path, count);
      assert false;
    }
  }

  // ----- the whole repository -----

  /** An exposed use of an environment stays exposed, if no later element names its stem. */
  ghost predicate Stays(repo: Repo, sc: Scalars, bad: set<string>, u: Use, v: Use) {
    Exposed(bad, u) && Quiet(repo, u.environment, LastKey(u), StemOf(sc, u)) ==> Exposed(bad, v) && SameEnd(u, v)
  }

  ghost predicate AllStay(repo: Repo, sc: Scalars, bad: set<string>, us: seq<Use>, vs: seq<Use>) {
    |us| == |vs| && forall i :: 0 <= i < |us| ==> Stays(repo, sc, bad, us[i], vs[i])
  }

  lemma StampStays(repo: Repo, sc: Scalars, sc': Scalars, bad: set<string>, root: string, n: int, us: seq<Use>, vs: seq<Use>)
    requires AllSharp(repo, sc, sc', bad, root, root, n, us, vs)
    ensures AllStay(repo, sc, bad, Stamp(root, us), Stamp(root, vs))
  {
    hide Related, HasBad, From, Quiet, BadAt, LocationKey;
    forall i | 0 <= i < |us|
      ensures Stays(repo, sc, bad, us[i].(environment := root), vs[i].(environment := root))
    {
      assert Sharp(repo, sc, sc', bad, root, root, n, us[i], vs[i]);
    }
  }

  lemma {:induction false} RootsStay(repo: Repo, sc: Scalars, sc': Scalars, bad: set<string>, dirs: seq<string>)
    requires EditsExcept(repo, sc, sc', bad) && DeclarationsOk(repo, sc) && TagsAfter(sc', bad) && forall d :: d in dirs ==> d in repo.ks
    requires WalkRoots(repo, sc, dirs).Some? && WalkRoots(repo, sc', dirs).Some?
    ensures var v, v' := WalkRoots(repo, sc, dirs).value, WalkRoots(repo, sc', dirs).value;
            v'.count == v.count && AllStay(repo, sc, bad, v.uses, v'.uses)
    decreases |dirs|
  {
    hide Stays, AllSharp, EditsExcept, Walk, Referenced, DeclarationsOk, TagsAfter, Reaches;
    if dirs != [] {
      var init, dir := dirs[..|dirs| - 1], dirs[|dirs| - 1];
      RootsStay(repo, sc, sc', bad, init);
      var c := WalkRoots(repo, sc, init).value.count;
      if !Referenced(repo, dir) {
        ReachesItself(repo, dir);
        WalkSharp(repo, dir, sc, sc', bad, dir, {}, c);
        StampStays(repo, sc, sc', bad, dir, ElementCount(repo.ks[dir]), Walk(repo, sc, dir, {}, c).value.uses, Walk(repo, sc', dir, {}, c).value.uses);
      }
    }
  }

  lemma PlainStays(repo: Repo, sc: Scalars, sc': Scalars, bad: set<string>, env: string, file: string)
    ensures AllStay(repo, sc, bad, Stamp(env, PlainUses(repo, sc, file)), Stamp(env, PlainUses(repo, sc', file)))
  {
    hide Quiet, StemOf, LastKey, LocationKey;
  }

  lemma {:induction false} PlainEnvironmentsStay(repo: Repo, sc: Scalars, sc': Scalars, bad: set<string>, files: seq<string>)
    ensures AllStay(repo, sc, bad, PlainEnvironments(repo, sc, files), PlainEnvironments(repo, sc', files))
    decreases |files|
  {
    hide Referenced, Stays, PlainUses;
    if files != [] {
      var file := files[|files| - 1];
      PlainEnvironmentsStay(repo, sc, sc', bad, files[..|files| - 1]);
      PlainStays(repo, sc, sc', bad, "plain:" + Dir(file), file);
    }
  }

  lemma ParseStays(repo: Repo, sc: Scalars, sc': Scalars, bad: set<string>, dirs: seq<string>, files: seq<string>)
    requires EditsExcept(repo, sc, sc', bad) && TagsAfter(sc', bad) && forall d :: d in dirs ==> d in repo.ks
    requires ParsedUses(repo, sc, dirs, files).Some? && ParsedUses(repo, sc', dirs, files).Some?
    ensures AllStay(repo, sc, bad, ParsedUses(repo, sc, dirs, files).value, ParsedUses(repo, sc', dirs, files).value)
  {
    hide Stays, EditsExcept, WalkRoots, WalkAll, PlainEnvironments, NoDuplicateWorkloads, EntriesOk, DeclarationsOk, TagsAfter;
    RootsStay(repo, sc, sc', bad, dirs);
    PlainEnvironmentsStay(repo, sc, sc', bad, files);
  }

  // ----- plans -----

  /** The mutation is the last override applied to the use at position `j` and the only edited one
      without a tag, and no later element that the use passes names what it is attached to. */
  ghost predicate DecidesAt(repo: Repo, sc: Scalars, model: Model, ms: seq<Mutation>, m: Mutation, j: nat) {
    && j < |model.uses| && Exposed(BadKeys(ms), model.uses[j]) && model.uses[j].target.Key() == MutationKey(m)
    && Quiet(repo, model.uses[j].environment, MutationKey(m), StemOf(sc, model.uses[j]))
  }

  /** What can be known of the intent before anything is edited. */
  ghost predicate AllDecide(repo: Repo, sc: Scalars, model: Model, ms: seq<Mutation>) {
    forall m :: m in ms && BadMutation(m) ==> exists j: nat :: DecidesAt(repo, sc, model, ms, m, j)
  }

  lemma EditedToTags(
    repo: Repo, sc: Scalars, sc': Scalars, dirs: seq<string>, files: seq<string>,
    model: Model, intent: Intent, verified: seq<Artifact>, ms: seq<Mutation>)
    requires Drafted(repo, sc, sc', dirs, files, model, intent, verified, ms)
    ensures TagsAfter(sc', BadKeys(ms))
  {
    hide Renders, Plannable, IsMutationList, TagOk, LocationKey, ValidRef, PinAllowed, Selected;
    forall key | key in BadKeys(ms)
      ensures TagOk(At(sc', key).value)
    {
      var m :| m in ms && BadMutation(m) && MutationKey(m) == key;
      var p := MutationOrigin(model, intent, verified, ms, m);
      PairFacts(model, intent, verified, p);
      NotPinned(p, ResolvedMap(verified));
    }
  }

  /** So the condition of the exact theorem follows from what is known before. */
  lemma DecidedIsShown(
    repo: Repo, sc: Scalars, sc': Scalars, dirs: seq<string>, files: seq<string>,
    model: Model, intent: Intent, verified: seq<Artifact>, ms: seq<Mutation>, after: Model)
    requires Drafted(repo, sc, sc', dirs, files, model, intent, verified, ms) && AllDecide(repo, sc, model, ms)
    requires after.diagnostics == [] <==> ParsedUses(repo, sc', dirs, files).Some?
    requires after.diagnostics == [] ==> after.uses == ParsedUses(repo, sc', dirs, files).value
    ensures AllShown(model, after, ms)
  {
    hide ParsedUses, Plannable, IsMutationList, ScalarsAfter, Quiet, UniqueDeclarations, SeparateKeys, EditsExcept, TagsAfter, BadKeys, LocationKey, StemOf,
      HasBad, BadMutation, TargetDecides, FromFile, Ascending;
    var bad := BadKeys(ms);
    DraftIsEditsExcept(repo, sc, sc', dirs, files, model, intent, verified, ms);
    EditedToTags(repo, sc, sc', dirs, files, model, intent, verified, ms);
    if after.diagnostics == [] {
      ParseStays(repo, sc, sc', bad, dirs, files);
    }
    forall m | m in ms && BadMutation(m)
      ensures exists j: nat :: ShownAt(model, after, ms, m, j)
    {
      var j: nat :| DecidesAt(repo, sc, model, ms, m, j);
      var u := model.uses[j];
      RenderedUse(repo, sc, dirs, files, model.uses, u);
      ExposedTarget(sc, bad, u);
      assert LastKey(u) == MutationKey(m);
      assert after.diagnostics == [] ==> Stays(repo, sc, bad, u, after.uses[j]);
      assert ShownAt(model, after, ms, m, j);
    }
  }

  /** The exact condition, in terms of the repository before the edit: the check that renders again
      accepts the plan if and only if every edited `newTag` held a tag, wherever no later element
      that some use of it passes names the image it is attached to. */
  lemma CommutesExactly(
    repo: Repo, sc: Scalars, sc': Scalars, dirs: seq<string>, files: seq<string>,
    model: Model, intent: Intent, verified: seq<Artifact>, ms: seq<Mutation>, after: Model)
    requires Drafted(repo, sc, sc', dirs, files, model, intent, verified, ms) && AllDecide(repo, sc, model, ms)
    requires after.diagnostics == [] <==> ParsedUses(repo, sc', dirs, files).Some?
    requires after.diagnostics == [] ==> after.uses == ParsedUses(repo, sc', dirs, files).value
    ensures PostCheck(model.uses, after, Expected(Pairs(intent.changes, model.uses), ResolvedMap(verified))) <==> EditsValidTags(ms)
  {
    hide ParsedUses, Drafted, AllDecide, AllShown, PostCheck, Expected, Pairs, ResolvedMap, EditsValidTags;
    DecidedIsShown(repo, sc, sc', dirs, files, model, intent, verified, ms, after);
    CommutesExactlyForTags(repo, sc, sc', dirs, files, model, intent, verified, ms, after);
  }
}
