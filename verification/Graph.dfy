/** What a successful traversal says about the dependency graph: it does not depend on
    where the traversal came from, and the graph has no cycle and no dangling reference. */
module Graph {
  import opened Strings
  import opened Sorting
  import opened ImageRefs
  import opened Repository
  import opened Render
  import opened Resolver

  /** With a smaller path set and more budget left, the same directory renders the same uses. */
  lemma {:induction false} WalkShrinks(repo: Repo, sc: Scalars, dir: string, path: set<string>, path': set<string>, count: nat, count': nat)
    requires Walk(repo, sc, dir, path, count).Some?
    requires path' <= path && count' <= count
    ensures Walk(repo, sc, dir, path, count).value.count >= count
    ensures var v := Walk(repo, sc, dir, path, count).value;
            Walk(repo, sc, dir, path', count') == Some(Visit(v.uses, v.count - (count - count')))
    decreases repo.ks.Keys - path, 0, 0
  {
    hide ApplyImages, NoDuplicates;
    SubsetSize(path', path);
    if dir in repo.ks {
      WalkEntriesShrinks(repo, sc, dir, repo.ks[dir].entries, path + {dir}, path' + {dir}, count + 1, count' + 1);
    }
  }

  lemma {:induction false} WalkEntriesShrinks(
    repo: Repo, sc: Scalars, dir: string, entries: seq<string>,
    path: set<string>, path': set<string>, count: nat, count': nat)
    requires WalkEntries(repo, sc, dir, entries, path, count).Some?
    requires path' <= path && count' <= count
    ensures WalkEntries(repo, sc, dir, entries, path, count).value.count >= count
    ensures var v := WalkEntries(repo, sc, dir, entries, path, count).value;
            WalkEntries(repo, sc, dir, entries, path', count') == Some(Visit(v.uses, v.count - (count - count')))
    decreases repo.ks.Keys - path, 1, |entries|
  {
    hide LocalPath, FileAllowed, PlainUses, Walk;
    if entries != [] {
      var init, last := entries[..|entries| - 1], entries[|entries| - 1];
      WalkEntriesShrinks(repo, sc, dir, init, path, path', count, count');
      var v := WalkEntries(repo, sc, dir, init, path, count).value;
      var c' := v.count - (count - count');
      var name := LocalPath(dir, last);
      if name.Some? && name.value in repo.ks {
        WalkShrinks(repo, sc, name.value, path, path', v.count, c');
      }
    }
  }

  /** The uses of a directory of a cleanly parsed repository. */
  ghost function Rendered(repo: Repo, sc: Scalars, dir: string): seq<Use> {
    match Walk(repo, sc, dir, {}, 0)
    case None => []
    case Some(v) => v.uses
  }

  ghost function EntryUses(repo: Repo, sc: Scalars, dir: string, entry: string): seq<Use> {
    match LocalPath(dir, entry)
    case None => []
    case Some(name) => if name in repo.ks then Rendered(repo, sc, name) else PlainUses(repo, sc, name)
  }

  ghost function Concatenated(repo: Repo, sc: Scalars, dir: string, entries: seq<string>): seq<Use> {
    if entries == [] then []
    else Concatenated(repo, sc, dir, entries[..|entries| - 1]) + EntryUses(repo, sc, dir, entries[|entries| - 1])
  }

  /** The recursion equation of rendering: concatenate the children in order, then fold
      the override list over each use on its own. Neither path, budget nor traversal
      order occurs in it. */
  lemma RenderingEquation(repo: Repo, sc: Scalars, dir: string, path: set<string>, count: nat)
    requires dir in repo.ks
    requires Walk(repo, sc, dir, path, count).Some?
    ensures Walk(repo, sc, dir, path, count).value.uses == Rendered(repo, sc, dir)
    ensures ApplyImages(repo.ks[dir], sc, Concatenated(repo, sc, dir, repo.ks[dir].entries))
            == Some(Rendered(repo, sc, dir))
  {
    hide ApplyImages, NoDuplicates;
    WalkShrinks(repo, sc, dir, path, {}, count, 0);
    CollectedIsConcatenated(repo, sc, dir, repo.ks[dir].entries, path + {dir}, count + 1);
  }

  lemma {:induction false} CollectedIsConcatenated(repo: Repo, sc: Scalars, dir: string, entries: seq<string>, path: set<string>, count: nat)
    requires WalkEntries(repo, sc, dir, entries, path, count).Some?
    ensures WalkEntries(repo, sc, dir, entries, path, count).value.uses == Concatenated(repo, sc, dir, entries)
    decreases |entries|
  {
    hide LocalPath, FileAllowed, PlainUses;
    if entries != [] {
      var init, last := entries[..|entries| - 1], entries[|entries| - 1];
      CollectedIsConcatenated(repo, sc, dir, init, path, count);
      var v := WalkEntries(repo, sc, dir, init, path, count).value;
      var name := LocalPath(dir, last);
      if name.Some? && name.value in repo.ks {
        WalkShrinks(repo, sc, name.value, path, {}, v.count, 0);
      }
    }
  }

  // ----- cycles -----

  lemma {:induction false} EntryWalks(repo: Repo, sc: Scalars, dir: string, entries: seq<string>, i: nat, path: set<string>, count: nat) returns (c: nat)
    requires WalkEntries(repo, sc, dir, entries, path, count).Some? && i < |entries|
    ensures WalkEntry(repo, sc, dir, entries[i], path, c).Some?
    decreases |entries|
  {
    hide WalkEntry;
    var init := entries[..|entries| - 1];
    if i == |entries| - 1 {
      c := WalkEntries(repo, sc, dir, init, path, count).value.count;
    } else {
      c := EntryWalks(repo, sc, dir, init, i, path, count);
    }
  }

  /** A successful traversal never meets a directory that is already on the path. */
  lemma {:induction false} WalkAvoidsPath(repo: Repo, sc: Scalars, p: seq<string>, path: set<string>, count: nat)
    requires |p| > 0 && p[0] in repo.ks && IsWalk(repo, p)
    requires Walk(repo, sc, p[0], path, count).Some?
    ensures forall i :: 0 <= i < |p| ==> p[i] !in path
    decreases |p|
  {
    hide LocalPath;
    if |p| > 1 {
      assert Edge(repo, p[0], p[1]);
      var entries := repo.ks[p[0]].entries;
      var i :| 0 <= i < |entries| && LocalPath(p[0], entries[i]) == Some(p[1]);
      var c := EntryWalks(repo, sc, p[0], entries, i, path + {p[0]}, count + 1);
      var q := p[1..];
      forall j | 0 <= j < |q| - 1
        ensures Edge(repo, q[j], q[j + 1])
      {
        assert Edge(repo, p[j + 1], p[j + 2]);
      }
      WalkAvoidsPath(repo, sc, q, path + {p[0]}, c);
      forall j | 0 <= j < |p|
        ensures p[j] !in path
      {
        if j > 0 {
          assert p[j] == q[j - 1];
        }
      }
    }
  }

  ghost predicate Complete(repo: Repo) {
    forall d, i :: d in repo.ks && 0 <= i < |repo.ks[d].entries| ==>
      var name := LocalPath(d, repo.ks[d].entries[i]);
      name.Some? && (name.value in repo.ks || name.value in repo.files)
  }

  /** Some amount of remaining budget suffices to render the directory. */
  ghost predicate Renders(repo: Repo, sc: Scalars, dir: string) {
    exists c: nat :: Walk(repo, sc, dir, {}, c).Some?
  }

  lemma {:induction false} AllWalked(repo: Repo, sc: Scalars, dirs: seq<string>, count: nat, dir: string) returns (c: nat)
    requires WalkAll(repo, sc, dirs, count).Some? && dir in dirs
    ensures Walk(repo, sc, dir, {}, c).Some?
    decreases |dirs|
  {
    hide Walk;
    var init := dirs[..|dirs| - 1];
    if dir == dirs[|dirs| - 1] {
      c := WalkAll(repo, sc, init, count).value;
    } else {
      assert dir in init by {
        var i :| 0 <= i < |dirs| && dirs[i] == dir;
        assert init[i] == dir;
      }
      c := AllWalked(repo, sc, init, count, dir);
    }
  }

  /** A parse without diagnostics proves the whole graph, disconnected parts included,
      acyclic, with every dependency present. */
  lemma CleanParseIsAcyclic(repo: Repo, sc: Scalars, dirs: seq<string>, files: seq<string>)
    requires InOrder(dirs, repo.ks.Keys)
    requires ParsedUses(repo, sc, dirs, files).Some?
    ensures !HasCycle(repo)
    ensures Complete(repo)
    ensures forall d :: d in repo.ks ==> Renders(repo, sc, d)
  {
    hide Walk, NoDuplicateWorkloads, DeclarationsOk, LocalPath;
    var start := WalkRoots(repo, sc, dirs).value.count;
    forall d | d in repo.ks
      ensures Renders(repo, sc, d)
    {
      var c := AllWalked(repo, sc, dirs, start, d);
    }
    if HasCycle(repo) {
      var p :| IsCycle(repo, p);
      NoCycleThrough(repo, sc, dirs, start, p);
      assert false;
    }
    forall d, i | d in repo.ks && 0 <= i < |repo.ks[d].entries|
      ensures var name := LocalPath(d, repo.ks[d].entries[i]);
              name.Some? && (name.value in repo.ks || name.value in repo.files)
    {
      EntryPresent(repo, sc, dirs, start, d, i);
    }
  }

  lemma NoCycleThrough(repo: Repo, sc: Scalars, dirs: seq<string>, start: nat, p: seq<string>)
    requires InOrder(dirs, repo.ks.Keys) && WalkAll(repo, sc, dirs, start).Some?
    ensures !IsCycle(repo, p)
  {
    hide LocalPath, WalkAll, ApplyImages, NoDuplicates;
    if IsCycle(repo, p) {
      assert Edge(repo, p[0], p[1]);
      var c := AllWalked(repo, sc, dirs, start, p[0]);
      var entries := repo.ks[p[0]].entries;
      var i :| 0 <= i < |entries| && LocalPath(p[0], entries[i]) == Some(p[1]);
      var c' := EntryWalks(repo, sc, p[0], entries, i, {} + {p[0]}, c + 1);
      var q := p[1..];
      forall j | 0 <= j < |q| - 1
        ensures Edge(repo, q[j], q[j + 1])
      {
        assert Edge(repo, p[j + 1], p[j + 2]);
      }
      WalkAvoidsPath(repo, sc, q, {} + {p[0]}, c');
    }
  }

  lemma EntryPresent(repo: Repo, sc: Scalars, dirs: seq<string>, start: nat, d: string, i: nat)
    requires EntriesOk(repo)
    requires InOrder(dirs, repo.ks.Keys) && WalkAll(repo, sc, dirs, start).Some?
    requires d in repo.ks && i < |repo.ks[d].entries|
    ensures var name := LocalPath(d, repo.ks[d].entries[i]);
            name.Some? && (name.value in repo.ks || name.value in repo.files)
  {
    hide LocalPath, WalkAll, ApplyImages, NoDuplicates;
    var c := AllWalked(repo, sc, dirs, start, d);
    var c' := EntryWalks(repo, sc, d, repo.ks[d].entries, i, {} + {d}, c + 1);
  }
}
