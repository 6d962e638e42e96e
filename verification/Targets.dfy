/** Which scalar decides the tag of a rendered image, and how a rendering reacts when
    such scalars are edited. */
module Targets {
  import opened Strings
  import opened ImageRefs
  import opened Repository
  import opened Render
  import opened Resolver

  // ----- the target invariant -----

  /** The last `newTag` scalar among the applied overrides, or else the source. */
  function LastTag(source: Location, overrides: seq<Location>): Location {
    if overrides == [] then source
    else if overrides[|overrides| - 1].tagOnly then overrides[|overrides| - 1]
    else LastTag(source, overrides[..|overrides| - 1])
  }

  /** The location is where the parser found the scalar, with the value it found there. */
  predicate Reads(sc: Scalars, l: Location) {
    At(sc, l.Key()) == Scalar(l.value, l.line, l.column)
  }

  /** The target is the deciding scalar, and what follows the image name is exactly what
      that scalar says: the whole tail of the source, or the tag of the last `newTag`. */
  ghost predicate TargetDecides(sc: Scalars, u: Use) {
    && ValidRef(u.effectiveImage) && ValidRef(u.sourceImage)
    && u.sourceImage == u.source.value && !u.source.tagOnly
    && u.source.value == At(sc, u.source.Key()).value
    && Reads(sc, u.target)
    && u.target == LastTag(u.source, u.overrides)
    && (!u.target.tagOnly ==> Tail(u.effectiveImage) == Tail(u.target.value))
    && (u.target.tagOnly && TagOk(u.target.value) ==> Tail(u.effectiveImage) == ":" + u.target.value)
  }

  lemma LastTagSnoc(source: Location, overrides: seq<Location>, at: Location)
    ensures LastTag(source, overrides + [at]) == if at.tagOnly then at else LastTag(source, overrides)
  {
    assert (overrides + [at])[..|overrides|] == overrides;
  }

  /** Renaming an unpinned image keeps what follows the name. */
  lemma RenameKeepsTail(image: string, nn: string)
    requires ValidRef(image) && '@' !in image && NameOnly(nn)
    ensures var tag := ImageTag(image);
            var renamed := if tag == "" then nn else WithTag(nn, tag);
            Strip(renamed) == nn && Tail(renamed) == Tail(image) && '@' !in renamed && ValidRef(renamed)
  {
    AtIffDigest(image);
    TailParts(image);
    NameOnlyIsStripped(nn);
    if TagPart(image).Some? {
      assert TagOk(TagPart(image).value);
      TagOkChars(TagPart(image).value);
      WithTagLaws(nn, TagPart(image).value);
    }
  }

  lemma RenameKeepsTarget(sc: Scalars, u: Use, nn: string, at: Location)
    requires TargetDecides(sc, u) && '@' !in u.effectiveImage && NameOnly(nn) && !at.tagOnly
    ensures TargetDecides(sc, Rename(u, nn, at))
    ensures Strip(Rename(u, nn, at).effectiveImage) == nn && '@' !in Rename(u, nn, at).effectiveImage
  {
    hide ValidRef, NameOnly, TagOk, Strip, ImageTag;
    RenameKeepsTail(u.effectiveImage, nn);
    LastTagSnoc(u.source, u.overrides, at);
  }

  lemma RetagKeepsTarget(sc: Scalars, u: Use, at: Location)
    requires TargetDecides(sc, u) && at.tagOnly && Reads(sc, at)
    requires ValidRef(Retag(u, at).effectiveImage)
    ensures TargetDecides(sc, Retag(u, at))
  {
    hide ValidRef, TagOk, Strip;
    LastTagSnoc(u.source, u.overrides, at);
    if TagOk(at.value) {
      WithTagLaws(u.effectiveImage, at.value);
    }
  }

  lemma OverrideKeepsTarget(file: string, i: nat, ov: Override, sc: Scalars, u: Use)
    requires ov.Override? && TargetDecides(sc, u)
    requires OverrideOne(file, i, ov, sc, u).Some?
    ensures TargetDecides(sc, OverrideOne(file, i, ov, sc, u).value)
  {
    hide TargetDecides, ValidRef, NameOnly, Rename, Retag, TagPath, NamePath;
    var nn := NewName(file, i, ov, sc);
    if Matches(ov, u) {
      var at := Locate(sc, file, 0, NamePath(i), false);
      var renamed := if nn == "" then u else Rename(u, nn, at);
      if nn != "" {
        RenameKeepsTarget(sc, u, nn, at);
      }
      if ov.newTag.NewTag? {
        RetagKeepsTarget(sc, renamed, Locate(sc, file, 0, TagPath(i), true));
      }
    }
  }

  lemma {:induction false} OverridesKeepTarget(file: string, ovs: seq<Override>, sc: Scalars, u: Use)
    requires forall ov :: ov in ovs ==> ov.Override?
    requires TargetDecides(sc, u) && OverrideUse(file, ovs, sc, u).Some?
    ensures TargetDecides(sc, OverrideUse(file, ovs, sc, u).value)
    decreases |ovs|
  {
    hide TargetDecides, OverrideOne;
    if ovs != [] {
      var n := |ovs| - 1;
      OverridesKeepTarget(file, ovs[..n], sc, u);
      OverrideKeepsTarget(file, n, ovs[n], sc, OverrideUse(file, ovs[..n], sc, u).value);
    }
  }

  lemma PlainTarget(sc: Scalars, d: Declaration)
    requires ValidRef(At(sc, d.Key()).value)
    ensures TargetDecides(sc, PlainUse(sc, d))
  {
    hide ValidRef, TagOk, Tail, LocationKey;
  }

  // ----- edited scalars -----

  ghost predicate IsDeclarationKey(repo: Repo, key: string) {
    exists f, i :: f in repo.plain && 0 <= i < |repo.plain[f]| && repo.plain[f][i].Key() == key
  }

  ghost predicate IsTagKey(repo: Repo, key: string) {
    exists d, i :: d in repo.ks && repo.ks[d].images.Overrides? && 0 <= i < |repo.ks[d].images.items|
                   && TagKey(repo.ks[d].file, i) == key
  }

  ghost predicate IsNameKey(repo: Repo, key: string) {
    exists d, i :: d in repo.ks && repo.ks[d].images.Overrides? && 0 <= i < |repo.ks[d].images.items|
                   && NameKey(repo.ks[d].file, i) == key
  }

  /** A change of one scalar that keeps every name and every pin, and installs valid tags. */
  ghost predicate TagEdit(repo: Repo, key: string, before: string, after: string) {
    && (IsNameKey(repo, key) ==> after == before)
    && (IsTagKey(repo, key) ==> after == before || (TagOk(before) && TagOk(after)))
    && (IsDeclarationKey(repo, key) ==>
          after == before || (Strip(after) == Strip(before) && ValidRef(after) && ('@' in after <==> '@' in before)))
  }

  ghost predicate TagEdits(repo: Repo, sc: Scalars, sc': Scalars) {
    forall key :: TagEdit(repo, key, At(sc, key).value, At(sc', key).value)
  }

  predicate SamePlace(a: Location, b: Location) {
    a.file == b.file && a.doc == b.doc && a.path == b.path && a.tagOnly == b.tagOnly
  }

  /** Two renderings of one use, before and after the edits. */
  ghost predicate Corresponds(sc: Scalars, sc': Scalars, u: Use, u': Use) {
    && u'.resource == u.resource && u'.container == u.container && u'.environment == u.environment
    && SamePlace(u.source, u'.source) && SamePlace(u.target, u'.target)
    && |u'.overrides| == |u.overrides|
    && Strip(u'.effectiveImage) == Strip(u.effectiveImage)
    && ('@' in u'.effectiveImage <==> '@' in u.effectiveImage)
    && (At(sc', u.target.Key()).value == At(sc, u.target.Key()).value ==> u'.effectiveImage == u.effectiveImage)
    && TargetDecides(sc, u) && TargetDecides(sc', u')
  }

  lemma RenameCorresponds(sc: Scalars, sc': Scalars, u: Use, u': Use, nn: string, at: Location, at': Location)
    requires Corresponds(sc, sc', u, u') && '@' !in u.effectiveImage && NameOnly(nn)
    requires !at.tagOnly && !at'.tagOnly
    ensures Corresponds(sc, sc', Rename(u, nn, at), Rename(u', nn, at'))
  {
    hide TargetDecides, NameOnly, Strip, ImageTag, WithTag;
    RenameKeepsTarget(sc, u, nn, at);
    RenameKeepsTarget(sc', u', nn, at');
  }

  lemma TargetIsValid(sc: Scalars, u: Use)
    requires TargetDecides(sc, u)
    ensures ValidRef(u.effectiveImage) && ValidRef(u.sourceImage)
  {
  }

  lemma SameStem(a: string, b: string, tag: string)
    requires Strip(a) == Strip(b)
    ensures WithTag(a, tag) == WithTag(b, tag)
  {
  }

  lemma RetagCorresponds(sc: Scalars, sc': Scalars, u: Use, u': Use, at: Location, at': Location)
    requires Corresponds(sc, sc', u, u') && '@' !in u.effectiveImage
    requires at.tagOnly && SamePlace(at, at')
    requires Reads(sc, at) && Reads(sc', at')
    requires at.value == at'.value || (TagOk(at.value) && TagOk(at'.value))
    requires ValidRef(Retag(u, at).effectiveImage)
    ensures ValidRef(Retag(u', at').effectiveImage)
    ensures Corresponds(sc, sc', Retag(u, at), Retag(u', at'))
  {
    hide ValidRef, Strip, TagOk, TargetDecides, WithTag, Tail;
    TargetIsValid(sc', u');
    if at.value != at'.value {
      WithTagLaws(u.effectiveImage, at.value);
      WithTagLaws(u'.effectiveImage, at'.value);
    } else {
      SameStem(u.effectiveImage, u'.effectiveImage, at.value);
    }
    RetagKeepsTarget(sc, u, at);
    RetagKeepsTarget(sc', u', at');
  }

  /** The scalars of one override: the same new name, and the same tag or two valid ones. */
  ghost predicate ElementEdit(file: string, i: nat, sc: Scalars, sc': Scalars) {
    var name, tag := NameKey(file, i), TagKey(file, i);
    && At(sc', name).value == At(sc, name).value
    && (At(sc', tag).value == At(sc, tag).value || (TagOk(At(sc, tag).value) && TagOk(At(sc', tag).value)))
  }

  lemma RenamedCorresponds(file: string, i: nat, ov: Override, sc: Scalars, sc': Scalars, u: Use, u': Use)
    requires ov.Override? && Corresponds(sc, sc', u, u') && '@' !in u.effectiveImage
    requires At(sc', NameKey(file, i)).value == At(sc, NameKey(file, i)).value
    requires NewName(file, i, ov, sc) == "" || NameOnly(NewName(file, i, ov, sc))
    ensures NewName(file, i, ov, sc') == NewName(file, i, ov, sc)
    ensures Corresponds(sc, sc', Renamed(file, i, ov, sc, u), Renamed(file, i, ov, sc', u'))
    ensures '@' !in Renamed(file, i, ov, sc, u).effectiveImage
  {
    hide ValidRef, NameOnly, Strip, Rename, LocationKey, NamePath, Corresponds;
    var nn := NewName(file, i, ov, sc);
    if nn != "" {
      RenameCorresponds(sc, sc', u, u', nn, Locate(sc, file, 0, NamePath(i), false), Locate(sc', file, 0, NamePath(i), false));
      CorrespondsDecides(sc, sc', u, u');
      RenameKeepsTarget(sc, u, nn, Locate(sc, file, 0, NamePath(i), false));
    }
  }

  lemma CorrespondsDecides(sc: Scalars, sc': Scalars, u: Use, u': Use)
    requires Corresponds(sc, sc', u, u')
    ensures TargetDecides(sc, u) && TargetDecides(sc', u')
    ensures RawName(u.effectiveImage) == RawName(u'.effectiveImage)
    ensures '@' in u'.effectiveImage <==> '@' in u.effectiveImage
  {
    hide Strip;
  }

  /** Editing valid tags changes neither whether an override matches nor whether it applies. */
  lemma ElementCorresponds(file: string, i: nat, ov: Override, sc: Scalars, sc': Scalars, u: Use, u': Use)
    requires ov.Override? && ElementEdit(file, i, sc, sc') && Corresponds(sc, sc', u, u')
    requires OverrideOne(file, i, ov, sc, u).Some?
    ensures OverrideOne(file, i, ov, sc', u').Some?
    ensures Corresponds(sc, sc', OverrideOne(file, i, ov, sc, u).value, OverrideOne(file, i, ov, sc', u').value)
  {
    hide ValidRef, NameOnly, TagOk, Strip, Rename, Retag, LocationKey, NamePath, TagPath, RawName, Corresponds, TargetDecides;
    CorrespondsDecides(sc, sc', u, u');
    if Matches(ov, u) {
      RenamedCorresponds(file, i, ov, sc, sc', u, u');
      var r, r' := Renamed(file, i, ov, sc, u), Renamed(file, i, ov, sc', u');
      CorrespondsDecides(sc, sc', r, r');
      TargetIsValid(sc', r');
      if ov.newTag.NewTag? {
        RetagCorresponds(sc, sc', r, r', Locate(sc, file, 0, TagPath(i), true), Locate(sc', file, 0, TagPath(i), true));
      }
    }
  }

  /** Editing tags changes neither which overrides match nor whether they apply. */
  lemma OverrideCorresponds(
    repo: Repo, dir: string, i: nat, sc: Scalars, sc': Scalars, u: Use, u': Use)
    requires dir in repo.ks && repo.ks[dir].images.Overrides? && i < |repo.ks[dir].images.items|
    requires repo.ks[dir].images.items[i].Override?
    requires TagEdits(repo, sc, sc') && Corresponds(sc, sc', u, u')
    requires OverrideOne(repo.ks[dir].file, i, repo.ks[dir].images.items[i], sc, u).Some?
    ensures var k := repo.ks[dir];
            OverrideOne(k.file, i, k.images.items[i], sc', u').Some?
            && Corresponds(sc, sc', OverrideOne(k.file, i, k.images.items[i], sc, u).value,
                           OverrideOne(k.file, i, k.images.items[i], sc', u').value)
  {
    hide OverrideOne, Corresponds, TagEdits, TagOk, LocationKey;
    OverrideScalars(repo, dir, i, sc, sc');
    ElementCorresponds(repo.ks[dir].file, i, repo.ks[dir].images.items[i], sc, sc', u, u');
  }

  lemma OverrideScalars(repo: Repo, dir: string, i: nat, sc: Scalars, sc': Scalars)
    requires dir in repo.ks && repo.ks[dir].images.Overrides? && i < |repo.ks[dir].images.items|
    requires TagEdits(repo, sc, sc')
    ensures var name, tag := NameKey(repo.ks[dir].file, i), TagKey(repo.ks[dir].file, i);
            && At(sc', name).value == At(sc, name).value
            && (At(sc', tag).value == At(sc, tag).value || (TagOk(At(sc, tag).value) && TagOk(At(sc', tag).value)))
  {
    hide TagOk, NameKey, TagKey, At, Strip, ValidRef;
    var name, tag := NameKey(repo.ks[dir].file, i), TagKey(repo.ks[dir].file, i);
    assert IsNameKey(repo, name) && IsTagKey(repo, tag);
    assert TagEdit(repo, name, At(sc, name).value, At(sc', name).value);
    assert TagEdit(repo, tag, At(sc, tag).value, At(sc', tag).value);
  }

  /** An edited target shows up in the rendered image as exactly its new tail. */
  lemma EditedTarget(repo: Repo, sc: Scalars, sc': Scalars, u: Use, u': Use)
    requires Corresponds(sc, sc', u, u')
    ensures !u.target.tagOnly ==>
              u'.effectiveImage == Strip(u.effectiveImage) + Tail(At(sc', u.target.Key()).value)
    ensures u.target.tagOnly && TagOk(At(sc', u.target.Key()).value) ==>
              u'.effectiveImage == Strip(u.effectiveImage) + (":" + At(sc', u.target.Key()).value)
  {
    hide ValidRef, TagOk, Strip;
    assert u'.target.Key() == u.target.Key();
    assert u'.effectiveImage == Strip(u'.effectiveImage) + Tail(u'.effectiveImage);
  }
}
