/** Simultaneous substitution in a text, and the descending in-place splices that compute it. */
module Splice {

  /** Replace the characters from `start` up to `end` by `text`. */
  datatype Edit = Edit(start: nat, end: nat, text: string)

  ghost predicate WithinText(text: string, edits: set<Edit>) {
    forall e :: e in edits ==> e.start < e.end <= |text|
  }

  predicate Disjoint(a: Edit, b: Edit) {
    a.end <= b.start || b.end <= a.start
  }

  ghost predicate PairwiseDisjoint(edits: set<Edit>) {
    forall a, b :: a in edits && b in edits && a != b ==> Disjoint(a, b)
  }

  ghost predicate StartsAt(edits: set<Edit>, pos: nat) {
    exists e :: e in edits && e.start == pos
  }

  ghost function EditAt(edits: set<Edit>, pos: nat): (e: Edit)
    requires StartsAt(edits, pos)
    ensures e in edits && e.start == pos
  {
    var e :| e in edits && e.start == pos;
    e
  }

  /** The text from `pos` on with all edits made at once. */
  ghost function Substitute(text: string, pos: nat, edits: set<Edit>): string
    requires WithinText(text, edits)
    decreases |text| - pos
  {
    if pos >= |text| then ""
    else if StartsAt(edits, pos) then EditAt(edits, pos).text + Substitute(text, EditAt(edits, pos).end, edits)
    else [text[pos]] + Substitute(text, pos + 1, edits)
  }

  lemma OnlyOneStarts(text: string, edits: set<Edit>, e: Edit)
    requires WithinText(text, edits) && PairwiseDisjoint(edits) && e in edits
    ensures forall f :: f in edits && f.start == e.start ==> f == e
  {
    assert forall f :: f in edits && f != e ==> Disjoint(f, e);
  }

  lemma SubstituteAt(text: string, edits: set<Edit>, e: Edit)
    requires WithinText(text, edits) && PairwiseDisjoint(edits) && e in edits
    ensures Substitute(text, e.start, edits) == e.text + Substitute(text, e.end, edits)
  {
    assert forall f :: f in edits && f != e ==> Disjoint(f, e);
  }

  /** One character is copied where no edit starts. */
  lemma SubstituteStep(text: string, edits: set<Edit>, a: nat)
    requires WithinText(text, edits) && a < |text| && !StartsAt(edits, a)
    ensures Substitute(text, a, edits) == [text[a]] + Substitute(text, a + 1, edits)
  {
  }

  /** Where no edit starts, text is copied. */
  lemma {:induction false} SubstituteGap(text: string, edits: set<Edit>, a: nat, b: nat)
    requires WithinText(text, edits) && a <= b <= |text|
    requires forall e :: e in edits ==> e.start < a || b <= e.start
    ensures Substitute(text, a, edits) == text[a..b] + Substitute(text, b, edits)
    decreases b - a
  {
    hide Substitute, WithinText;
    if a < b {
      assert !StartsAt(edits, a);
      SubstituteStep(text, edits, a);
      SubstituteGap(text, edits, a + 1, b);
      assert text[a..b] == [text[a]] + text[a + 1..b];
    } else {
      assert text[a..b] == [];
    }
  }

  /** Edits in front of the position play no role. */
  lemma {:induction false} SubstituteLocal(text: string, pos: nat, edits: set<Edit>, more: set<Edit>)
    requires WithinText(text, edits + more)
    requires PairwiseDisjoint(edits)
    requires forall e :: e in more ==> e.start < pos
    ensures Substitute(text, pos, edits + more) == Substitute(text, pos, edits)
    decreases |text| - pos
  {
    if pos < |text| {
      if StartsAt(edits, pos) {
        var e := EditAt(edits, pos);
        OnlyOneStarts(text, edits, e);
        assert e in edits + more && forall f :: f in edits + more && f.start == pos ==> f == e;
        SubstituteLocal(text, e.end, edits, more);
      } else {
        assert forall f :: f in edits + more ==> f.start != pos;
        SubstituteLocal(text, pos + 1, edits, more);
      }
    }
  }

  ghost predicate Descending(list: seq<Edit>) {
    forall i, j :: 0 <= i < j < |list| ==> list[i].start >= list[j].start
  }

  ghost predicate ListDisjoint(list: seq<Edit>) {
    forall i, j :: 0 <= i < j < |list| ==> Disjoint(list[i], list[j])
  }

  ghost function Elements(list: seq<Edit>): set<Edit> {
    set e | e in list
  }

  /** Distinct entries of a disjoint list are distinct edits, because spans are not empty. */
  lemma DisjointElements(text: string, list: seq<Edit>)
    requires WithinText(text, Elements(list)) && ListDisjoint(list)
    ensures PairwiseDisjoint(Elements(list))
  {
    forall a, b | a in list && b in list && a != b
      ensures Disjoint(a, b)
    {
      var i :| 0 <= i < |list| && list[i] == a;
      var j :| 0 <= j < |list| && list[j] == b;
      assert if i < j then Disjoint(list[i], list[j]) else Disjoint(list[j], list[i]);
    }
  }

  /** The splicing loop over one file: highest offset first, with `last` as the overlap guard. */
  method SpliceAll(text: string, list: seq<Edit>) returns (ok: bool, result: string)
    requires WithinText(text, Elements(list)) && Descending(list)
    ensures ok <==> ListDisjoint(list)
    ensures ok ==> result == Substitute(text, 0, Elements(list))
  {
    hide ListDisjoint, PairwiseDisjoint, Descending, Substitute;
    result := text;
    var last := |text|;
    NothingSpliced(text, list);
    for i := 0 to |list|
      invariant last <= |text| && (if i == 0 then last == |text| else last == list[i - 1].start)
      invariant ListDisjoint(list[..i])
      invariant WithinText(text, Elements(list[..i]))
      invariant result == text[..last] + Substitute(text, last, Elements(list[..i]))
    {
      var e := list[i];
      assert e in Elements(list);
      if e.end > last {
        OverlapFound(list, i);
        return false, "";
      }
      ghost var done := Elements(list[..i]);
      SpliceExtends(text, list, i, last);
      SpliceStep(text, done, e, last);
      assert Elements(list[..i + 1]) == done + {e} by {
        assert list[..i + 1] == list[..i] + [e];
      }
      result := result[..e.start] + e.text + result[e.end..];
      last := e.start;
    }
    assert list[..|list|] == list;
    LastIsLowest(text, list);
    SubstituteGap(text, Elements(list), 0, last);
    assert text[..last] == text[0..last];
    ok := true;
  }

  lemma LastIsLowest(text: string, list: seq<Edit>)
    requires Descending(list)
    ensures forall e :: e in Elements(list) ==> |list| > 0 && e.start >= list[|list| - 1].start
  {
  }

  lemma NothingSpliced(text: string, list: seq<Edit>)
    ensures ListDisjoint(list[..0]) && Elements(list[..0]) == {}
    ensures text == text[..|text|] + Substitute(text, |text|, {})
  {
  }

  lemma OverlapFound(list: seq<Edit>, i: nat)
    requires Descending(list) && 0 < i < |list| && list[i - 1].start < list[i].end
    requires list[i - 1].start < list[i - 1].end
    ensures !ListDisjoint(list)
  {
    assert list[i - 1].start >= list[i].start;
    assert !Disjoint(list[i - 1], list[i]);
  }

  lemma SpliceExtends(text: string, list: seq<Edit>, i: nat, last: nat)
    requires Descending(list) && i < |list| && WithinText(text, Elements(list)) && ListDisjoint(list[..i])
    requires list[i].end <= last && (i > 0 ==> last == list[i - 1].start)
    ensures ListDisjoint(list[..i + 1])
    ensures forall f :: f in Elements(list[..i]) ==> f.start >= last
    ensures PairwiseDisjoint(Elements(list[..i])) && WithinText(text, Elements(list[..i]) + {list[i]})
  {
    var init := list[..i];
    assert list[i] in Elements(list);
    assert forall k :: 0 <= k < i ==> init[k] == list[k] && init[k] in Elements(list) && list[k].start >= list[i - 1].start;
    assert list[..i + 1] == init + [list[i]];
    assert forall f :: f in Elements(init) ==> f in Elements(list);
    DisjointElements(text, init);
  }

  lemma SpliceStep(text: string, done: set<Edit>, e: Edit, last: nat)
    requires WithinText(text, done + {e}) && PairwiseDisjoint(done) && e.end <= last <= |text|
    requires forall f :: f in done ==> f.start >= last
    ensures var result := text[..last] + Substitute(text, last, done);
            result[..e.start] + e.text + result[e.end..] == text[..e.start] + Substitute(text, e.start, done + {e})
  {
    var tail := Substitute(text, last, done);
    var result := text[..last] + tail;
    assert e in done + {e};
    SubstituteLocal(text, last, done, {e});
    SubstituteGap(text, done + {e}, e.end, last);
    assert Substitute(text, e.start, done + {e}) == e.text + Substitute(text, e.end, done + {e}) by {
      assert forall f :: f in done + {e} && f.start == e.start ==> f == e;
    }
    assert result[..e.start] == text[..e.start];
    assert result[e.end..] == text[e.end..last] + tail;
  }

  // ----- what a substitution does to offsets -----

  function Delta(e: Edit): int {
    |e.text| - (e.end - e.start)
  }

  function Growth(list: seq<Edit>): int {
    if list == [] then 0 else Growth(list[..|list| - 1]) + Delta(list[|list| - 1])
  }

  /** Taking one edit away changes the length by exactly its own difference. */
  lemma {:induction false} EditLength(text: string, pos: nat, edits: set<Edit>, e: Edit)
    requires WithinText(text, edits) && PairwiseDisjoint(edits) && e in edits && pos <= e.start
    requires forall f :: f in edits ==> f.end <= pos || pos <= f.start
    ensures |Substitute(text, pos, edits)| == |Substitute(text, pos, edits - {e})| + Delta(e)
    decreases |text| - pos
  {
    var rest := edits - {e};
    if pos == e.start {
      SubstituteAt(text, edits, e);
      assert edits == rest + {e};
      SubstituteLocal(text, e.end, rest, {e});
      assert forall f :: f in rest ==> Disjoint(f, e);
      SubstituteGap(text, rest, e.start, e.end);
    } else if StartsAt(edits, pos) {
      var f := EditAt(edits, pos);
      SubstituteAt(text, edits, f);
      SubstituteAt(text, rest, f);
      assert Disjoint(f, e);
      assert forall g :: g in edits && g != f ==> Disjoint(f, g);
      EditLength(text, f.end, edits, e);
    } else {
      EditLength(text, pos + 1, edits, e);
    }
  }

  /** The whole length changes by the sum of the differences, in whatever order they are listed. */
  lemma {:induction false} SubstituteLength(text: string, list: seq<Edit>)
    requires WithinText(text, Elements(list)) && ListDisjoint(list)
    ensures |Substitute(text, 0, Elements(list))| == |text| + Growth(list)
  {
    DisjointElements(text, list);
    if list == [] {
      SubstituteGap(text, Elements(list), 0, |text|);
    } else {
      var init, e := list[..|list| - 1], list[|list| - 1];
      assert list == init + [e];
      assert Elements(list) - {e} == Elements(init) by {
        assert forall k :: 0 <= k < |init| ==> Disjoint(list[k], e) && list[k] in Elements(list) && list[k] != e;
      }
      EditLength(text, 0, Elements(list), e);
      SubstituteLength(text, init);
    }
  }

  predicate EndsWith(s: string, t: string) {
    |t| <= |s| && s[|s| - |t|..] == t
  }

  /** A position no edit straddles. */
  ghost predicate Boundary(edits: set<Edit>, pos: nat) {
    forall e :: e in edits ==> e.end <= pos || pos <= e.start
  }

  /** Where the text from `pos` on begins after the substitution. */
  ghost function Shifted(text: string, edits: set<Edit>, pos: nat): int
    requires WithinText(text, edits)
  {
    |Substitute(text, 0, edits)| - |Substitute(text, pos, edits)|
  }

  lemma {:induction false} SubstituteSuffix(text: string, a: nat, pos: nat, edits: set<Edit>)
    requires WithinText(text, edits) && a <= pos <= |text| && Boundary(edits, pos)
    ensures EndsWith(Substitute(text, a, edits), Substitute(text, pos, edits))
    decreases pos - a
  {
    if a < pos {
      var tail := Substitute(text, pos, edits);
      if StartsAt(edits, a) {
        var e := EditAt(edits, a);
        SubstituteSuffix(text, e.end, pos, edits);
        EndsWithMore(e.text, Substitute(text, e.end, edits), tail);
      } else {
        SubstituteSuffix(text, a + 1, pos, edits);
        EndsWithMore([text[a]], Substitute(text, a + 1, edits), tail);
      }
    }
  }

  lemma EndsWithMore(p: string, s: string, t: string)
    requires EndsWith(s, t)
    ensures EndsWith(p + s, t)
  {
    assert (p + s)[|p + s| - |t|..] == s[|s| - |t|..];
  }

  /** Behind a boundary the result is the substitution of the rest. */
  lemma SubstituteFrom(text: string, edits: set<Edit>, pos: nat)
    requires WithinText(text, edits) && pos <= |text| && Boundary(edits, pos)
    ensures 0 <= Shifted(text, edits, pos) <= |Substitute(text, 0, edits)|
    ensures Substitute(text, 0, edits)[Shifted(text, edits, pos)..] == Substitute(text, pos, edits)
  {
    SubstituteSuffix(text, 0, pos, edits);
  }
}
