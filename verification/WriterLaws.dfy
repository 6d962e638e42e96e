/** What a successful `Apply` guarantees about the text it returns. */
module WriterLaws {
  import opened Strings
  import opened ImageRefs
  import opened Repository
  import opened Tokens
  import opened Splice
  import opened Writer

  // ----- order of the mutations -----

  lemma {:induction false} FileEditsConcat(yaml: Yaml, files: Files, a: seq<Mutation>, b: seq<Mutation>, file: string)
    requires file in files
    ensures FileEdits(yaml, files, a + b, file) == FileEdits(yaml, files, a, file) + FileEdits(yaml, files, b, file)
    decreases |b|
  {
    hide EditFor;
    if b == [] {
      assert a + b == a;
    } else {
      var n := |b| - 1;
      FileEditsConcat(yaml, files, a, b[..n], file);
      assert (a + b)[..|a + b| - 1] == a + b[..n];
    }
  }

  lemma {:induction false} FileEditsReordered(yaml: Yaml, files: Files, a: seq<Mutation>, b: seq<Mutation>, file: string)
    requires file in files && multiset(a) == multiset(b)
    ensures multiset(FileEdits(yaml, files, a, file)) == multiset(FileEdits(yaml, files, b, file))
    decreases |a|
  {
    hide EditFor, FileEdits;
    if a == [] {
      assert |multiset(b)| == 0;
      assert a == b;
    } else {
      var init, m := a[..|a| - 1], a[|a| - 1];
      assert a == init + [m];
      var x, y := RemoveOne(init, m, b);
      FileEditsReordered(yaml, files, init, x + y, file);
      FileEditsConcat(yaml, files, init, [m], file);
      FileEditsConcat(yaml, files, x + [m], y, file);
      FileEditsConcat(yaml, files, x, [m], file);
      FileEditsConcat(yaml, files, x, y, file);
      Regroup(FileEdits(yaml, files, init, file), FileEdits(yaml, files, [m], file),
              FileEdits(yaml, files, x, file), FileEdits(yaml, files, y, file));
    }
  }

  lemma RemoveOne<T>(init: seq<T>, m: T, b: seq<T>) returns (x: seq<T>, y: seq<T>)
    requires multiset(init + [m]) == multiset(b)
    ensures b == x + [m] + y && multiset(init) == multiset(x + y)
  {
    assert m in multiset(init + [m]);
    var j :| 0 <= j < |b| && b[j] == m;
    x, y := b[..j], b[j + 1..];
    assert b == x + [m] + y;
    assert multiset(init) == multiset(b) - multiset{m};
    assert multiset(x + y) == multiset(b) - multiset{m};
  }

  lemma Regroup<T>(init: seq<T>, m: seq<T>, x: seq<T>, y: seq<T>)
    requires multiset(init) == multiset(x + y)
    ensures multiset(init + m) == multiset(x + m + y)
  {
    assert multiset(x + m + y) == multiset(x) + multiset(m) + multiset(y);
  }

  /** The order in which mutations are listed never matters. */
  lemma ApplyIgnoresOrder(yaml: Yaml, files: Files, a: seq<Mutation>, b: seq<Mutation>)
    requires multiset(a) == multiset(b)
    ensures Applicable(yaml, files, a) <==> Applicable(yaml, files, b)
    ensures Applied(yaml, files, a) == Applied(yaml, files, b)
  {
    hide FileEdits, Locatable, ListDisjoint, Substitute;
    forall f | f in files
      ensures Elements(FileEdits(yaml, files, a, f)) == Elements(FileEdits(yaml, files, b, f))
      ensures ListDisjoint(FileEdits(yaml, files, a, f)) <==> ListDisjoint(FileEdits(yaml, files, b, f))
    {
      FileEditsReordered(yaml, files, a, b, f);
      ReorderedEdits(FileEdits(yaml, files, a, f), FileEdits(yaml, files, b, f));
    }
    assert forall m :: m in a <==> m in multiset(a);
    assert forall m :: m in b <==> m in multiset(b);
  }

  // ----- what stays and what grows -----

  lemma {:induction false} NoEdits(yaml: Yaml, files: Files, ms: seq<Mutation>, file: string)
    requires file in files && forall m :: m in ms ==> m.location.file != file
    ensures FileEdits(yaml, files, ms, file) == []
  {
    if ms != [] {
      assert ms[|ms| - 1] in ms;
      NoEdits(yaml, files, ms[..|ms| - 1], file);
    }
  }

  /** A file no mutation names keeps every character. */
  lemma OtherFilesUnchanged(yaml: Yaml, files: Files, ms: seq<Mutation>, file: string)
    requires file in files && forall m :: m in ms ==> m.location.file != file
    ensures Applied(yaml, files, ms)[file] == files[file]
  {
    hide FileEdits;
    NoEdits(yaml, files, ms, file);
    SubstituteGap(files[file], {}, 0, |files[file]|);
    assert Elements([]) == {};
  }

  /** The length of a file changes by the sum of the differences of its edits. */
  lemma AppliedLength(yaml: Yaml, files: Files, ms: seq<Mutation>, file: string)
    requires file in files && Applicable(yaml, files, ms)
    ensures |Applied(yaml, files, ms)[file]| == |files[file]| + Growth(FileEdits(yaml, files, ms, file))
  {
    hide FileEdits, Locatable;
    SubstituteLength(files[file], FileEdits(yaml, files, ms, file));
  }

  /** Where the character at `pos` of the old text stands in the new one. */
  ghost function NewOffset(yaml: Yaml, files: Files, ms: seq<Mutation>, file: string, pos: nat): int
    requires file in files
  {
    Shifted(files[file], Elements(FileEdits(yaml, files, ms, file)), pos)
  }

  ghost predicate Untouched(yaml: Yaml, files: Files, ms: seq<Mutation>, file: string, a: nat, b: nat)
    requires file in files
  {
    forall e :: e in FileEdits(yaml, files, ms, file) ==> e.end <= a || b <= e.start
  }

  /** Text between the edits is carried over character by character. */
  lemma OutsideUnchanged(yaml: Yaml, files: Files, ms: seq<Mutation>, file: string, a: nat, b: nat)
    requires file in files && Applicable(yaml, files, ms) && a < b <= |files[file]|
    requires Untouched(yaml, files, ms, file, a, b)
    ensures var o := NewOffset(yaml, files, ms, file, a);
            0 <= o && o + (b - a) <= |Applied(yaml, files, ms)[file]|
            && Applied(yaml, files, ms)[file][o..o + (b - a)] == files[file][a..b]
            && Applied(yaml, files, ms)[file][o + (b - a)..] == Substitute(files[file], b, Elements(FileEdits(yaml, files, ms, file)))
  {
    hide FileEdits, Locatable, Substitute, ListDisjoint;
    var text, edits := files[file], Elements(FileEdits(yaml, files, ms, file));
    SubstituteFrom(text, edits, a);
    SubstituteGap(text, edits, a, b);
    var result, o := Substitute(text, 0, edits), Shifted(text, edits, a);
    var tail := Substitute(text, b, edits);
    assert result[o..] == text[a..b] + tail;
    assert result[o..o + (b - a)] == result[o..][..b - a];
    assert result[o + (b - a)..] == result[o..][b - a..];
  }

  // ----- reading back -----

  ghost predicate AllWritable(yaml: Yaml, files: Files, ms: seq<Mutation>) {
    forall m :: m in ms && Locatable(yaml, files, m) ==> WritableAt(yaml, files[m.location.file], m)
  }

  predicate WritableAt(yaml: Yaml, data: string, m: Mutation)
    requires EditFor(yaml, data, m).Some?
  {
    Writable(yaml, data[EditFor(yaml, data, m).value.start], m.newValue)
  }

  /** Every edit is some mutation's. */
  lemma {:induction false} EditOrigin(yaml: Yaml, files: Files, ms: seq<Mutation>, file: string, e: Edit) returns (m: Mutation)
    requires file in files && e in FileEdits(yaml, files, ms, file)
    ensures m in ms && m.location.file == file && EditFor(yaml, files[file], m) == Some(e)
  {
    hide EditFor;
    m := ms[|ms| - 1];
    if m.location.file != file || EditFor(yaml, files[file], m) != Some(e) {
      m := EditOrigin(yaml, files, ms[..|ms| - 1], file, e);
    }
  }

  lemma {:induction false} EditPresent(yaml: Yaml, files: Files, ms: seq<Mutation>, m: Mutation)
    requires m in ms && Locatable(yaml, files, m)
    ensures EditFor(yaml, files[m.location.file], m).value in FileEdits(yaml, files, ms, m.location.file)
  {
    hide EditFor;
    if ms[|ms| - 1] != m {
      EditPresent(yaml, files, ms[..|ms| - 1], m);
    }
  }

  lemma EditShape(yaml: Yaml, data: string, m: Mutation)
    requires EditFor(yaml, data, m).Some?
    ensures var e := EditFor(yaml, data, m).value;
            && e.text == Encode(yaml, data[e.start], m.newValue)
            && TokenLength(data[e.start..]) == Some(e.end - e.start)
  {
    hide TokenLength, Decode, Encode;
  }

  /** Behind a token that ends at `end`, the rewritten text still stops the token: what
      follows is either the old character or the start of an adjacent rewritten token. */
  lemma StillStops(yaml: Yaml, files: Files, ms: seq<Mutation>, file: string, start: nat, end: nat)
    requires file in files && Applicable(yaml, files, ms) && AllWritable(yaml, files, ms)
    requires start < end <= |files[file]|
    requires TokenLength(files[file][start..]) == Some(end - start)
    ensures Stops(files[file][start], Substitute(files[file], end, Elements(FileEdits(yaml, files, ms, file))))
  {
    hide FileEdits, Locatable, ListDisjoint, EditFor, Writable, Encode;
    var text, edits := files[file], Elements(FileEdits(yaml, files, ms, file));
    TokenStops(text[start..]);
    assert text[start..][end - start..] == text[end..];
    if end < |text| && StartsAt(edits, end) {
      var e := EditAt(edits, end);
      var m := EditOrigin(yaml, files, ms, file, e);
      EditShape(yaml, text, m);
      assert WritableAt(yaml, text, m) by {
        LocatableEdit(yaml, files, m);
      }
      EncodeScansBack(yaml, text[e.start], m.newValue, "");
      assert text[end..][0] == text[end];
    }
  }

  lemma LocatableEdit(yaml: Yaml, files: Files, m: Mutation)
    requires m.location.file in files && EditFor(yaml, files[m.location.file], m).Some?
    ensures Locatable(yaml, files, m)
  {
  }

  /** Scanning at the shifted offset of an edit finds exactly the written token, and it
      decodes to the new value. */
  lemma WrittenValueReadsBack(yaml: Yaml, files: Files, ms: seq<Mutation>, m: Mutation)
    requires Applicable(yaml, files, ms) && AllWritable(yaml, files, ms) && m in ms
    ensures Locatable(yaml, files, m)
    ensures var file := m.location.file;
            var e := EditFor(yaml, files[file], m).value;
            var o := NewOffset(yaml, files, ms, file, e.start);
            && 0 <= o && o + |e.text| <= |Applied(yaml, files, ms)[file]|
            && TokenLength(Applied(yaml, files, ms)[file][o..]) == Some(|e.text|)
            && Applied(yaml, files, ms)[file][o..o + |e.text|] == e.text
            && Decode(yaml, e.text) == Some(m.newValue)
  {
    hide FileEdits, ListDisjoint, EditFor, Encode, Writable, Substitute, TokenLength, Decode;
    var file := m.location.file;
    var text := files[file];
    var list := FileEdits(yaml, files, ms, file);
    var edits, e := Elements(list), EditFor(yaml, text, m).value;
    EditPresent(yaml, files, ms, m);
    EditShape(yaml, text, m);
    DisjointElements(text, list);
    BoundaryAtEdit(edits, e);
    SubstituteFrom(text, edits, e.start);
    SubstituteAt(text, edits, e);
    StillStops(yaml, files, ms, file, e.start, e.end);
    var rest := Substitute(text, e.end, edits);
    EncodeScansBack(yaml, text[e.start], m.newValue, rest);
    var result, o := Substitute(text, 0, edits), Shifted(text, edits, e.start);
    assert result[o..] == e.text + rest;
    assert result[o..o + |e.text|] == result[o..][..|e.text|];
  }

  lemma BoundaryAtEdit(edits: set<Edit>, e: Edit)
    requires PairwiseDisjoint(edits) && e in edits && forall f :: f in edits ==> f.start < f.end
    ensures Boundary(edits, e.start)
  {
    assert forall f :: f in edits && f != e ==> Disjoint(f, e);
  }

  /** Every other scalar keeps its token, its extent and its value. */
  lemma OtherScalarsReadBack(yaml: Yaml, files: Files, ms: seq<Mutation>, l: Location)
    requires Applicable(yaml, files, ms) && AllWritable(yaml, files, ms)
    requires l.file in files && ScalarSpan(yaml, files[l.file], l).Some?
    requires var s := ScalarSpan(yaml, files[l.file], l).value; Untouched(yaml, files, ms, l.file, s.start, s.end)
    ensures var s := ScalarSpan(yaml, files[l.file], l).value;
            var o := NewOffset(yaml, files, ms, l.file, s.start);
            && 0 <= o && o + (s.end - s.start) <= |Applied(yaml, files, ms)[l.file]|
            && TokenLength(Applied(yaml, files, ms)[l.file][o..]) == Some(s.end - s.start)
            && Decode(yaml, Applied(yaml, files, ms)[l.file][o..o + (s.end - s.start)]) == Some(l.value)
  {
    hide FileEdits, ListDisjoint, EditFor, Writable, Substitute, TokenLength, Decode, ScalarSpan, Locatable;
    var text := files[l.file];
    var s := ScalarSpan(yaml, text, l).value;
    var n := s.end - s.start;
    var token := text[s.start..s.end];
    OutsideUnchanged(yaml, files, ms, l.file, s.start, s.end);
    StillStops(yaml, files, ms, l.file, s.start, s.end);
    var result, o := Applied(yaml, files, ms)[l.file], NewOffset(yaml, files, ms, l.file, s.start);
    assert text[s.start..] == token + text[s.end..];
    assert result[o..] == token + result[o + n..] by {
      assert result[o..] == result[o..o + n] + result[o + n..];
    }
    assert token[0] == text[s.start];
    TokenKeepsExtent(yaml, token, text[s.end..], result[o + n..]);
  }

  // ----- what may be written -----

  predicate RefChar(c: char) {
    Alnum(c) || c == '.' || c == '_' || c == '-' || c == '/' || c == ':' || c == '@'
  }

  predicate RefChars(s: string) {
    forall i :: 0 <= i < |s| ==> RefChar(s[i])
  }

  lemma NameChars(n: string)
    requires NameOk(n)
    ensures n != "" && RefChars(n)
  {
    if !PathOk(n) {
      var slash := FirstIndex(n, '/');
      DomainChars(n[..slash]);
      assert n == n[..slash] + "/" + n[slash + 1..];
    }
  }

  lemma DomainChars(d: string)
    requires DomainOk(d)
    ensures RefChars(d)
  {
    var colon := FirstIndex(d, ':');
    if colon >= 0 {
      assert d == d[..colon] + ":" + d[colon + 1..];
    }
  }

  lemma DigestChars(d: string)
    requires DigestOk(d)
    ensures RefChars(d)
  {
    var algorithm := d[..7];
    assert RefChars(algorithm) && forall i :: 0 <= i < 7 ==> d[i] == algorithm[i];
  }

  /** References and tags consist of characters that need no quoting. */
  lemma ReferenceChars(v: string)
    requires TagOk(v) || ValidRef(v)
    ensures v != "" && RefChars(v)
  {
    hide NameOk, DigestOk, Strip, TagPart, DigestPart;
    if !TagOk(v) {
      NameChars(Strip(v));
      TailParts(v);
      if DigestPart(v).Some? {
        DigestChars(DigestPart(v).value);
      }
      assert v == Strip(v) + Tail(v);
    }
  }

  /** So they survive every quoting style. */
  lemma ReferencesAreWritable(yaml: Yaml, first: char, v: string)
    requires TagOk(v) || ValidRef(v)
    ensures Writable(yaml, first, v)
  {
    hide TagOk, ValidRef, Encode;
    ReferenceChars(v);
    assert RefChar(v[0]);
  }
}
