/** `scalarSpan` and `Apply`: finding scalars by line and column and rewriting them in
    place. Offsets count characters of the decoded text. */
module Writer {
  import opened ImageRefs
  import opened Repository
  import opened Tokens
  import opened Splice

  type Files = map<string, string>

  datatype Mutation = Mutation(location: Location, newValue: string)

  // ----- positions -----

  /** Length of the first line, including its line feed. */
  function LineLength(data: string): (n: nat)
    ensures n <= |data|
    ensures '\n' in data ==> 0 < n && data[n - 1] == '\n'
  {
    if data == "" then 0 else if data[0] == '\n' then 1 else 1 + LineLength(data[1..])
  }

  /** Offset of line `line`, counted from 1. */
  function LineStart(data: string, line: nat): (r: Option<nat>)
    ensures r.Some? ==> r.value <= |data|
  {
    if line == 0 then None
    else if line == 1 then Some(0)
    else if '\n' !in data then None
    else Plus(LineLength(data), LineStart(data[LineLength(data)..], line - 1))
  }

  datatype Span = Span(start: nat, end: nat)

  /** The span of a scalar: its line and column exist, a token starts there, and the token
      still decodes to the value the parser saw. */
  function ScalarSpan(yaml: Yaml, data: string, l: Location): (r: Option<Span>)
    ensures r.Some? ==> r.value.start < r.value.end <= |data|
    ensures r.Some? ==> TokenLength(data[r.value.start..]) == Some(r.value.end - r.value.start)
    ensures r.Some? ==> Decode(yaml, data[r.value.start..r.value.end]) == Some(l.value)
  {
    match LineStart(data, l.line)
    case None => None
    case Some(offset) =>
      if l.column < 1 || l.column > LineLength(data[offset..]) then None
      else
        var start := offset + l.column - 1;
        match TokenLength(data[start..])
        case None => None
        case Some(n) =>
          if Decode(yaml, data[start..start + n]) == Some(l.value) then Some(Span(start, start + n)) else None
  }

  lemma LineSkipped(data: string, start: nat, line: nat)
    requires start <= |data| && line > 1
    ensures var n := LineLength(data[start..]);
            LineStart(data[start..], line) ==
            if '\n' !in data[start..] then None else Plus(n, LineStart(data[start + n..], line - 1))
  {
    assert data[start..][LineLength(data[start..])..] == data[start + LineLength(data[start..])..];
  }

  lemma FirstLine(data: string)
    ensures LineStart(data, 0) == None && LineStart(data, 1) == Some(0)
  {
  }

  method FindLine(data: string, line: nat) returns (r: Option<nat>)
    ensures r == LineStart(data, line)
  {
    hide LineStart, LineLength;
    FirstLine(data);
    if line < 1 {
      return None;
    }
    var start: nat := 0;
    var left := line;
    assert data[0..] == data;
    while left > 1
      invariant 1 <= left <= line && start <= |data|
      invariant LineStart(data, line) == Plus(start, LineStart(data[start..], left))
    {
      LineSkipped(data, start, left);
      if '\n' !in data[start..] {
        return None;
      }
      start := start + LineLength(data[start..]);
      left := left - 1;
    }
    FirstLine(data[start..]);
    r := Some(start);
  }

  /** The quoted branch: `end` counts from the opening quote. */
  method ScanQuoted(tail: string) returns (r: Option<nat>)
    requires tail != "" && Quote(tail[0])
    ensures r == Plus(1, QuotedLength(tail[1..], tail[0]))
  {
    var q := tail[0];
    var end := 1;
    while end < |tail|
      invariant 1 <= end <= |tail| + 1
      invariant end <= |tail| ==> QuotedLength(tail[1..], q) == Plus(end - 1, QuotedLength(tail[end..], q))
      invariant end > |tail| ==> QuotedLength(tail[1..], q) == Some(|tail|)
    {
      ghost var rest := tail[end..];
      assert rest[0] == tail[end] && rest[1..] == tail[end + 1..];
      if LineBreak(tail[end]) {
        return None;
      }
      if q == '"' && tail[end] == '\\' {
        assert |rest| > 1 ==> rest[2..] == tail[end + 2..];
        end := end + 2;
        continue;
      }
      if tail[end] == q {
        if q == '\'' && end + 1 < |tail| && tail[end + 1] == q {
          assert rest[1] == tail[end + 1] && rest[2..] == tail[end + 2..];
          end := end + 2;
          continue;
        }
        return Some(end + 1);
      }
      end := end + 1;
    }
    r := Some(end);
  }

  /** The scanner: how far the token at the start of `tail` reaches. */
  method ScanToken(tail: string) returns (r: Option<nat>)
    requires tail != ""
    ensures r == TokenLength(tail)
  {
    var end := 0;
    if Quote(tail[0]) {
      var quoted := ScanQuoted(tail);
      if quoted.None? {
        return None;
      }
      end := quoted.value;
    } else {
      while end < |tail| && !Delimiter(tail[end])
        invariant 0 <= end <= |tail|
        invariant PlainLength(tail) == end + PlainLength(tail[end..])
      {
        end := end + 1;
      }
    }
    if end > |tail| || end == 0 {
      return None;
    }
    r := Some(end);
  }

  method FindSpan(yaml: Yaml, data: string, l: Location) returns (r: Option<Span>)
    ensures r == ScalarSpan(yaml, data, l)
  {
    hide TokenLength, Decode, LineStart;
    var line := FindLine(data, l.line);
    if line.None? || l.column < 1 || l.column > LineLength(data[line.value..]) {
      return None;
    }
    var start := line.value + l.column - 1;
    var end := ScanToken(data[start..]);
    if end.None? || Decode(yaml, data[start..start + end.value]) != Some(l.value) {
      return None;
    }
    r := Some(Span(start, start + end.value));
  }

  // ----- applying mutations -----

  /** The edit a mutation stands for in the text of its file. */
  function EditFor(yaml: Yaml, data: string, m: Mutation): (r: Option<Edit>)
    ensures r.Some? ==> r.value.start < r.value.end <= |data|
  {
    match ScalarSpan(yaml, data, m.location)
    case None => None
    case Some(s) => Some(Edit(s.start, s.end, Encode(yaml, data[s.start], m.newValue)))
  }

  predicate Locatable(yaml: Yaml, files: Files, m: Mutation) {
    m.location.file in files && EditFor(yaml, files[m.location.file], m).Some?
  }

  /** The edits of one file, in the order of the mutations. */
  function FileEdits(yaml: Yaml, files: Files, ms: seq<Mutation>, file: string): (list: seq<Edit>)
    requires file in files
    ensures forall e :: e in list ==> e.start < e.end <= |files[file]|
  {
    if ms == [] then []
    else
      var m := ms[|ms| - 1];
      var rest := FileEdits(yaml, files, ms[..|ms| - 1], file);
      if m.location.file == file && EditFor(yaml, files[file], m).Some?
      then rest + [EditFor(yaml, files[file], m).value]
      else rest
  }

  /** Every scalar is found and no two spans of a file overlap. */
  ghost predicate Applicable(yaml: Yaml, files: Files, ms: seq<Mutation>) {
    && (forall m :: m in ms ==> Locatable(yaml, files, m))
    && (forall f :: f in files ==> ListDisjoint(FileEdits(yaml, files, ms, f)))
  }

  /** All files with all their spans cut out and replaced at once. */
  ghost function Applied(yaml: Yaml, files: Files, ms: seq<Mutation>): (r: Files)
    ensures r.Keys == files.Keys
  {
    map f | f in files :: Substitute(files[f], 0, Elements(FileEdits(yaml, files, ms, f)))
  }

  method InsertDescending(list: seq<Edit>, e: Edit) returns (more: seq<Edit>)
    requires Descending(list)
    ensures multiset(more) == multiset(list) + multiset{e}
    ensures Descending(more)
  {
    var j := 0;
    while j < |list| && list[j].start > e.start
      invariant 0 <= j <= |list|
      invariant forall k :: 0 <= k < j ==> list[k].start > e.start
    {
      j := j + 1;
    }
    more := list[..j] + [e] + list[j..];
    InsertedOnce(list, j, e);
  }

  lemma InsertedOnce(list: seq<Edit>, j: nat, e: Edit)
    requires j <= |list|
    ensures multiset(list[..j] + [e] + list[j..]) == multiset(list) + multiset{e}
  {
    var a, b := list[..j], list[j..];
    assert list == a + b;
    assert multiset(a + [e] + b) == multiset(a) + multiset{e} + multiset(b);
  }

  /** Sorts the edits of a file from the highest start down; ties in any order. */
  method SortDescending(list: seq<Edit>) returns (sorted: seq<Edit>)
    ensures multiset(sorted) == multiset(list)
    ensures Descending(sorted)
  {
    hide Descending;
    NothingDescending();
    sorted := [];
    for i := 0 to |list|
      invariant multiset(sorted) == multiset(list[..i])
      invariant Descending(sorted)
    {
      assert list[..i + 1] == list[..i] + [list[i]];
      sorted := InsertDescending(sorted, list[i]);
    }
    assert list[..|list|] == list;
  }

  lemma NothingDescending()
    ensures Descending([])
  {
  }

  /** Reordering keeps the set of edits and whether they are disjoint. */
  lemma ReorderedEdits(a: seq<Edit>, b: seq<Edit>)
    requires multiset(a) == multiset(b)
    ensures Elements(a) == Elements(b)
    ensures ListDisjoint(a) <==> ListDisjoint(b)
  {
    assert forall e :: e in a <==> e in multiset(a);
    assert forall e :: e in b <==> e in multiset(b);
    DisjointByCount(a);
    DisjointByCount(b);
  }

  /** Disjointness in terms of the multiset: distinct elements are disjoint, and an element
      that occurs twice is disjoint from itself. */
  lemma DisjointByCount(a: seq<Edit>)
    ensures ListDisjoint(a) <==>
            && (forall e, f :: e in multiset(a) && f in multiset(a) && e != f ==> Disjoint(e, f))
            && (forall e :: multiset(a)[e] > 1 ==> Disjoint(e, e))
  {
    if ListDisjoint(a) {
      forall e | multiset(a)[e] > 1
        ensures Disjoint(e, e)
      {
        var i, j := TwoOccurrences(a, e);
      }
    }
    forall i, j | 0 <= i < j < |a| && a[i] == a[j]
      ensures multiset(a)[a[i]] > 1
    {
      assert a == a[..j] + a[j..];
      assert a[i] in a[..j] && a[i] in a[j..];
    }
  }

  lemma TwoOccurrences(a: seq<Edit>, e: Edit) returns (i: nat, j: nat)
    requires multiset(a)[e] > 1
    ensures i < j < |a| && a[i] == e && a[j] == e
  {
    j := |a| - 1;
    assert a == a[..j] + [a[j]];
    if a[j] == e {
      assert e in a[..j];
      i :| 0 <= i < j && a[..j][i] == e;
    } else {
      i, j := TwoOccurrences(a[..j], e);
    }
  }

  method CollectEdits(yaml: Yaml, files: Files, ms: seq<Mutation>) returns (r: Option<map<string, seq<Edit>>>)
    ensures r.Some? <==> forall m :: m in ms ==> Locatable(yaml, files, m)
    ensures r.Some? ==> r.value.Keys <= files.Keys
    ensures r.Some? ==> forall f :: f in files ==> (if f in r.value then r.value[f] else []) == FileEdits(yaml, files, ms, f)
  {
    hide ScalarSpan, Encode, EditFor;
    var edits: map<string, seq<Edit>> := map[];
    for i := 0 to |ms|
      invariant edits.Keys <= files.Keys
      invariant forall m :: m in ms[..i] ==> Locatable(yaml, files, m)
      invariant forall f :: f in files ==> (if f in edits then edits[f] else []) == FileEdits(yaml, files, ms[..i], f)
    {
      var m := ms[i];
      assert ms[..i + 1][..i] == ms[..i] && ms[..i + 1] == ms[..i] + [m];
      var file := m.location.file;
      if file !in files {
        assert m in ms && !Locatable(yaml, files, m);
        return None;
      }
      var span := FindSpan(yaml, files[file], m.location);
      SpanGivesEdit(yaml, files, m);
      if span.None? {
        assert m in ms && !Locatable(yaml, files, m);
        return None;
      }
      var text := Encode(yaml, files[file][span.value.start], m.newValue);
      edits := edits[file := (if file in edits then edits[file] else []) + [Edit(span.value.start, span.value.end, text)]];
    }
    assert ms[..|ms|] == ms;
    r := Some(edits);
  }

  /** Collects the edits per file, then splices every file from its end to its beginning.
      This is simultaneous substitution, and it succeeds exactly when every scalar is found
      and the spans of each file are disjoint. */
  method Apply(yaml: Yaml, files: Files, ms: seq<Mutation>) returns (r: Option<Files>)
    ensures r.Some? <==> Applicable(yaml, files, ms)
    ensures r.Some? ==> r.value == Applied(yaml, files, ms)
  {
    hide ListDisjoint, Descending, Substitute, FileEdits, Locatable;
    var collected := CollectEdits(yaml, files, ms);
    if collected.None? {
      return None;
    }
    var edits := collected.value;
    var result := files;
    var rest := edits.Keys;
    UntouchedFiles(files);
    while rest != {}
      invariant rest <= edits.Keys
      invariant result.Keys == files.Keys
      invariant forall f :: f in files && (f in rest || f !in edits) ==> result[f] == files[f]
      invariant forall f :: f in edits && f !in rest ==>
                              ListDisjoint(FileEdits(yaml, files, ms, f))
                              && result[f] == Substitute(files[f], 0, Elements(FileEdits(yaml, files, ms, f)))
      decreases rest
    {
      var file :| file in rest;
      assert edits[file] == FileEdits(yaml, files, ms, file);
      var sorted := SortDescending(edits[file]);
      ReorderedEdits(sorted, edits[file]);
      var ok, text := SpliceAll(files[file], sorted);
      if !ok {
        return None;
      }
      result := result[file := text];
      rest := rest - {file};
    }
    r := Some(result);
  }

  lemma UntouchedFiles(files: Files)
    ensures ListDisjoint([])
    ensures forall f :: f in files ==> Substitute(files[f], 0, Elements([])) == files[f]
  {
    forall f | f in files
      ensures Substitute(files[f], 0, Elements([])) == files[f]
    {
      SubstituteGap(files[f], Elements([]), 0, |files[f]|);
    }
  }

  lemma SpanGivesEdit(yaml: Yaml, files: Files, m: Mutation)
    requires m.location.file in files
    ensures var data := files[m.location.file];
            var s := ScalarSpan(yaml, data, m.location);
            if s.None? then EditFor(yaml, data, m).None?
            else EditFor(yaml, data, m) == Some(Edit(s.value.start, s.value.end, Encode(yaml, data[s.value.start], m.newValue)))
  {
  }
}
