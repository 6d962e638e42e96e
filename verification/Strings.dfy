/** Byte-string helpers: index search, decimal printing, and the lexicographic
    order that `sort.Strings` and `sort.Slice` compare with. */
module Strings {

  /** Position of the first `c`, or -1. */
  function FirstIndex(s: string, c: char): (i: int)
    ensures -1 <= i < |s|
    ensures i >= 0 ==> s[i] == c
    ensures forall k :: 0 <= k < (if i < 0 then |s| else i) ==> s[k] != c
    ensures i == -1 <==> c !in s
  {
    if s == "" then -1
    else if s[0] == c then 0
    else
      var i := FirstIndex(s[1..], c);
      if i < 0 then -1 else i + 1
  }

  /** Position of the last `c`, or -1. */
  function LastIndex(s: string, c: char): (i: int)
    ensures -1 <= i < |s|
    ensures i >= 0 ==> s[i] == c
    ensures forall k :: i < k < |s| ==> s[k] != c
    ensures i == -1 <==> c !in s
  {
    if s == "" then -1
    else if s[|s| - 1] == c then |s| - 1
    else LastIndex(s[..|s| - 1], c)
  }

  predicate HasPrefix(s: string, p: string) {
    p <= s
  }

  function Decimal(n: nat): string {
    if n < 10 then ["0123456789"[n]] else Decimal(n / 10) + ["0123456789"[n % 10]]
  }

  /** Strict lexicographic order. Code-point order and UTF-8 byte order agree. */
  predicate Less(a: string, b: string) {
    if b == "" then false
    else if a == "" then true
    else if a[0] != b[0] then a[0] < b[0]
    else Less(a[1..], b[1..])
  }

  lemma {:induction false} LessTotal(a: string, b: string)
    ensures Less(a, b) || Less(b, a) || a == b
  {
    if a != "" && b != "" && a[0] == b[0] {
      LessTotal(a[1..], b[1..]);
      assert a == [a[0]] + a[1..] && b == [b[0]] + b[1..];
    }
  }

  lemma {:induction false} LessTransitive(a: string, b: string, c: string)
    requires Less(a, b) && Less(b, c)
    ensures Less(a, c)
  {
    if a != "" && a[0] == b[0] && b[0] == c[0] {
      LessTransitive(a[1..], b[1..], c[1..]);
    }
  }

  lemma {:induction false} LessIrreflexive(a: string)
    ensures !Less(a, a)
  {
    if a != "" {
      LessIrreflexive(a[1..]);
    }
  }
}

/** `sort.Slice` with a comparison that is a strict total order on the elements:
    the result does not depend on the input order. */
module Sorting {
  import opened Strings

  predicate Ascending<T>(key: T -> string, xs: seq<T>) {
    forall i, j :: 0 <= i < j < |xs| ==> Less(key(xs[i]), key(xs[j]))
  }

  predicate SameElements<T(==)>(xs: seq<T>, ys: seq<T>) {
    (forall x :: x in xs ==> x in ys) && (forall y :: y in ys ==> y in xs)
  }

  /** Two ascending lists of the same elements are the same list. */
  lemma {:induction false} AscendingUnique<T>(key: T -> string, xs: seq<T>, ys: seq<T>)
    requires Ascending(key, xs) && Ascending(key, ys) && SameElements(xs, ys)
    ensures xs == ys
  {
    assert xs != [] ==> xs[0] in ys;
    assert ys != [] ==> ys[0] in xs;
    if xs != [] {
      assert xs[0] in ys && ys[0] in xs;
      var i :| 0 <= i < |ys| && ys[i] == xs[0];
      var j :| 0 <= j < |xs| && xs[j] == ys[0];
      if i > 0 && j > 0 {
        LessTransitive(key(xs[0]), key(ys[0]), key(xs[0]));
        LessIrreflexive(key(xs[0]));
      }
      assert xs[0] == ys[0];
      LessIrreflexive(key(xs[0]));
      assert xs[0] !in xs[1..] && ys[0] !in ys[1..];
      forall x | x in xs[1..]
        ensures x in ys[1..]
      {
        assert x in xs && x in ys && x != ys[0];
      }
      forall y | y in ys[1..]
        ensures y in xs[1..]
      {
        assert y in ys && y in xs && y != xs[0];
      }
      AscendingUnique(key, xs[1..], ys[1..]);
    }
  }

  /** Inserts `x` into an ascending list; the loop is the step of an insertion sort. */
  method InsertAscending<T>(key: T -> string, xs: seq<T>, x: T) returns (ys: seq<T>)
    requires Ascending(key, xs)
    requires forall y :: y in xs ==> key(y) != key(x)
    ensures Ascending(key, ys)
    ensures forall y :: y in ys <==> y in xs || y == x
  {
    var i := 0;
    while i < |xs| && Less(key(xs[i]), key(x))
      invariant 0 <= i <= |xs|
      invariant forall k :: 0 <= k < i ==> Less(key(xs[k]), key(x))
    {
      i := i + 1;
    }
    ys := xs[..i] + [x] + xs[i..];
    forall k | i <= k < |xs|
      ensures Less(key(x), key(xs[k]))
    {
      LessTotal(key(xs[i]), key(x));
      if k > i {
        LessTransitive(key(x), key(xs[i]), key(xs[k]));
      }
    }
    assert forall y :: y in xs <==> y in xs[..i] || y in xs[i..] by {
      assert xs == xs[..i] + xs[i..];
    }
  }

  /** The elements of `s` in ascending order, as `range` over a map followed by
      `sort.Strings` yields them. */
  method SortStrings(s: set<string>) returns (r: seq<string>)
    ensures Ascending(x => x, r)
    ensures forall x :: x in r <==> x in s
  {
    r := [];
    var rest := s;
    while rest != {}
      invariant rest <= s
      invariant Ascending(x => x, r)
      invariant forall x :: x in r <==> x in s && x !in rest
      decreases rest
    {
      var x :| x in rest;
      r := InsertAscending(x => x, r, x);
      rest := rest - {x};
    }
  }

  lemma {:induction false} SubsetSize<T>(a: set<T>, b: set<T>)
    requires a <= b
    ensures |a| <= |b|
  {
    if a != {} {
      var x :| x in a;
      SubsetSize(a - {x}, b - {x});
    }
  }
}
