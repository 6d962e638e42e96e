/** Image references as strings: `withTag`, the parts of a reference, and the
    reference grammar the controller relies on. */
module ImageRefs {
  import opened Strings

  datatype Option<+T> = None | Some(value: T)

  /** The part of `raw` before any `@`. */
  function BeforeAt(raw: string): (s: string)
    ensures '@' !in s && s <= raw
  {
    var at := FirstIndex(raw, '@');
    if at < 0 then raw else raw[..at]
  }

  /** `raw` without digest and without the tag: the prefix `withTag` keeps. */
  function Strip(raw: string): (s: string)
    ensures '@' !in s && s <= raw
  {
    var s := BeforeAt(raw);
    var colon := LastIndex(s, ':');
    if colon > LastIndex(s, '/') then s[..colon] else s
  }

  function WithTag(raw: string, tag: string): string {
    Strip(raw) + ":" + tag
  }

  /** What follows the prefix: `""`, `":tag"`, `"@digest"` or `":tag@digest"`. */
  function Tail(raw: string): (t: string)
    ensures Strip(raw) + t == raw
  {
    raw[|Strip(raw)|..]
  }

  function TagPart(raw: string): Option<string> {
    var s := BeforeAt(raw);
    if |Strip(raw)| < |s| then Some(s[|Strip(raw)| + 1..]) else None
  }

  function DigestPart(raw: string): Option<string> {
    var at := FirstIndex(raw, '@');
    if at < 0 then None else Some(raw[at + 1..])
  }

  // ----- grammar -----

  predicate Digit(c: char) { '0' <= c <= '9' }
  predicate Lower(c: char) { 'a' <= c <= 'z' }
  predicate Upper(c: char) { 'A' <= c <= 'Z' }
  predicate LowerNum(c: char) { Lower(c) || Digit(c) }
  predicate Alnum(c: char) { Lower(c) || Upper(c) || Digit(c) }
  predicate LowerHex(c: char) { Digit(c) || 'a' <= c <= 'f' }
  predicate TagChar(c: char) { Alnum(c) || c == '_' || c == '.' || c == '-' }
  predicate PathChar(c: char) { LowerNum(c) || c == '.' || c == '_' || c == '-' || c == '/' }
  predicate HostChar(c: char) { Alnum(c) || c == '.' || c == '-' }

  /** `[A-Za-z0-9_][A-Za-z0-9_.-]{0,127}` */
  predicate TagOk(t: string) {
    && 1 <= |t| <= 128
    && (Alnum(t[0]) || t[0] == '_')
    && forall i :: 0 <= i < |t| ==> TagChar(t[i])
  }

  /** A sha256 digest in canonical form. */
  predicate DigestOk(d: string) {
    && |d| == 71
    && d[..7] == "sha256:"
    && forall i :: 7 <= i < |d| ==> LowerHex(d[i])
  }

  /** Slash-separated components, each starting and ending with a lower-case letter or digit. */
  predicate PathOk(p: string) {
    && p != ""
    && (forall i :: 0 <= i < |p| ==> PathChar(p[i]))
    && LowerNum(p[0]) && LowerNum(p[|p| - 1])
    && (forall i :: 0 < i < |p| - 1 && p[i] == '/' ==> LowerNum(p[i - 1]) && LowerNum(p[i + 1]))
  }

  predicate HostOk(h: string) {
    && h != ""
    && (forall i :: 0 <= i < |h| ==> HostChar(h[i]))
    && Alnum(h[0]) && Alnum(h[|h| - 1])
  }

  /** A host name starting and ending with a letter or digit, optionally followed by a port. */
  predicate DomainOk(d: string) {
    var colon := FirstIndex(d, ':');
    if colon < 0 then HostOk(d)
    else HostOk(d[..colon]) && colon + 1 < |d| && forall i :: colon < i < |d| ==> Digit(d[i])
  }

  predicate NameOk(n: string) {
    var slash := FirstIndex(n, '/');
    PathOk(n) || (slash > 0 && DomainOk(n[..slash]) && PathOk(n[slash + 1..]))
  }

  predicate ValidRef(raw: string) {
    && NameOk(Strip(raw))
    && (TagPart(raw).Some? ==> TagOk(TagPart(raw).value))
    && (DigestPart(raw).Some? ==> DigestOk(DigestPart(raw).value))
  }

  /** A reference with neither tag nor digest. */
  predicate NameOnly(raw: string) {
    ValidRef(raw) && TagPart(raw).None? && DigestPart(raw).None?
  }

  function RawName(raw: string): string {
    if ValidRef(raw) then Strip(raw) else ""
  }

  predicate NamesDomain(head: string) {
    '.' in head || ':' in head || head == "localhost" || exists i :: 0 <= i < |head| && Upper(head[i])
  }

  /** The fully qualified name: default registry and default namespace filled in. */
  function Normalize(name: string): string {
    var slash := FirstIndex(name, '/');
    var explicit := slash >= 0 && NamesDomain(name[..slash]);
    var domain := if explicit then name[..slash] else "docker.io";
    var rest := if explicit then name[slash + 1..] else name;
    var domain' := if domain == "index.docker.io" then "docker.io" else domain;
    domain' + "/" + (if domain' == "docker.io" && '/' !in rest then "library/" + rest else rest)
  }

  function ImageName(raw: string): string {
    if ValidRef(raw) then Normalize(Strip(raw)) else ""
  }

  function ImageTag(raw: string): string {
    if ValidRef(raw) && TagPart(raw).Some? then TagPart(raw).value else ""
  }

  // ----- laws -----

  lemma TagOkChars(t: string)
    requires TagOk(t)
    ensures t != "" && ':' !in t && '/' !in t && '@' !in t
  {
  }

  /** Appending a tag to a prefix without `@` is undone by stripping. */
  lemma TaggedParts(s: string, t: string)
    requires '@' !in s
    requires ':' !in t && '/' !in t && '@' !in t
    ensures Strip(s + ":" + t) == s
    ensures TagPart(s + ":" + t) == Some(t) && DigestPart(s + ":" + t) == None
  {
    hide FirstIndex, LastIndex;
    var r := s + ":" + t;
    assert forall i :: |s| < i < |r| ==> r[i] == t[i - |s| - 1] && r[i] in t;
    assert forall i :: 0 <= i < |s| ==> r[i] == s[i] && r[i] in s;
    assert r[|s|] == ':';
    assert FirstIndex(r, '@') == -1;
    assert LastIndex(r, ':') == |s|;
    assert LastIndex(r, '/') < |s|;
    assert r[..|s|] == s && r[|s| + 1..] == t;
  }

  /** The same with a digest behind the tag. */
  lemma PinnedParts(s: string, t: string, d: string)
    requires '@' !in s
    requires ':' !in t && '/' !in t && '@' !in t
    ensures Strip(s + ":" + t + "@" + d) == s
    ensures TagPart(s + ":" + t + "@" + d) == Some(t)
    ensures DigestPart(s + ":" + t + "@" + d) == Some(d)
  {
    hide FirstIndex, LastIndex;
    var q := s + ":" + t;
    var r := q + "@" + d;
    assert forall i :: 0 <= i < |q| ==> r[i] == q[i] && (q[i] in s || q[i] in t || q[i] == ':');
    assert r[|q|] == '@';
    assert FirstIndex(r, '@') == |q|;
    assert r[..|q|] == q && r[|q| + 1..] == d;
    TaggedParts(s, t);
    assert FirstIndex(q, '@') == -1;
  }

  /** A grammatical name has nothing to strip. */
  lemma NameParts(n: string)
    requires NameOk(n)
    ensures '@' !in n && Strip(n) == n && TagPart(n) == None && DigestPart(n) == None
  {
    hide FirstIndex, LastIndex;
    var slash := FirstIndex(n, '/');
    if !PathOk(n) {
      var d, p := n[..slash], n[slash + 1..];
      assert forall i :: slash < i < |n| ==> n[i] == p[i - slash - 1];
      assert forall i :: 0 <= i < slash ==> n[i] == d[i];
      assert '@' !in d by {
        DomainHasNoAt(d);
      }
    }
    assert forall i :: 0 <= i < |n| ==> n[i] != '@';
    assert LastIndex(n, ':') <= LastIndex(n, '/') || LastIndex(n, ':') == -1;
  }

  lemma DomainHasNoAt(d: string)
    requires DomainOk(d)
    ensures '@' !in d
  {
    hide FirstIndex, LastIndex;
    var colon := FirstIndex(d, ':');
    var host := if colon < 0 then d else d[..colon];
    assert forall i :: 0 <= i < |host| ==> d[i] == host[i];
  }

  /** Retagging keeps the name used for matching, replaces the tag and drops the digest. */
  lemma StripHasNoAt(raw: string)
    ensures '@' !in Strip(raw)
  {
  }

  lemma WithTagLaws(raw: string, t: string)
    requires TagOk(t)
    ensures Strip(WithTag(raw, t)) == Strip(raw)
    ensures Tail(WithTag(raw, t)) == ":" + t
    ensures TagPart(WithTag(raw, t)) == Some(t) && DigestPart(WithTag(raw, t)) == None
    ensures '@' !in WithTag(raw, t)
    ensures ValidRef(raw) ==> ValidRef(WithTag(raw, t))
  {
    hide FirstIndex, LastIndex, NameOk, TagOk, DigestOk, BeforeAt;
    TagOkChars(t);
    StripHasNoAt(raw);
    TaggedParts(Strip(raw), t);
    TailParts(WithTag(raw, t));
  }

  /** The last tag wins. */
  lemma WithTagAbsorbs(raw: string, t: string, t': string)
    requires TagOk(t)
    ensures WithTag(WithTag(raw, t), t') == WithTag(raw, t')
  {
    WithTagLaws(raw, t);
  }

  lemma PinLaws(raw: string, t: string, d: string)
    requires TagOk(t) && DigestOk(d)
    ensures Strip(WithTag(raw, t) + "@" + d) == Strip(raw)
    ensures Tail(WithTag(raw, t) + "@" + d) == ":" + t + "@" + d
    ensures TagPart(WithTag(raw, t) + "@" + d) == Some(t)
    ensures DigestPart(WithTag(raw, t) + "@" + d) == Some(d)
    ensures '@' in WithTag(raw, t) + "@" + d
    ensures ValidRef(raw) ==> ValidRef(WithTag(raw, t) + "@" + d)
  {
    hide FirstIndex, LastIndex, NameOk, DigestOk;
    TagOkChars(t);
    var r := WithTag(raw, t) + "@" + d;
    PinnedParts(Strip(raw), t, d);
    assert '@' in r by {
      AtIffDigest(r);
    }
    TailParts(r);
  }

  lemma NameOnlyIsStripped(nn: string)
    requires NameOnly(nn)
    ensures Strip(nn) == nn && NameOk(nn) && nn != "" && '@' !in nn && Tail(nn) == ""
  {
    TailParts(nn);
    assert Strip(nn) + Tail(nn) == nn + "" == nn;
  }

  /** The tail is determined by the tag and digest. */
  lemma TailParts(raw: string)
    ensures Tail(raw) == (if TagPart(raw).Some? then ":" + TagPart(raw).value else "")
                       + (if DigestPart(raw).Some? then "@" + DigestPart(raw).value else "")
  {
    StripThenTag(raw);
    BeforeAtThenDigest(raw);
    var t := if TagPart(raw).Some? then ":" + TagPart(raw).value else "";
    var g := if DigestPart(raw).Some? then "@" + DigestPart(raw).value else "";
    Cancel(raw, Strip(raw), t, g, Tail(raw));
  }

  lemma StripThenTag(raw: string)
    ensures BeforeAt(raw) == Strip(raw) + (if TagPart(raw).Some? then ":" + TagPart(raw).value else "")
  {
  }

  lemma BeforeAtThenDigest(raw: string)
    ensures raw == BeforeAt(raw) + (if DigestPart(raw).Some? then "@" + DigestPart(raw).value else "")
  {
  }

  lemma Cancel(raw: string, p: string, t: string, g: string, tail: string)
    requires raw == p + t + g && raw == p + tail
    ensures tail == t + g
  {
    assert p + t + g == p + (t + g);
    assert (p + (t + g))[|p|..] == t + g && (p + tail)[|p|..] == tail;
  }

  lemma AtIffDigest(raw: string)
    ensures '@' in raw <==> DigestPart(raw).Some?
  {
  }

  /** A path without separators. */
  predicate ComponentOk(c: string) {
    PathOk(c) && '/' !in c
  }

  lemma JoinPath(c: string, rest: string, n: string)
    requires ComponentOk(c) && PathOk(rest) && n == c + "/" + rest
    ensures PathOk(n)
  {
    assert forall i :: 0 <= i < |c| ==> n[i] == c[i] && n[i] in c;
    assert forall i :: |c| < i < |n| ==> n[i] == rest[i - |c| - 1];
    assert n[|c|] == '/';
    forall i | 0 < i < |n| - 1 && n[i] == '/'
      ensures LowerNum(n[i - 1]) && LowerNum(n[i + 1])
    {
      if i > |c| {
        assert rest[i - |c| - 1] == '/';
      }
    }
  }

  lemma SplitPath(n: string, slash: nat)
    requires PathOk(n) && slash < |n| && n[slash] == '/' && '/' !in n[..slash]
    ensures ComponentOk(n[..slash]) && PathOk(n[slash + 1..])
  {
    var c, rest := n[..slash], n[slash + 1..];
    assert 0 < slash < |n| - 1;
    assert forall i :: 0 <= i < |rest| ==> rest[i] == n[slash + 1 + i];
  }

  /** A grammatical name is a path, or a domain and a path. */
  lemma NameSplit(name: string, slash: nat)
    requires NameOk(name) && slash < |name| && name[slash] == '/' && '/' !in name[..slash]
    ensures PathOk(name[slash + 1..])
    ensures (PathOk(name) && ComponentOk(name[..slash])) || DomainOk(name[..slash])
    ensures name[..slash] != ""
  {
    hide FirstIndex, PathOk, DomainOk;
    assert forall i :: 0 <= i < slash ==> name[i] == name[..slash][i];
    assert FirstIndex(name, '/') == slash;
    if PathOk(name) {
      SplitPath(name, slash);
      NotEmpty(name[..slash]);
    }
  }

  lemma NotEmpty(c: string)
    requires PathOk(c)
    ensures c != ""
  {
  }

  /** A domain that does not look like one is just the first component of a path. */
  lemma PlainDomain(d: string)
    requires DomainOk(d) && !NamesDomain(d) && '/' !in d
    ensures ComponentOk(d)
  {
    hide FirstIndex;
    assert forall i :: 0 <= i < |d| ==> HostChar(d[i]) && !Upper(d[i]) && d[i] != '.';
  }

  /** Qualifying a name that is already qualified changes nothing. */
  lemma QualifiedIsStable(domain: string, rest: string, n: string)
    requires domain != "" && '/' !in domain && domain != "index.docker.io" && NamesDomain(domain)
    requires PathOk(rest) && (domain == "docker.io" ==> '/' in rest)
    requires DomainOk(domain) || ComponentOk(domain)
    requires n == domain + "/" + rest
    ensures NameOk(n) && Normalize(n) == n
  {
    hide FirstIndex, PathOk, DomainOk, NamesDomain;
    assert forall i :: 0 <= i < |domain| ==> n[i] == domain[i];
    assert n[|domain|] == '/' && n[..|domain|] == domain && n[|domain| + 1..] == rest;
    assert FirstIndex(n, '/') == |domain|;
    if ComponentOk(domain) {
      JoinPath(domain, rest, n);
    }
  }

  lemma LibraryPath(rest: string)
    requires PathOk(rest)
    ensures PathOk("library/" + rest) && '/' in "library/" + rest
  {
    var n := "library/" + rest;
    assert n[7] == '/';
    assert forall i :: 8 <= i < |n| ==> n[i] == rest[i - 8];
  }

  lemma DockerHub()
    ensures NamesDomain("docker.io") && DomainOk("docker.io")
    ensures '/' !in "docker.io" && "docker.io" != "index.docker.io"
  {
    var d := "docker.io";
    assert d[6] == '.';
    assert |"index.docker.io"| == 15;
    HostIsDomain(d);
  }

  lemma HostIsDomain(d: string)
    requires HostOk(d)
    ensures DomainOk(d) && '/' !in d
  {
    hide FirstIndex;
  }

  /** Registry and repository path of a name, with the defaults filled in. */
  lemma Qualified(name: string) returns (domain: string, rest: string)
    requires NameOk(name)
    ensures Normalize(name) == domain + "/" + rest
    ensures domain != "" && '/' !in domain && domain != "index.docker.io" && NamesDomain(domain)
    ensures PathOk(rest) && (domain == "docker.io" ==> '/' in rest)
    ensures DomainOk(domain) || ComponentOk(domain)
  {
    hide PathOk, DomainOk, NamesDomain, ComponentOk, NameOk;
    DockerHub();
    var slash := FirstIndex(name, '/');
    var explicit := slash >= 0 && NamesDomain(name[..slash]);
    rest := name;
    domain := "docker.io";
    if slash >= 0 {
      assert '/' !in name[..slash];
      NameSplit(name, slash);
      if explicit {
        rest := name[slash + 1..];
        if name[..slash] != "index.docker.io" {
          domain := name[..slash];
        }
      } else {
        ImplicitPath(name, slash);
      }
    } else {
      NoDomain(name);
    }
    if domain == "docker.io" && '/' !in rest {
      LibraryPath(rest);
      rest := "library/" + rest;
    }
  }

  lemma ImplicitPath(name: string, slash: nat)
    requires NameOk(name) && slash < |name| && name[slash] == '/' && '/' !in name[..slash]
    requires !NamesDomain(name[..slash])
    ensures PathOk(name)
  {
    hide PathOk, DomainOk, NamesDomain;
    NameSplit(name, slash);
    if !PathOk(name) {
      PlainDomain(name[..slash]);
      JoinPath(name[..slash], name[slash + 1..], name);
    }
  }

  lemma NoDomain(name: string)
    requires NameOk(name) && FirstIndex(name, '/') < 0
    ensures PathOk(name)
  {
    hide PathOk, FirstIndex;
  }

  /** Filling in defaults yields a grammatical name and doing it again changes nothing. */
  lemma NormalizeStable(name: string)
    requires NameOk(name)
    ensures NameOk(Normalize(name)) && Normalize(Normalize(name)) == Normalize(name)
  {
    hide NameOk, PathOk, DomainOk, NamesDomain, ComponentOk, Normalize;
    var domain, rest := Qualified(name);
    QualifiedIsStable(domain, rest, Normalize(name));
  }
}
