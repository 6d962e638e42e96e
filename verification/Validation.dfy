/** The path contract of update requests. */
module Validation {
  import opened Strings
  import opened ImageRefs
  import opened Repository

  /** White space in Unicode. */
  predicate Space(c: char) {
    var n := c as int;
    || 9 <= n <= 13 || n == 32 || n == 0x85 || n == 0xA0 || n == 0x1680 || 0x2000 <= n <= 0x200A
    || n == 0x2028 || n == 0x2029 || n == 0x202F || n == 0x205F || n == 0x3000
  }

  predicate Control(c: char) {
    c as int < 0x20 || 0x7F <= c as int <= 0x9F
  }

  function TrimRight(s: string): string {
    if s != "" && (s[|s| - 1] == ' ' || s[|s| - 1] == '.') then TrimRight(s[..|s| - 1]) else s
  }

  function LowerCase(c: char): char {
    if 'A' <= c <= 'Z' then (c as int + 32) as char else c
  }

  predicate SameFolded(s: string, lower: string) {
    |s| == |lower| && forall i :: 0 <= i < |s| ==> LowerCase(s[i]) == lower[i]
  }

  /** From the last dot of the last element on. */
  function Extension(file: string): string {
    var base := Base(file);
    var dot := LastIndex(base, '.');
    if dot < 0 then "" else base[dot..]
  }

  function WithoutSlashes(file: string): string {
    if file != "" && file[|file| - 1] == '/' then WithoutSlashes(file[..|file| - 1]) else file
  }

  const GIT := ".git"
  const YAML := ".yaml"
  const YML := ".yml"
  const KUSTOMIZATION := "Kustomization"

  predicate PartOk(part: string) {
    part != ".." && !SameFolded(TrimRight(part), GIT)
  }

  predicate UpdatePathOk(file: string) {
    && (file != "" ==> !Space(file[0]) && !Space(file[|file| - 1]) && file[0] != '/')
    && (forall i :: 0 <= i < |file| ==> file[i] != '\\' && file[i] != ':' && !Control(file[i]))
    && (forall part :: part in Components(file) ==> PartOk(part))
    && (SameFolded(Extension(file), YAML) || SameFolded(Extension(file), YML) || Base(WithoutSlashes(file)) == KUSTOMIZATION)
  }

  /** The path inside the workspace, cleaned. */
  function Cleaned(file: string): Option<string> {
    match Clean(Components(file))
    case None => None
    case Some(cs) => if cs == [] then None else Some(Join(cs))
  }

  /** A valid path names something below the workspace: it cleans to proper components. */
  lemma ValidPathStaysInside(file: string)
    requires UpdatePathOk(file)
    ensures var c := Clean(Components(file));
            c.Some? && forall i :: 0 <= i < |c.value| ==> Proper(c.value[i]) && PartOk(c.value[i])
  {
    hide PartOk, Space, Control, SameFolded, Extension, WithoutSlashes, Base;
    ComponentsHaveNoSlash(file);
    assert forall part :: part in Components(file) ==> part != ".." by {
      NotUp(Components(file));
    }
    NeverClimbs(Components(file));
    var cs := Clean(Components(file)).value;
    forall i | 0 <= i < |cs|
      ensures Proper(cs[i]) && PartOk(cs[i])
    {
      assert cs[i] in Components(file);
    }
  }

  lemma NotUp(parts: seq<string>)
    requires forall part :: part in parts ==> PartOk(part)
    ensures forall part :: part in parts ==> part != ".."
  {
    hide SameFolded, TrimRight;
  }

  lemma {:induction false} NeverClimbs(cs: seq<string>)
    requires forall c :: c in cs ==> c != ".."
    ensures Clean(cs).Some?
    decreases |cs|
  {
    if cs != [] {
      var init := cs[..|cs| - 1];
      assert forall c :: c in init ==> c in cs;
      NeverClimbs(init);
      assert cs[|cs| - 1] in cs;
    }
  }
}
