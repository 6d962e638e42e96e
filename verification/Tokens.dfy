/** Scalar tokens in YAML text: where a token ends, what it means, and how a new value
    is written in the same quoting style. */
module Tokens {
  import opened ImageRefs

  /** The YAML library, for plain scalars only: the value a plain token decodes to, and
      whether the token resolves to a string (rather than a number, boolean, null, ...). */
  datatype Yaml = Yaml(decodePlain: string -> Option<string>, isString: string -> bool)

  predicate LineBreak(c: char) { c == '\n' || c == '\r' }

  predicate Delimiter(c: char) {
    c == '\r' || c == '\n' || c == ',' || c == ']' || c == '}' || c == '\t' || c == ' '
  }

  predicate Quote(c: char) { c == '\'' || c == '"' }

  function Plus(n: nat, r: Option<nat>): Option<nat> {
    if r.None? then None else Some(n + r.value)
  }

  /** Characters from just behind the opening quote up to and including the closing one.
      Past the end of the text counts as one more than is there. */
  function QuotedLength(t: string, q: char): Option<nat> {
    if t == "" then Some(0)
    else if LineBreak(t[0]) then None
    else if q == '"' && t[0] == '\\' then (if |t| == 1 then Some(2) else Plus(2, QuotedLength(t[2..], q)))
    else if t[0] == q then
      (if q == '\'' && |t| > 1 && t[1] == q then Plus(2, QuotedLength(t[2..], q)) else Some(1))
    else Plus(1, QuotedLength(t[1..], q))
  }

  function PlainLength(t: string): (n: nat)
    ensures n <= |t|
  {
    if t == "" || Delimiter(t[0]) then 0 else 1 + PlainLength(t[1..])
  }

  /** Length of the token at the start of `t`. */
  function TokenLength(t: string): (r: Option<nat>)
    ensures r.Some? ==> 0 < r.value <= |t|
  {
    if t == "" then None
    else if Quote(t[0]) then
      match QuotedLength(t[1..], t[0])
      case None => None
      case Some(n) => if 1 + n > |t| then None else Some(1 + n)
    else if PlainLength(t) == 0 then None else Some(PlainLength(t))
  }

  // ----- decoding -----

  function Cons(c: char, r: Option<string>): Option<string> {
    if r.None? then None else Some([c] + r.value)
  }

  /** Body of a single-quoted scalar: a quote is written twice. */
  function DecodeSingle(b: string): Option<string> {
    if b == "" then Some("")
    else if b[0] != '\'' then Cons(b[0], DecodeSingle(b[1..]))
    else if |b| > 1 && b[1] == '\'' then Cons('\'', DecodeSingle(b[2..]))
    else None
  }

  function HexDigit(c: char): Option<nat> {
    if '0' <= c <= '9' then Some(c as nat - '0' as nat)
    else if 'a' <= c <= 'f' then Some(10 + (c as nat - 'a' as nat))
    else if 'A' <= c <= 'F' then Some(10 + (c as nat - 'A' as nat))
    else None
  }

  function HexValue(s: string): Option<nat> {
    if s == "" then Some(0)
    else
      match HexValue(s[..|s| - 1])
      case None => None
      case Some(n) =>
        match HexDigit(s[|s| - 1])
        case None => None
        case Some(d) => Some(16 * n + d)
  }

  function CodePoint(n: nat): Option<char> {
    if n < 0xD800 || 0xE000 <= n < 0x11_0000 then Some(n as char) else None
  }

  function Escape(c: char): Option<char> {
    if c == '0' then Some(0 as char)
    else if c == 'a' then Some(7 as char)
    else if c == 'b' then Some(8 as char)
    else if c == 't' || c == '\t' then Some(9 as char)
    else if c == 'n' then Some(10 as char)
    else if c == 'v' then Some(11 as char)
    else if c == 'f' then Some(12 as char)
    else if c == 'r' then Some(13 as char)
    else if c == 'e' then Some(27 as char)
    else if c == ' ' || c == '"' || c == '/' || c == '\\' then Some(c)
    else if c == 'N' then Some(0x85 as char)
    else if c == '_' then Some(0xA0 as char)
    else if c == 'L' then Some(0x2028 as char)
    else if c == 'P' then Some(0x2029 as char)
    else None
  }

  function HexWidth(c: char): nat {
    if c == 'x' then 2 else if c == 'u' then 4 else if c == 'U' then 8 else 0
  }

  function SkipBlanks(b: string): (r: string)
    ensures |r| <= |b|
  {
    if b != "" && (b[0] == ' ' || b[0] == '\t' || LineBreak(b[0])) then SkipBlanks(b[1..]) else b
  }

  /** Body of a double-quoted scalar, with its escape sequences and escaped line breaks. */
  function DecodeDouble(b: string): Option<string>
    decreases |b|
  {
    if b == "" then Some("")
    else if b[0] == '"' then None
    else if b[0] != '\\' then Cons(b[0], DecodeDouble(b[1..]))
    else if |b| == 1 then None
    else if LineBreak(b[1]) then DecodeDouble(SkipBlanks(b[2..]))
    else if HexWidth(b[1]) > 0 then
      if |b| < 2 + HexWidth(b[1]) then None
      else
        match HexValue(b[2..2 + HexWidth(b[1])])
        case None => None
        case Some(n) =>
          match CodePoint(n)
          case None => None
          case Some(c) => Cons(c, DecodeDouble(b[2 + HexWidth(b[1])..]))
    else
      match Escape(b[1])
      case None => None
      case Some(c) => Cons(c, DecodeDouble(b[2..]))
  }

  /** The value of a token; `None` when it is not a well-formed scalar. */
  function Decode(yaml: Yaml, token: string): Option<string> {
    if token == "" then None
    else if !Quote(token[0]) then yaml.decodePlain(token)
    else if |token| < 2 || token[|token| - 1] != token[0] then None
    else if token[0] == '\'' then DecodeSingle(token[1..|token| - 1])
    else DecodeDouble(token[1..|token| - 1])
  }

  // ----- encoding -----

  function Doubled(v: string): string {
    if v == "" then ""
    else (if v[0] == '\'' then "''" else [v[0]]) + Doubled(v[1..])
  }

  function Hex(d: nat): char
    requires d < 16
  {
    if d < 10 then ('0' as nat + d) as char else ('a' as nat + (d - 10)) as char
  }

  function Unicode(n: nat): string
    requires n < 0x1_0000
  {
    ['\\', 'u', Hex(n / 0x1000), Hex(n / 0x100 % 16), Hex(n / 16 % 16), Hex(n % 16)]
  }

  function JsonChar(c: char): string {
    if c == '"' then "\\\""
    else if c == '\\' then "\\\\"
    else if c == 8 as char then "\\b"
    else if c == 12 as char then "\\f"
    else if c == '\n' then "\\n"
    else if c == '\r' then "\\r"
    else if c == '\t' then "\\t"
    else if c < ' ' || c == '<' || c == '>' || c == '&' || c == 0x2028 as char || c == 0x2029 as char then Unicode(c as nat)
    else [c]
  }

  function JsonBody(v: string): string {
    if v == "" then "" else JsonChar(v[0]) + JsonBody(v[1..])
  }

  function SingleQuoted(v: string): string { "'" + Doubled(v) + "'" }

  function JsonQuoted(v: string): string { "\"" + JsonBody(v) + "\"" }

  /** The new token, in the style announced by the first character of the old one. A plain
      value that would not read back as the same string is quoted. */
  function Encode(yaml: Yaml, first: char, v: string): string {
    if first == '\'' then SingleQuoted(v)
    else if first == '"' then JsonQuoted(v)
    else if v != "" && yaml.isString(v) && yaml.decodePlain(v) == Some(v) then v
    else JsonQuoted(v)
  }

  // ----- laws -----

  /** What may follow a token without becoming part of it. */
  predicate Stops(first: char, rest: string) {
    rest == ""
    || (if first == '\'' then rest[0] != '\'' else if first == '"' then true else Delimiter(rest[0]))
  }

  /** A token ends where something stops it. */
  lemma TokenStops(t: string)
    requires TokenLength(t).Some?
    ensures Stops(t[0], t[TokenLength(t).value..])
  {
    var n := TokenLength(t).value;
    if Quote(t[0]) {
      if n < |t| {
        QuotedStops(t[1..], t[0]);
      }
      assert t[1..][n - 1..] == t[n..];
    } else {
      PlainStops(t);
    }
  }

  lemma {:induction false} QuotedStops(t: string, q: char)
    requires QuotedLength(t, q).Some? && QuotedLength(t, q).value < |t|
    ensures q == '\'' ==> t[QuotedLength(t, q).value] != '\''
  {
    if q == '\'' && t != "" {
      if t[0] == q && |t| > 1 && t[1] == q {
        QuotedStops(t[2..], q);
      } else if t[0] != q {
        QuotedStops(t[1..], q);
      }
    }
  }

  lemma {:induction false} PlainStops(t: string)
    ensures PlainLength(t) < |t| ==> Delimiter(t[PlainLength(t)])
    ensures forall i :: 0 <= i < PlainLength(t) ==> !Delimiter(t[i])
  {
    if t != "" && !Delimiter(t[0]) {
      PlainStops(t[1..]);
    }
  }

  lemma {:induction false} PlainLengthIs(t: string, n: nat)
    requires n <= |t| && (forall i :: 0 <= i < n ==> !Delimiter(t[i])) && (n < |t| ==> Delimiter(t[n]))
    ensures PlainLength(t) == n
  {
    if n > 0 {
      PlainLengthIs(t[1..], n - 1);
    }
  }

  lemma {:induction false} SingleScans(v: string, rest: string)
    requires forall i :: 0 <= i < |v| ==> !LineBreak(v[i])
    requires Stops('\'', rest)
    ensures QuotedLength(Doubled(v) + "'" + rest, '\'') == Some(|Doubled(v)| + 1)
  {
    var t := Doubled(v) + "'" + rest;
    if v == "" {
      assert t == "'" + rest;
    } else {
      SingleScans(v[1..], rest);
      var t' := Doubled(v[1..]) + "'" + rest;
      if v[0] == '\'' {
        assert t == "''" + t';
        assert t[2..] == t';
      } else {
        assert t == [v[0]] + t';
        assert t[1..] == t';
      }
    }
  }

  lemma {:induction false} SingleDecodes(v: string)
    ensures DecodeSingle(Doubled(v)) == Some(v)
  {
    if v != "" {
      SingleDecodes(v[1..]);
      var b, b' := Doubled(v), Doubled(v[1..]);
      if v[0] == '\'' {
        assert b == "''" + b' && b[2..] == b';
      } else {
        assert b == [v[0]] + b' && b[1..] == b';
      }
      assert v == [v[0]] + v[1..];
    }
  }

  /** An encoded character never shows a quote, a line break or a dangling backslash. */
  lemma JsonCharScans(c: char, rest: string)
    ensures QuotedLength(JsonChar(c) + rest, '"') == Plus(|JsonChar(c)|, QuotedLength(rest, '"'))
  {
    var j := JsonChar(c);
    var t := j + rest;
    if |j| == 1 {
      assert t[1..] == rest;
    } else if |j| == 2 {
      assert t[2..] == rest;
    } else {
      assert |j| == 6 && t[0] == '\\';
      assert forall i :: 2 <= i < 6 ==> t[i] == j[i] && t[i] != '"' && t[i] != '\\' && !LineBreak(t[i]);
      var t2, t3, t4, t5 := t[2..], t[3..], t[4..], t[5..];
      assert t2[1..] == t3 && t3[1..] == t4 && t4[1..] == t5 && t5[1..] == rest;
      assert t2[0] == t[2] && t3[0] == t[3] && t4[0] == t[4] && t5[0] == t[5];
      assert QuotedLength(t5, '"') == Plus(1, QuotedLength(rest, '"'));
      assert QuotedLength(t4, '"') == Plus(2, QuotedLength(rest, '"'));
      assert QuotedLength(t3, '"') == Plus(3, QuotedLength(rest, '"'));
      assert QuotedLength(t2, '"') == Plus(4, QuotedLength(rest, '"'));
    }
  }

  lemma {:induction false} JsonScans(v: string, rest: string)
    ensures QuotedLength(JsonBody(v) + "\"" + rest, '"') == Some(|JsonBody(v)| + 1)
  {
    hide JsonChar;
    var t := JsonBody(v) + "\"" + rest;
    if v == "" {
      assert t == "\"" + rest;
    } else {
      JsonScans(v[1..], rest);
      var t' := JsonBody(v[1..]) + "\"" + rest;
      JsonCharScans(v[0], t');
      assert t == JsonChar(v[0]) + t';
    }
  }

  lemma HexRoundTrip(d: nat)
    requires d < 16
    ensures HexDigit(Hex(d)) == Some(d)
  {
  }

  lemma UnicodeRoundTrip(n: nat)
    requires n < 0x1_0000
    ensures HexValue(Unicode(n)[2..6]) == Some(n)
  {
    hide Hex, HexDigit;
    var a, b, c, d := n / 0x1000, n / 0x100 % 16, n / 16 % 16, n % 16;
    HexRoundTrip(a);
    HexRoundTrip(b);
    HexRoundTrip(c);
    HexRoundTrip(d);
    var s := Unicode(n)[2..6];
    assert s == [Hex(a), Hex(b), Hex(c), Hex(d)];
    assert s[..3] == [Hex(a), Hex(b), Hex(c)] && s[..3][..2] == [Hex(a), Hex(b)] && s[..3][..2][..1] == [Hex(a)];
    assert s[..3][..2][..1][..0] == "";
    assert HexValue(s[..3][..2][..1]) == Some(a);
    assert HexValue(s[..3][..2]) == Some(16 * a + b);
    assert HexValue(s[..3]) == Some(16 * (16 * a + b) + c);
    assert HexValue(s) == Some(16 * (16 * (16 * a + b) + c) + d);
    DigitsSum(n);
  }

  lemma DigitsSum(n: nat)
    requires n < 0x1_0000
    ensures 16 * (16 * (16 * (n / 0x1000) + n / 0x100 % 16) + n / 16 % 16) + n % 16 == n
  {
    assert n == 16 * (n / 16) + n % 16;
    var m := n / 16;
    assert m == 16 * (m / 16) + m % 16;
    assert m / 16 == n / 0x100;
    var k := n / 0x100;
    assert k == 16 * (k / 16) + k % 16;
    assert k / 16 == n / 0x1000;
  }

  lemma JsonCharDecodes(c: char, rest: string)
    ensures DecodeDouble(JsonChar(c) + rest) == Cons(c, DecodeDouble(rest))
  {
    hide HexValue, Hex;
    var j := JsonChar(c);
    var b := j + rest;
    if |j| == 1 {
      assert b[1..] == rest;
    } else if |j| == 2 {
      assert b[2..] == rest;
    } else {
      var n := c as nat;
      UnicodeRoundTrip(n);
      assert b[..6] == j && b[6..] == rest;
      assert b[2..2 + HexWidth('u')] == j[2..6];
      assert CodePoint(n) == Some(c);
    }
  }

  lemma {:induction false} JsonDecodes(v: string)
    ensures DecodeDouble(JsonBody(v)) == Some(v)
  {
    hide JsonChar;
    if v != "" {
      JsonDecodes(v[1..]);
      JsonCharDecodes(v[0], JsonBody(v[1..]));
      assert v == [v[0]] + v[1..];
    }
  }

  /** A value that the style of the old token can carry. Double quotes carry anything. */
  predicate Writable(yaml: Yaml, first: char, v: string) {
    if first == '\'' then forall i :: 0 <= i < |v| ==> !LineBreak(v[i])
    else if first == '"' || Encode(yaml, first, v) == JsonQuoted(v) then true
    else v != "" && !Quote(v[0]) && forall i :: 0 <= i < |v| ==> !Delimiter(v[i])
  }

  /** Written into text that stops the token, the new token scans to exactly its own end and
      decodes to the new value. */
  lemma EncodeScansBack(yaml: Yaml, first: char, v: string, rest: string)
    requires Writable(yaml, first, v) && Stops(first, rest)
    ensures TokenLength(Encode(yaml, first, v) + rest) == Some(|Encode(yaml, first, v)|)
    ensures Decode(yaml, Encode(yaml, first, v)) == Some(v)
    ensures Encode(yaml, first, v)[0] == '\'' <==> first == '\''
  {
    hide JsonBody, Doubled;
    var e := Encode(yaml, first, v);
    var t := e + rest;
    if first == '\'' {
      SingleScans(v, rest);
      SingleDecodes(v);
      assert t[1..] == Doubled(v) + "'" + rest;
      assert e[1..|e| - 1] == Doubled(v);
    } else if e == JsonQuoted(v) {
      JsonScans(v, rest);
      JsonDecodes(v);
      assert t[1..] == JsonBody(v) + "\"" + rest;
      assert e[1..|e| - 1] == JsonBody(v);
    } else {
      assert e == v;
      assert forall i :: 0 <= i < |v| ==> t[i] == v[i];
      if rest != "" {
        assert t[|v|] == rest[0];
      }
      PlainLengthIs(t, |v|);
    }
  }

  /** In single quotes the restriction is exact: with a line break the new token cannot be found again. */
  lemma {:induction false} LineBreakIsLost(v: string, rest: string)
    requires exists i :: 0 <= i < |v| && LineBreak(v[i])
    ensures QuotedLength(Doubled(v) + "'" + rest, '\'') == None
  {
    var t, t' := Doubled(v) + "'" + rest, Doubled(v[1..]) + "'" + rest;
    if v[0] == '\'' {
      assert t == "''" + t' && t[2..] == t';
    } else {
      assert t == [v[0]] + t' && t[1..] == t';
    }
    if !LineBreak(v[0]) {
      var i :| 0 <= i < |v| && LineBreak(v[i]);
      assert LineBreak(v[1..][i - 1]);
      LineBreakIsLost(v[1..], rest);
    }
  }

  /** A well-formed token keeps its extent when the text behind it is replaced by
      anything else that stops it. */
  lemma TokenKeepsExtent(yaml: Yaml, token: string, rest: string, rest': string)
    requires TokenLength(token + rest) == Some(|token|)
    requires Decode(yaml, token).Some? && Stops(token[0], rest')
    ensures TokenLength(token + rest') == Some(|token|)
  {
    var t, t' := token + rest, token + rest';
    if Quote(token[0]) {
      var b := token[1..|token| - 1];
      assert token == [token[0]] + b + [token[0]];
      assert t[1..] == b + [token[0]] + rest && t'[1..] == b + [token[0]] + rest';
      if token[0] == '"' {
        DecodableIsClosed(b);
      }
      QuotedExtent(b, token[0], rest, rest');
    } else {
      PlainStops(t);
      assert forall i :: 0 <= i < |token| ==> t'[i] == token[i] == t[i];
      if rest' != "" {
        assert t'[|token|] == rest'[0];
      }
      PlainLengthIs(t', |token|);
    }
  }

  /** A backslash with nothing behind it, reading escapes two characters at a time. */
  predicate Dangling(b: string) {
    if b == "" then false
    else if b[0] == '\\' then |b| == 1 || Dangling(b[2..])
    else Dangling(b[1..])
  }

  lemma {:induction false} DanglingSkips(b: string, n: nat)
    requires n <= |b| && forall i :: 0 <= i < n ==> b[i] != '\\'
    ensures Dangling(b) == Dangling(b[n..])
  {
    if n > 0 {
      DanglingSkips(b[1..], n - 1);
      assert b[1..][n - 1..] == b[n..];
    } else {
      assert b[n..] == b;
    }
  }

  lemma {:induction false} HexDigitsOnly(s: string)
    requires HexValue(s).Some?
    ensures forall i :: 0 <= i < |s| ==> s[i] != '\\'
  {
    if s != "" {
      HexDigitsOnly(s[..|s| - 1]);
    }
  }

  lemma {:induction false} BlanksSkipped(b: string)
    ensures |SkipBlanks(b)| <= |b| && b[|b| - |SkipBlanks(b)|..] == SkipBlanks(b)
    ensures forall i :: 0 <= i < |b| - |SkipBlanks(b)| ==> b[i] != '\\'
  {
    if b != "" && SkipBlanks(b) != b {
      BlanksSkipped(b[1..]);
    }
  }

  /** What decodes has no dangling backslash. */
  lemma {:induction false} DecodableIsClosed(b: string)
    requires DecodeDouble(b).Some?
    ensures !Dangling(b)
    decreases |b|
  {
    if b != "" {
      if b[0] != '\\' {
        DecodableIsClosed(b[1..]);
      } else if LineBreak(b[1]) {
        var rest := b[2..];
        BlanksSkipped(rest);
        DecodableIsClosed(SkipBlanks(rest));
        DanglingSkips(rest, |rest| - |SkipBlanks(rest)|);
      } else {
        var w := HexWidth(b[1]);
        if w > 0 {
          HexDigitsOnly(b[2..2 + w]);
          assert forall i :: 0 <= i < w ==> b[2..][i] == b[2..2 + w][i];
        }
        DecodableIsClosed(b[2 + w..]);
        DanglingSkips(b[2..], w);
        assert b[2..][w..] == b[2 + w..];
      }
    }
  }

  lemma {:induction false} QuotedExtent(b: string, q: char, rest: string, rest': string)
    requires Quote(q) && QuotedLength(b + [q] + rest, q) == Some(|b| + 1) && Stops(q, rest')
    requires if q == '\'' then DecodeSingle(b).Some? else !Dangling(b)
    ensures QuotedLength(b + [q] + rest', q) == Some(|b| + 1)
    decreases |b|
  {
    var t, t' := b + [q] + rest, b + [q] + rest';
    if b == "" {
      assert t' == [q] + rest';
    } else {
      var n := if b[0] == (if q == '"' then '\\' else q) then 2 else 1;
      assert n <= |b|;
      assert t[n..] == b[n..] + [q] + rest && t'[n..] == b[n..] + [q] + rest';
      assert t[0] == t'[0] == b[0] && (n == 2 ==> t[1] == t'[1] == b[1]);
      QuotedExtent(b[n..], q, rest, rest');
    }
  }
}
