/** The upstream URL (pkg/upstream/http/executor.go:360-382): placeholders of a path template
    replaced one after another, in the order of a map, and query entries set. */
module UrlTemplate {
  import opened Json
  import opened GoStrings
  import opened RequestCompiler

  // ---------- Library functions ----------

  type Byte = n: nat | n < 256

  /** A character in UTF-8 (section 3 of RFC 3629). */
  function Utf8Char(c: char): seq<Byte> {
    var n := c as int;
    if n < 0x80 then [n]
    else if n < 0x800 then [0xC0 + n / 0x40, 0x80 + n % 0x40]
    else if n < 0x10000 then [0xE0 + n / 0x1000, 0x80 + n / 0x40 % 0x40, 0x80 + n % 0x40]
    else [0xF0 + n / 0x40000, 0x80 + n / 0x1000 % 0x40, 0x80 + n / 0x40 % 0x40, 0x80 + n % 0x40]
  }

  function Utf8(s: string): seq<Byte> {
    if s == "" then [] else Utf8Char(s[0]) + Utf8(s[1..])
  }

  function UpperHex(n: nat): (c: char)
    requires n < 16
  {
    if n < 10 then '0' + n as char else 'A' + (n - 10) as char
  }

  function HexDigitValue(c: char): (n: int)
    ensures -1 <= n < 16
  {
    if '0' <= c <= '9' then c as int - '0' as int
    else if 'a' <= c <= 'f' then c as int - 'a' as int + 10
    else if 'A' <= c <= 'F' then c as int - 'A' as int + 10
    else -1
  }

  /** Bytes that Go's url.PathEscape keeps. */
  predicate IsKept(b: Byte) {
    var c := b as char;
    'a' <= c <= 'z' || 'A' <= c <= 'Z' || '0' <= c <= '9' || c in "-_.~$&+=:@"
  }

  function EscapeByte(b: Byte): string {
    if IsKept(b) then [b as char] else ['%', UpperHex(b / 16), UpperHex(b % 16)]
  }

  function EscapeBytes(bytes: seq<Byte>): string {
    if bytes == [] then "" else EscapeByte(bytes[0]) + EscapeBytes(bytes[1..])
  }

  function PathEscape(s: string): string {
    EscapeBytes(Utf8(s))
  }

  /** Percent-decoding (section 2.1 of RFC 3986). */
  function PercentDecode(s: string): Option<seq<Byte>> {
    if s == "" then Some([])
    else if s[0] == '%' then
      if |s| < 3 || HexDigitValue(s[1]) < 0 || HexDigitValue(s[2]) < 0 then None
      else PrependByte(16 * HexDigitValue(s[1]) + HexDigitValue(s[2]), PercentDecode(s[3..]))
    else if s[0] as int >= 256 then None
    else PrependByte(s[0] as int, PercentDecode(s[1..]))
  }

  function PrependByte(b: Byte, r: Option<seq<Byte>>): Option<seq<Byte>> {
    match r
    case None => None
    case Some(bytes) => Some([b] + bytes)
  }

  // ---------- Escaping ----------

  /** Characters an escaped value never has: braces, and what ends a path segment or starts
      a query or fragment. */
  predicate IsSafe(c: char) {
    c !in "{}/?#;,"
  }

  predicate AllSafe(s: string) {
    forall i :: 0 <= i < |s| ==> IsSafe(s[i])
  }

  lemma EscapedByte(b: Byte, rest: string)
    ensures AllSafe(EscapeByte(b))
    ensures PercentDecode(EscapeByte(b) + rest) == PrependByte(b, PercentDecode(rest))
  {
    var e := EscapeByte(b);
    var s := e + rest;
    if IsKept(b) {
      assert s[0] == b as char && s[1..] == rest;
    } else {
      assert s[0] == '%' && s[1] == UpperHex(b / 16) && s[2] == UpperHex(b % 16) && s[3..] == rest;
      HexRoundTrip(b / 16);
      HexRoundTrip(b % 16);
    }
  }

  lemma HexRoundTrip(n: nat)
    requires n < 16
    ensures HexDigitValue(UpperHex(n)) == n && IsSafe(UpperHex(n))
  {
  }

  lemma {:induction false} DecodeEscapeBytes(bytes: seq<Byte>)
    ensures AllSafe(EscapeBytes(bytes)) && PercentDecode(EscapeBytes(bytes)) == Some(bytes)
  {
    if bytes != [] {
      EscapedByte(bytes[0], EscapeBytes(bytes[1..]));
      DecodeEscapeBytes(bytes[1..]);
      assert [bytes[0]] + bytes[1..] == bytes;
      hide PercentDecode, EscapeByte, IsSafe;
    }
  }

  /** How many bytes a character takes shows in the first of them. */
  function LengthFrom(lead: Byte): nat {
    if lead < 0x80 then 1 else if lead < 0xE0 then 2 else if lead < 0xF0 then 3 else 4
  }

  lemma Utf8Length(c: char)
    ensures |Utf8Char(c)| == LengthFrom(Utf8Char(c)[0])
  {
  }

  /** The code point encoded by the bytes of one character. */
  function CodePoint(bytes: seq<int>): int {
    if |bytes| == 1 then bytes[0]
    else if |bytes| == 2 then (bytes[0] - 0xC0) * 0x40 + (bytes[1] - 0x80)
    else if |bytes| == 3 then (bytes[0] - 0xE0) * 0x1000 + (bytes[1] - 0x80) * 0x40 + (bytes[2] - 0x80)
    else if |bytes| == 4 then
      (bytes[0] - 0xF0) * 0x40000 + (bytes[1] - 0x80) * 0x1000 + (bytes[2] - 0x80) * 0x40 + (bytes[3] - 0x80)
    else -1
  }

  lemma CodePointOfChar(c: char)
    ensures CodePoint(Utf8Char(c)) == c as int
  {
    SplitCode(c as int);
  }

  lemma SplitCode(n: nat)
    ensures n == n / 0x40 * 0x40 + n % 0x40
    ensures n == n / 0x1000 * 0x1000 + n / 0x40 % 0x40 * 0x40 + n % 0x40
    ensures n == n / 0x40000 * 0x40000 + n / 0x1000 % 0x40 * 0x1000 + n / 0x40 % 0x40 * 0x40 + n % 0x40
  {
    var a := n / 0x40;
    var b := a / 0x40;
    assert b == n / 0x1000;
    assert b / 0x40 == n / 0x40000;
    assert n == a * 0x40 + n % 0x40;
    assert a == b * 0x40 + a % 0x40;
    assert b == b / 0x40 * 0x40 + b % 0x40;
  }

  /** The first character of a text can be read off its UTF-8 bytes. */
  lemma Utf8Prefix(c: char, r: seq<Byte>, d: char, q: seq<Byte>)
    requires Utf8Char(c) + r == Utf8Char(d) + q
    ensures c == d && r == q
  {
    var a, b := Utf8Char(c), Utf8Char(d);
    Utf8Length(c);
    Utf8Length(d);
    assert |a| > 0 && |b| > 0;
    hide Utf8Char, LengthFrom, CodePoint;
    assert (a + r)[0] == a[0] && (b + q)[0] == b[0];
    assert a == (a + r)[..|a|] && b == (b + q)[..|b|];
    CodePointOfChar(c);
    CodePointOfChar(d);
    assert c as int == d as int;
    assert (a + r)[|a|..] == r && (b + q)[|b|..] == q;
  }

  lemma {:induction false} Utf8Injective(s: string, t: string)
    requires Utf8(s) == Utf8(t)
    ensures s == t
  {
    if s != "" && t != "" {
      Utf8Prefix(s[0], Utf8(s[1..]), t[0], Utf8(t[1..]));
      Utf8Injective(s[1..], t[1..]);
      assert s == [s[0]] + s[1..] && t == [t[0]] + t[1..];
    }
  }

  /** Percent-decoding an inserted segment gives back the value's bytes; different values give
      different segments; and a segment cannot end itself, open a query, or hold a brace. */
  lemma SegmentFaithful(v: string, w: string)
    ensures PercentDecode(PathEscape(v)) == Some(Utf8(v)) && AllSafe(PathEscape(v))
    ensures PathEscape(v) == PathEscape(w) ==> v == w
  {
    DecodeEscapeBytes(Utf8(v));
    DecodeEscapeBytes(Utf8(w));
    if PathEscape(v) == PathEscape(w) {
      Utf8Injective(v, w);
    }
  }

  // ---------- Templates ----------

  /** A template is read as placeholders `{name}` with no brace in the name, and single
      characters, some of which may be stray braces. */
  datatype Piece = Char(c: char) | Hole(name: string)

  predicate BraceFree(s: string) {
    forall i :: 0 <= i < |s| ==> s[i] != '{' && s[i] != '}'
  }

  function BraceFreeRun(s: string): (n: nat)
    ensures n <= |s| && BraceFree(s[..n]) && (n < |s| ==> s[n] == '{' || s[n] == '}')
  {
    if s == "" || s[0] == '{' || s[0] == '}' then 0
    else
      var n := 1 + BraceFreeRun(s[1..]);
      assert s[..n] == [s[0]] + s[1..][..n - 1];
      n
  }

  /** Where the text begins with a placeholder, its name. */
  function LeadingName(t: string): (r: Option<string>)
    ensures r.Some? ==> |r.value| + 2 <= |t|
  {
    if t != "" && t[0] == '{' && BraceFreeRun(t[1..]) + 1 < |t| && t[BraceFreeRun(t[1..]) + 1] == '}' then
      Some(t[1..BraceFreeRun(t[1..]) + 1])
    else None
  }

  function Parse(t: string): seq<Piece>
    decreases |t|
  {
    if t == "" then []
    else
      match LeadingName(t)
      case Some(name) => [Hole(name)] + Parse(t[|name| + 2..])
      case None => [Char(t[0])] + Parse(t[1..])
  }

  function Placeholder(name: string): (r: string)
    ensures |r| == |name| + 2
  {
    "{" + name + "}"
  }

  function PieceText(p: Piece, values: map<string, string>): string {
    match p
    case Char(c) => [c]
    case Hole(name) => if name in values then PathEscape(values[name]) else Placeholder(name)
  }

  /** All placeholders replaced at once, those without a value left as they are. */
  function Render(pieces: seq<Piece>, values: map<string, string>): string {
    if pieces == [] then "" else PieceText(pieces[0], values) + Render(pieces[1..], values)
  }

  /** No stray opening brace has a stray closing brace after it: filling a placeholder never
      makes a new one. */
  predicate Flat(pieces: seq<Piece>) {
    forall i, j :: 0 <= i < j < |pieces| ==> !(pieces[i] == Char('{') && pieces[j] == Char('}'))
  }

  predicate NamesBraceFree(pieces: seq<Piece>) {
    forall i :: 0 <= i < |pieces| && pieces[i].Hole? ==> BraceFree(pieces[i].name)
  }

  lemma LeadingNameFacts(t: string)
    requires LeadingName(t).Some?
    ensures var name := LeadingName(t).value;
            BraceFree(name) && |name| + 2 <= |t| && t == Placeholder(name) + t[|name| + 2..]
  {
    var n := BraceFreeRun(t[1..]);
    assert t[1..][..n] == t[1..n + 1];
  }

  lemma {:induction false} ParseFacts(t: string)
    ensures Render(Parse(t), map[]) == t && NamesBraceFree(Parse(t))
    decreases |t|
  {
    if t != "" {
      if LeadingName(t).Some? {
        var name := LeadingName(t).value;
        LeadingNameFacts(t);
        ParseFacts(t[|name| + 2..]);
        ConsFacts(Hole(name), Parse(t[|name| + 2..]));
      } else {
        ParseFacts(t[1..]);
        ConsFacts(Char(t[0]), Parse(t[1..]));
        assert [t[0]] + t[1..] == t;
      }
    }
  }

  lemma ConsFacts(p: Piece, rest: seq<Piece>)
    requires NamesBraceFree(rest) && (p.Hole? ==> BraceFree(p.name))
    ensures NamesBraceFree([p] + rest) && Render([p] + rest, map[]) == PieceText(p, map[]) + Render(rest, map[])
  {
    assert ([p] + rest)[1..] == rest;
  }

  /** Text without an opening brace is passed over. */
  lemma {:induction false} PassOver(text: string, rest: string, name: string, with: string)
    requires forall i :: 0 <= i < |text| ==> text[i] != '{'
    ensures ReplaceAll(text + rest, Placeholder(name), with) == text + ReplaceAll(rest, Placeholder(name), with)
  {
    if text == "" {
      assert text + rest == rest;
      assert text + ReplaceAll(rest, Placeholder(name), with) == ReplaceAll(rest, Placeholder(name), with);
    } else {
      var s, tail := text + rest, text[1..] + rest;
      assert s[0] == text[0] && s[1..] == tail;
      assert Placeholder(name)[0] == '{';
      assert ReplaceAll(s, Placeholder(name), with) == [text[0]] + ReplaceAll(tail, Placeholder(name), with);
      hide *;
      PassOver(text[1..], rest, name, with);
      assert text == [text[0]] + text[1..];
    }
  }

  lemma SamePlaceholder(m: string, n: string, rest: string)
    requires BraceFree(m) && BraceFree(n) && n + "}" <= m + ("}" + rest)
    ensures m == n
  {
    var s := m + ("}" + rest);
    var k := n + "}";
    assert forall i :: 0 <= i < |k| ==> s[i] == k[i];
    assert k[|n|] == '}' && s[|m|] == '}';
    assert forall i :: 0 <= i < |m| ==> s[i] == m[i];
    assert forall i :: 0 <= i < |n| ==> k[i] == n[i];
    assert |m| == |n|;
  }

  /** A name that runs on through text without closing braces goes on in what follows. */
  lemma RunsOn(name: string, text: string, rest: string)
    requires name + "}" <= text + rest && forall i :: 0 <= i < |text| ==> text[i] != '}'
    ensures |text| <= |name| && name[|text|..] + "}" <= rest
  {
    var k, s := name + "}", text + rest;
    assert forall i :: 0 <= i < |k| ==> k[i] == s[i];
    assert k[|name|] == '}';
    assert forall i :: 0 <= i < |text| ==> s[i] == text[i];
    var tail := name[|text|..] + "}";
    assert tail == k[|text|..];
    assert forall i :: 0 <= i < |tail| ==> tail[i] == k[|text| + i] && rest[i] == s[|text| + i];
  }

  /** Where no stray closing brace follows, no name closed by a brace can be read. */
  lemma {:induction false} NothingCloses(pieces: seq<Piece>, values: map<string, string>, name: string)
    requires BraceFree(name) && Char('}') !in pieces
    ensures !(name + "}" <= Render(pieces, values))
  {
    if pieces != [] && name + "}" <= Render(pieces, values) {
      var text, rest := PieceText(pieces[0], values), Render(pieces[1..], values);
      if pieces[0].Hole? && pieces[0].name !in values {
        NotAtBrace(name, text + rest);
        assert false;
      } else {
        NoClosing(pieces[0], values);
        hide PieceText;
        RunsOn(name, text, rest);
        NothingCloses(pieces[1..], values, name[|text|..]);
        assert false;
      }
    }
  }

  lemma NotAtBrace(name: string, s: string)
    requires BraceFree(name) && s != "" && s[0] == '{'
    ensures !(name + "}" <= s)
  {
    assert (name + "}")[0] == if name == "" then '}' else name[0];
  }

  lemma NoClosing(p: Piece, values: map<string, string>)
    requires p != Char('}') && (p.Hole? ==> p.name in values)
    ensures forall i :: 0 <= i < |PieceText(p, values)| ==> PieceText(p, values)[i] != '}'
  {
    if p.Hole? {
      SegmentFaithful(values[p.name], "");
      hide PathEscape;
    }
  }

  /** Replacing one placeholder throughout fills exactly the holes of that name. */
  lemma {:induction false} ReplaceFills(pieces: seq<Piece>, values: map<string, string>, name: string, value: string)
    requires Flat(pieces) && NamesBraceFree(pieces) && BraceFree(name) && name !in values
    ensures ReplaceAll(Render(pieces, values), Placeholder(name), PathEscape(value)) ==
            Render(pieces, values[name := value])
  {
    if pieces != [] {
      var rest := Render(pieces[1..], values);
      ReplaceFills(pieces[1..], values, name, value);
      if pieces[0] == Char('{') {
        assert Char('}') !in pieces[1..];
        NothingCloses(pieces[1..], values, name);
      }
      FillFirst(pieces[0], values, name, value, rest);
    }
  }

  lemma FillFirst(p: Piece, values: map<string, string>, name: string, value: string, rest: string)
    requires BraceFree(name) && name !in values && (p.Hole? ==> BraceFree(p.name))
    requires p == Char('{') ==> !(name + "}" <= rest)
    ensures ReplaceAll(PieceText(p, values) + rest, Placeholder(name), PathEscape(value)) ==
            PieceText(p, values[name := value]) + ReplaceAll(rest, Placeholder(name), PathEscape(value))
  {
    var with := PathEscape(value);
    match p {
      case Char(c) =>
        if c == '{' {
          NoMatch(name, rest);
          SkipOne(rest, name, with);
        } else {
          PassOver([c], rest, name, with);
        }
      case Hole(m) =>
        if m in values {
          SegmentFaithful(values[m], "");
          PassOver(PathEscape(values[m]), rest, name, with);
        } else if m == name {
          Match(name, rest, with);
        } else {
          OtherHole(m, rest, name, with);
        }
    }
  }

  lemma NoMatch(name: string, rest: string)
    requires !(name + "}" <= rest)
    ensures !(Placeholder(name) <= "{" + rest)
  {
    var s, k := "{" + rest, Placeholder(name);
    assert k == "{" + (name + "}");
    assert forall i :: 0 <= i < |name + "}"| ==> (name + "}")[i] == k[i + 1];
    assert forall i :: 0 <= i < |rest| ==> rest[i] == s[i + 1];
  }

  lemma SkipOne(rest: string, name: string, with: string)
    requires !(Placeholder(name) <= "{" + rest)
    ensures ReplaceAll("{" + rest, Placeholder(name), with) == "{" + ReplaceAll(rest, Placeholder(name), with)
  {
    assert ("{" + rest)[1..] == rest;
  }

  lemma Match(name: string, rest: string, with: string)
    ensures ReplaceAll(Placeholder(name) + rest, Placeholder(name), with) ==
            with + ReplaceAll(rest, Placeholder(name), with)
  {
    assert (Placeholder(name) + rest)[|Placeholder(name)|..] == rest;
  }

  lemma OtherHole(m: string, rest: string, name: string, with: string)
    requires BraceFree(m) && BraceFree(name) && m != name
    ensures ReplaceAll(Placeholder(m) + rest, Placeholder(name), with) ==
            Placeholder(m) + ReplaceAll(rest, Placeholder(name), with)
  {
    var tail := m + ("}" + rest);
    assert Placeholder(m) + rest == "{" + tail;
    if name + "}" <= tail {
      SamePlaceholder(m, name, rest);
    }
    NoMatch(name, tail);
    SkipOne(tail, name, with);
    PassOver(m + "}", rest, name, with);
    assert tail == m + "}" + rest;
    hide ReplaceAll;
    assert Placeholder(m) + ReplaceAll(rest, Placeholder(name), with) ==
           "{" + (m + "}" + ReplaceAll(rest, Placeholder(name), with));
  }

  // ---------- Building the URL ----------

  /** What the URL library does: split off and decode the query, and encode one. */
  datatype UrlLibrary = UrlLibrary(parse: string -> Option<Url>, query: string -> map<string, seq<string>>,
                                   encode: map<string, seq<string>> -> string)

  datatype Url = Url(base: string, rawQuery: string)

  /** The query entries that are not empty replace the ones of the same name. */
  function Overlay(query: map<string, seq<string>>, entries: map<string, string>): map<string, seq<string>> {
    query + (map k | k in entries && entries[k] != "" :: [entries[k]])
  }

  function UrlOf(lib: UrlLibrary, base: string, path: string, query: map<string, string>): Option<Url> {
    match lib.parse(base + path)
    case None => None
    case Some(u) => Some(if query == map[] then u
                         else u.(rawQuery := lib.encode(Overlay(lib.query(u.rawQuery), query))))
  }

  /** The path values substituted one after another, in a given order. */
  function InOrder(path: string, values: map<string, string>, order: seq<string>): string
    requires forall name :: name in order ==> name in values
  {
    if order == [] then path
    else
      var last := order[|order| - 1];
      ReplaceAll(InOrder(path, values, order[..|order| - 1]), Placeholder(last), PathEscape(values[last]))
  }

  /** An order of the keys of a map. */
  ghost predicate IsOrder(order: seq<string>, keys: set<string>) {
    && (forall name :: name in order <==> name in keys)
    && (forall i, j :: 0 <= i < j < |order| ==> order[i] != order[j])
  }

  /** In whatever order the values are substituted, a flat template is filled as if all
      placeholders were replaced at once. */
  lemma {:induction false} OrderFree(template: string, values: map<string, string>, order: seq<string>)
    requires Flat(Parse(template)) && forall name :: name in order ==> name in values && BraceFree(name)
    requires forall i, j :: 0 <= i < j < |order| ==> order[i] != order[j]
    ensures InOrder(template, values, order) == Render(Parse(template), Restrict(values, order))
  {
    ParseFacts(template);
    if order == [] {
      assert Restrict(values, order) == map[];
    } else {
      var init, last := order[..|order| - 1], order[|order| - 1];
      hide Flat, NamesBraceFree, BraceFree, Parse, Render, ReplaceAll, Placeholder, PathEscape;
      RestrictLast(values, order);
      OrderFree(template, values, init);
      hide Restrict;
      ReplaceFills(Parse(template), Restrict(values, init), last, values[last]);
    }
  }

  function Restrict(values: map<string, string>, names: seq<string>): map<string, string> {
    map name | name in values && name in names :: values[name]
  }

  lemma RestrictLast(values: map<string, string>, order: seq<string>)
    requires order != [] && forall name :: name in order ==> name in values
    requires forall i, j :: 0 <= i < j < |order| ==> order[i] != order[j]
    ensures var init, last := order[..|order| - 1], order[|order| - 1];
            && Restrict(values, order) ==
               Restrict(values, init)[last := values[last]] && last !in Restrict(values, init)
            && forall name :: name in init ==> name in order
  {
    var init, last := order[..|order| - 1], order[|order| - 1];
    assert order == init + [last];
    assert last in order && last in values;
  }

  method FillPath(template: string, values: map<string, string>) returns (path: string)
    ensures exists order :: IsOrder(order, values.Keys) && path == InOrder(template, values, order)
    ensures Flat(Parse(template)) && (forall name :: name in values ==> BraceFree(name)) ==>
              path == Render(Parse(template), values)
  {
    path := template;
    var remaining := values.Keys;
    ghost var order: seq<string> := [];
    while remaining != {}
      invariant remaining <= values.Keys
      invariant IsOrder(order, values.Keys - remaining) && path == InOrder(template, values, order)
      decreases |remaining|
    {
      var name :| name in remaining;
      path := ReplaceAll(path, Placeholder(name), PathEscape(values[name]));
      assert (order + [name])[..|order|] == order;
      order := order + [name];
      remaining := remaining - {name};
    }
    if Flat(Parse(template)) && forall name :: name in values ==> BraceFree(name) {
      OrderFree(template, values, order);
      assert Restrict(values, order) == values;
    }
  }

  method SetQuery(query: map<string, seq<string>>, entries: map<string, string>) returns (q: map<string, seq<string>>)
    ensures q == Overlay(query, entries)
  {
    hide Overlay;
    q := query;
    var remaining := entries.Keys;
    OverlayEnds(query, entries);
    while remaining != {}
      invariant remaining <= entries.Keys
      invariant q == Overlay(query, entries - remaining)
      decreases |remaining|
    {
      var k :| k in remaining;
      OverlayStep(query, entries, remaining, k);
      if entries[k] != "" {
        q := q[k := [entries[k]]];
      }
      remaining := remaining - {k};
    }
  }

  lemma OverlayEnds(query: map<string, seq<string>>, entries: map<string, string>)
    ensures Overlay(query, entries - entries.Keys) == query && entries - {} == entries
  {
    assert entries - entries.Keys == map[];
  }

  lemma OverlayStep(query: map<string, seq<string>>, entries: map<string, string>, remaining: set<string>, k: string)
    requires k in remaining && k in entries
    ensures Overlay(query, entries - (remaining - {k})) ==
            var q := Overlay(query, entries - remaining);
            if entries[k] != "" then q[k := [entries[k]]] else q
  {
    assert entries - (remaining - {k}) == (entries - remaining)[k := entries[k]];
  }

  method BuildUpstreamURL(lib: UrlLibrary, base: string, template: string, env: Envelope) returns (r: Option<Url>)
    ensures Flat(Parse(template)) && (forall name :: name in env.path ==> BraceFree(name)) ==>
              r == UrlOf(lib, base, Render(Parse(template), env.path), env.query)
    ensures exists order ::
              IsOrder(order, env.path.Keys) && r == UrlOf(lib, base, InOrder(template, env.path, order), env.query)
  {
    var path := FillPath(template, env.path);
    hide Flat, Parse, Render, BraceFree, InOrder, IsOrder, Overlay;
    var parsed := lib.parse(base + path);
    if parsed.None? {
      r := None;
    } else {
      var u := parsed.value;
      if |env.query| > 0 {
        var q := SetQuery(lib.query(u.rawQuery), env.query);
        u := u.(rawQuery := lib.encode(q));
      }
      r := Some(u);
    }
    assert r == UrlOf(lib, base, path, env.query);
  }

  predicate IsPlainPiece(p: Piece) {
    match p
    case Char(c) => c != '{' && c != '}'
    case Hole(name) => BraceFree(name)
  }

  /** Pieces without stray braces. */
  predicate IsPlain(pieces: seq<Piece>) {
    forall i :: 0 <= i < |pieces| ==> IsPlainPiece(pieces[i])
  }

  lemma PieceIsBraceFree(p: Piece, values: map<string, string>)
    requires IsPlainPiece(p)
    ensures BraceFree(PieceText(p, values)) <==> (p.Hole? ==> p.name in values)
  {
    if p.Hole? && p.name in values {
      SegmentFaithful(values[p.name], "");
      hide PathEscape;
    } else if p.Hole? {
      assert PieceText(p, values)[0] == '{';
    }
  }

  /** A plain text has no brace exactly when all its holes are filled. */
  lemma {:induction false} FilledIsBraceFree(pieces: seq<Piece>, values: map<string, string>)
    requires IsPlain(pieces)
    ensures BraceFree(Render(pieces, values)) <==> forall p :: p in pieces && p.Hole? ==> p.name in values
  {
    if pieces != [] {
      var text, rest := PieceText(pieces[0], values), Render(pieces[1..], values);
      assert Render(pieces, values) == text + rest;
      assert pieces == [pieces[0]] + pieces[1..] && IsPlainPiece(pieces[0]);
      hide PieceText, Render, BraceFree, IsPlainPiece;
      FilledIsBraceFree(pieces[1..], values);
      PieceIsBraceFree(pieces[0], values);
      BraceFreeParts(text, rest);
    }
  }

  lemma BraceFreeParts(a: string, b: string)
    ensures BraceFree(a + b) <==> BraceFree(a) && BraceFree(b)
  {
    if BraceFree(a + b) {
      forall i | 0 <= i < |b| ensures b[i] != '{' && b[i] != '}' {
        assert (a + b)[|a| + i] == b[i];
      }
      forall i | 0 <= i < |a| ensures a[i] != '{' && a[i] != '}' {
        assert (a + b)[i] == a[i];
      }
    }
  }
}
