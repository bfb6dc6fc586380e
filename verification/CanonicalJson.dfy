/** The canonical JSON printer of the cache-key computation (pkg/cache/cache.go), a
    parser that undoes it, and a bracket scanner for its output. */
module CanonicalJson {
  import opened Json

  // ---------- Strings ----------

  function HexDigit(n: nat): (c: char)
    requires n < 16
  {
    if n < 10 then '0' + n as char else 'a' + (n - 10) as char
  }

  function HexValue(c: char): (n: int)
    ensures -1 <= n < 16
  {
    if '0' <= c <= '9' then c as int - '0' as int
    else if 'a' <= c <= 'f' then c as int - 'a' as int + 10
    else -1
  }

  /** The JSON text of one character, with the HTML-safe escapes `json.Marshal` uses. */
  function Escape(c: char): string {
    if c == '"' then "\\\""
    else if c == '\\' then "\\\\"
    else if c as int == 8 then "\\b"
    else if c as int == 12 then "\\f"
    else if c == '\n' then "\\n"
    else if c == '\r' then "\\r"
    else if c == '\t' then "\\t"
    else if c as int < 32 || c == '<' || c == '>' || c == '&' || c as int == 0x2028 || c as int == 0x2029 then
      var n := c as int;
      "\\u" + [HexDigit(n / 4096), HexDigit(n / 256 % 16), HexDigit(n / 16 % 16), HexDigit(n % 16)]
    else [c]
  }

  function EscapeAll(s: string): string {
    if s == "" then "" else Escape(s[0]) + EscapeAll(s[1..])
  }

  function Quote(s: string): string {
    "\"" + EscapeAll(s) + "\""
  }

  // ---------- Key order ----------

  predicate Less(a: string, b: string) {
    b != "" && (a == "" || a[0] < b[0] || (a[0] == b[0] && Less(a[1..], b[1..])))
  }

  lemma LessTotal(a: string, b: string)
    ensures !(Less(a, b) && Less(b, a))
    ensures a == b || Less(a, b) || Less(b, a)
    ensures !Less(a, a)
  {
    if a != "" && b != "" && a[0] == b[0] {
      LessTotal(a[1..], b[1..]);
      assert a == [a[0]] + a[1..] && b == [b[0]] + b[1..];
    }
    if a != "" {
      LessTotal(a[1..], a[1..]);
    }
  }

  lemma LessTransitive(a: string, b: string, c: string)
    requires Less(a, b) && Less(b, c)
    ensures Less(a, c)
  {
    if a != "" && a[0] == b[0] && b[0] == c[0] {
      LessTransitive(a[1..], b[1..], c[1..]);
    }
  }

  ghost predicate StrictlySorted(keys: seq<string>) {
    forall i, j :: 0 <= i < j < |keys| ==> Less(keys[i], keys[j])
  }

  function Elements<T>(s: seq<T>): set<T> {
    set x | x in s
  }

  lemma LeastKey(ks: set<string>) returns (k: string)
    requires ks != {}
    ensures k in ks && forall x :: x in ks && x != k ==> Less(k, x)
  {
    var x :| x in ks;
    if ks == {x} {
      k := x;
    } else {
      var m := LeastKey(ks - {x});
      LessTotal(x, m);
      k := if Less(x, m) then x else m;
      forall y | y in ks && y != k ensures Less(k, y) {
        if k == x && y != m {
          LessTransitive(x, m, y);
        }
      }
    }
  }

  /** The keys of an object in the order `sort.Strings` puts them. */
  ghost function SortedKeys(ks: set<string>): (keys: seq<string>)
    ensures StrictlySorted(keys) && Elements(keys) == ks
  {
    if ks == {} then []
    else
      LeastKeyExists(ks);
      var k :| k in ks && forall x :: x in ks && x != k ==> Less(k, x);
      var rest := SortedKeys(ks - {k});
      assert forall x :: x in rest ==> x in Elements(rest);
      assert ks == {k} + (ks - {k});
      [k] + rest
  }

  lemma LeastKeyExists(ks: set<string>)
    requires ks != {}
    ensures exists k :: k in ks && forall x :: x in ks && x != k ==> Less(k, x)
  {
    var k := LeastKey(ks);
  }

  lemma FirstElement<T>(s: seq<T>)
    ensures s != [] ==> s[0] in Elements(s)
  {
  }

  lemma {:induction false} SortedUnique(a: seq<string>, b: seq<string>)
    requires StrictlySorted(a) && StrictlySorted(b) && Elements(a) == Elements(b)
    ensures a == b
  {
    if a == [] {
      FirstElement(b);
    } else if b == [] {
      FirstElement(a);
    } else {
      assert a[0] in Elements(b) && b[0] in Elements(a);
      LessTotal(a[0], b[0]);
      assert a[0] == b[0];
      forall x ensures x in Elements(a[1..]) <==> x in Elements(b[1..]) {
        LessTotal(a[0], a[0]);
        if x in a[1..] { assert x in Elements(b); assert x != a[0]; }
        if x in b[1..] { assert x in Elements(a); assert x != b[0]; }
      }
      SortedUnique(a[1..], b[1..]);
      assert a == [a[0]] + a[1..] && b == [b[0]] + b[1..];
    }
  }

  function Insert(k: string, keys: seq<string>): seq<string> {
    if keys == [] || Less(k, keys[0]) then [k] + keys else [keys[0]] + Insert(k, keys[1..])
  }

  lemma {:induction false} InsertSorts(k: string, keys: seq<string>)
    requires StrictlySorted(keys) && k !in keys
    ensures StrictlySorted(Insert(k, keys))
    ensures forall x :: x in Insert(k, keys) <==> x == k || x in keys
  {
    if keys == [] {
    } else if Less(k, keys[0]) {
      forall j | 1 <= j < |keys| ensures Less(k, keys[j]) {
        LessTransitive(k, keys[0], keys[j]);
      }
    } else {
      LessTotal(k, keys[0]);
      InsertSorts(k, keys[1..]);
      var rest := Insert(k, keys[1..]);
      forall j | 0 <= j < |rest| ensures Less(keys[0], rest[j]) {
        assert rest[j] in rest;
        assert rest[j] == k || rest[j] in keys[1..];
      }
    }
  }

  // ---------- Printing ----------

  /** The canonical text of a value. */
  ghost function Print(v: Value): string
    decreases v
  {
    match v
    case Null => "null"
    case Bool(b) => if b then "true" else "false"
    case Number(text) => text
    case Str(s) => Quote(s)
    case Array(items) => "[" + ItemsFrom(v, 0) + "]"
    case Object(fields) => "{" + FieldsFrom(v, SortedKeys(fields.Keys), 0) + "}"
  }

  function Sep(i: nat): string {
    if i > 0 then "," else ""
  }

  ghost function ItemsFrom(v: Value, i: nat): string
    requires v.Array? && i <= |v.items|
    decreases v, |v.items| - i
  {
    if i == |v.items| then ""
    else Sep(i) + Print(v.items[i]) + ItemsFrom(v, i + 1)
  }

  ghost function FieldsFrom(v: Value, keys: seq<string>, i: nat): string
    requires v.Object? && i <= |keys| && forall k :: k in keys ==> k in v.fields
    decreases v, |keys| - i
  {
    if i == |keys| then ""
    else Sep(i) + Quote(keys[i]) + ":" + Print(v.fields[keys[i]]) + FieldsFrom(v, keys, i + 1)
  }

  /** Collects and sorts the keys in whatever order the map yields them. */
  method CollectSortedKeys(fields: map<string, Value>) returns (keys: seq<string>)
    ensures keys == SortedKeys(fields.Keys)
  {
    keys := [];
    var remaining := fields.Keys;
    while remaining != {}
      invariant remaining <= fields.Keys
      invariant StrictlySorted(keys) && Elements(keys) == fields.Keys - remaining
      decreases |remaining|
    {
      var k :| k in remaining;
      assert k !in Elements(keys);
      InsertSorts(k, keys);
      ghost var before := keys;
      keys := Insert(k, keys);
      remaining := remaining - {k};
      assert forall x :: x in Elements(keys) <==> x == k || x in Elements(before);
    }
    SortedUnique(keys, SortedKeys(fields.Keys));
  }

  /** The printer as it runs: a buffer filled in loops. The result is the canonical text
      whatever order the maps of the value were walked in. */
  method MarshalSorted(v: Value) returns (buf: string)
    ensures buf == Print(v)
    decreases v
  {
    match v {
      case Object(fields) => buf := MarshalObject(v);
      case Array(items) => buf := MarshalArray(v);
      case Null => buf := "null";
      case Bool(b) => buf := if b then "true" else "false";
      case Number(text) => buf := text;
      case Str(s) => buf := Quote(s);
    }
  }

  method MarshalObject(v: Value) returns (buf: string)
    requires v.Object?
    ensures buf == Print(v)
    decreases v, 0
  {
    var keys := CollectSortedKeys(v.fields);
    assert forall k :: k in keys ==> k in Elements(keys);
    var body := "";
    for i := 0 to |keys|
      invariant body + FieldsFrom(v, keys, i) == FieldsFrom(v, keys, 0)
    {
      ghost var before := body;
      if i > 0 {
        body := body + ",";
      }
      var vb := MarshalSorted(v.fields[keys[i]]);
      body := body + Quote(keys[i]) + ":" + vb;
      FieldStep(before, v, keys, i);
    }
    buf := "{" + body + "}";
  }

  lemma FieldStep(before: string, v: Value, keys: seq<string>, i: nat)
    requires v.Object? && i < |keys| && forall k :: k in keys ==> k in v.fields
    ensures before + FieldsFrom(v, keys, i) ==
            (before + Sep(i)) + Quote(keys[i]) + ":" + Print(v.fields[keys[i]]) + FieldsFrom(v, keys, i + 1)
    ensures before + "" == before
  {
    var q, p, t := Quote(keys[i]), Print(v.fields[keys[i]]), FieldsFrom(v, keys, i + 1);
    assert FieldsFrom(v, keys, i) == Sep(i) + q + ":" + p + t;
    hide *;
    Regroup(before, Sep(i), q, ":", p, t);
  }

  lemma Regroup(x: string, a: string, b: string, c: string, d: string, e: string)
    ensures x + (a + b + c + d + e) == x + a + b + c + d + e
  {
  }

  method MarshalArray(v: Value) returns (buf: string)
    requires v.Array?
    ensures buf == Print(v)
    decreases v, 0
  {
    var body := "";
    for i := 0 to |v.items|
      invariant body + ItemsFrom(v, i) == ItemsFrom(v, 0)
    {
      ghost var before := body;
      if i > 0 {
        body := body + ",";
      }
      var ib := MarshalSorted(v.items[i]);
      body := body + ib;
      ItemStep(before, v, i);
    }
    buf := "[" + body + "]";
  }

  lemma ItemStep(before: string, v: Value, i: nat)
    requires v.Array? && i < |v.items|
    ensures before + ItemsFrom(v, i) == (before + Sep(i)) + Print(v.items[i]) + ItemsFrom(v, i + 1)
    ensures before + "" == before
  {
  }

  // ---------- Parsing ----------

  /** Decodes the escape that follows a backslash. */
  function Unescape(s: string): (r: Option<(char, string)>)
    ensures r.Some? ==> |r.value.1| < |s|
  {
    if s == "" then None
    else if s[0] == '"' || s[0] == '\\' then Some((s[0], s[1..]))
    else if s[0] == 'b' then Some((8 as char, s[1..]))
    else if s[0] == 'f' then Some((12 as char, s[1..]))
    else if s[0] == 'n' then Some(('\n', s[1..]))
    else if s[0] == 'r' then Some(('\r', s[1..]))
    else if s[0] == 't' then Some(('\t', s[1..]))
    else if s[0] == 'u' && |s| >= 5 then
      var a, b, c, d := HexValue(s[1]), HexValue(s[2]), HexValue(s[3]), HexValue(s[4]);
      if a < 0 || b < 0 || c < 0 || d < 0 then None
      else
        var n := ((a * 16 + b) * 16 + c) * 16 + d;
        if 0xD800 <= n < 0xE000 then None else Some((n as char, s[5..]))
    else None
  }

  /** Reads a string body up to its closing quote. */
  function ParseChars(s: string): (r: Option<(string, string)>)
    ensures r.Some? ==> |r.value.1| < |s|
    decreases |s|
  {
    if s == "" then None
    else if s[0] == '"' then Some(("", s[1..]))
    else if s[0] == '\\' then
      match Unescape(s[1..])
      case None => None
      case Some((c, rest)) => Prepend(c, ParseChars(rest))
    else Prepend(s[0], ParseChars(s[1..]))
  }

  function Prepend(c: char, r: Option<(string, string)>): Option<(string, string)> {
    match r
    case None => None
    case Some((text, rest)) => Some(([c] + text, rest))
  }

  function NumberRun(s: string): (n: nat)
    ensures n <= |s| && forall i :: 0 <= i < n ==> IsNumberChar(s[i])
    ensures n < |s| ==> !IsNumberChar(s[n])
  {
    if s == "" || !IsNumberChar(s[0]) then 0 else 1 + NumberRun(s[1..])
  }

  function ParseValue(s: string): (r: Option<(Value, string)>)
    ensures r.Some? ==> |r.value.1| < |s|
    decreases |s|, 0
  {
    if s == "" then None
    else if "null" <= s then Some((Null, s[4..]))
    else if "true" <= s then Some((Bool(true), s[4..]))
    else if "false" <= s then Some((Bool(false), s[5..]))
    else if s[0] == '"' then
      (match ParseChars(s[1..])
       case None => None
       case Some((text, rest)) => Some((Str(text), rest)))
    else if s[0] == '[' then
      (match ParseItems(s[1..], true)
       case None => None
       case Some((items, rest)) => Some((Array(items), rest)))
    else if s[0] == '{' then
      (match ParseFields(s[1..], true)
       case None => None
       case Some((fields, rest)) => Some((Object(fields), rest)))
    else if s[0] == '-' || '0' <= s[0] <= '9' then
      var n := NumberRun(s);
      Some((Number(s[..n]), s[n..]))
    else None
  }

  function ParseItems(s: string, first: bool): (r: Option<(seq<Value>, string)>)
    ensures r.Some? ==> |r.value.1| < |s|
    decreases |s|, 1
  {
    if s == "" then None
    else if s[0] == ']' then Some(([], s[1..]))
    else if !first && s[0] != ',' then None
    else
      match ParseValue(if first then s else s[1..])
      case None => None
      case Some((v, rest)) =>
        match ParseItems(rest, false)
        case None => None
        case Some((items, rest')) => Some(([v] + items, rest'))
  }

  function ParseFields(s: string, first: bool): (r: Option<(map<string, Value>, string)>)
    ensures r.Some? ==> |r.value.1| < |s|
    decreases |s|, 1
  {
    if s == "" then None
    else if s[0] == '}' then Some((map[], s[1..]))
    else if !first && s[0] != ',' then None
    else
      var t := if first then s else s[1..];
      if t == "" || t[0] != '"' then None
      else
        match ParseChars(t[1..])
        case None => None
        case Some((key, afterKey)) =>
          if afterKey == "" || afterKey[0] != ':' then None
          else
            match ParseValue(afterKey[1..])
            case None => None
            case Some((v, rest)) =>
              match ParseFields(rest, false)
              case None => None
              case Some((fields, rest')) => Some((map[key := v] + fields, rest'))
  }

  // ---------- The parser undoes the printer ----------

  lemma HexRoundTrip(n: nat)
    requires n < 16
    ensures HexValue(HexDigit(n)) == n
  {
  }

  lemma UnescapeEscape(c: char, tail: string)
    ensures ParseChars(Escape(c) + tail) == Prepend(c, ParseChars(tail))
  {
    var e := Escape(c);
    var s := e + tail;
    if |e| == 1 {
      assert s[1..] == tail;
    } else if |e| == 2 {
      assert s[1..][1..] == tail;
    } else {
      UnescapeHex(c, tail);
      hide Escape, Unescape;
      assert s[0] == '\\' && s[1..] == e[1..] + tail;
    }
  }

  lemma UnescapeHex(c: char, tail: string)
    requires |Escape(c)| == 6
    ensures Escape(c)[0] == '\\' && Unescape(Escape(c)[1..] + tail) == Some((c, tail))
  {
    var n := c as int;
    var a, b, d, e := n / 4096, n / 256 % 16, n / 16 % 16, n % 16;
    HexRoundTrip(a);
    HexRoundTrip(b);
    HexRoundTrip(d);
    HexRoundTrip(e);
    HexDigitsOf(n);
    var h := [HexDigit(a), HexDigit(b), HexDigit(d), HexDigit(e)];
    assert Escape(c) == "\\u" + h;
    var t := Escape(c)[1..] + tail;
    hide HexDigit, HexValue, Escape;
    assert t[0] == 'u' && t[1] == h[0] && t[2] == h[1] && t[3] == h[2] && t[4] == h[3];
    assert t[5..] == tail;
  }

  lemma HexDigitsOf(n: nat)
    requires n < 0x1_0000
    ensures ((n / 4096 * 16 + n / 256 % 16) * 16 + n / 16 % 16) * 16 + n % 16 == n
  {
  }

  lemma {:induction false} ParseQuoted(s: string, rest: string)
    ensures ParseChars(EscapeAll(s) + "\"" + rest) == Some((s, rest))
  {
    if s == "" {
      assert EscapeAll(s) + "\"" + rest == "\"" + rest;
    } else {
      var tail := EscapeAll(s[1..]) + "\"" + rest;
      assert EscapeAll(s) + "\"" + rest == Escape(s[0]) + tail;
      UnescapeEscape(s[0], tail);
      ParseQuoted(s[1..], rest);
      assert [s[0]] + s[1..] == s;
    }
  }

  /** Text that may follow a value without being read as part of it. */
  predicate Terminates(rest: string) {
    rest == "" || !IsNumberChar(rest[0])
  }

  lemma NumberRunExact(text: string, rest: string)
    requires (forall i :: 0 <= i < |text| ==> IsNumberChar(text[i])) && Terminates(rest)
    ensures NumberRun(text + rest) == |text|
  {
    var n := NumberRun(text + rest);
    var s := text + rest;
    assert forall i :: 0 <= i < |text| ==> s[i] == text[i];
    assert rest != "" ==> s[|text|] == rest[0];
  }

  lemma ParseLiteral(v: Value, rest: string)
    requires v.Null? || v.Bool?
    ensures ParseValue(Print(v) + rest) == Some((v, rest))
  {
    hide ParseChars, ParseItems, ParseFields, NumberRun;
    var s := Print(v) + rest;
    if v.Null? {
      assert s[..4] == "null" && s[4..] == rest;
    } else if v.b {
      assert s[..4] == "true" && s[4..] == rest;
    } else {
      assert s[..5] == "false" && s[5..] == rest;
    }
  }

  /** One step of the reader, by the first character. */
  lemma ParseByFirst(s: string)
    requires s != "" && s[0] !in {'n', 't', 'f'}
    ensures s[0] == '"' && ParseChars(s[1..]).Some? ==>
              ParseValue(s) == Some((Str(ParseChars(s[1..]).value.0), ParseChars(s[1..]).value.1))
    ensures s[0] == '[' && ParseItems(s[1..], true).Some? ==>
              ParseValue(s) == Some((Array(ParseItems(s[1..], true).value.0), ParseItems(s[1..], true).value.1))
    ensures s[0] == '{' && ParseFields(s[1..], true).Some? ==>
              ParseValue(s) == Some((Object(ParseFields(s[1..], true).value.0), ParseFields(s[1..], true).value.1))
    ensures s[0] == '-' || '0' <= s[0] <= '9' ==>
              var n := NumberRun(s); n > 0 && ParseValue(s) == Some((Number(s[..n]), s[n..]))
  {
    hide ParseChars, ParseItems, ParseFields;
    assert "null"[0] == 'n' && "true"[0] == 't' && "false"[0] == 'f';
  }

  lemma QuoteOpens(key: string, rest: string)
    ensures var s := Quote(key) + rest; s[0] == '"' && s[1..] == EscapeAll(key) + "\"" + rest
  {
  }

  lemma ParseScalar(v: Value, rest: string)
    requires !v.Array? && !v.Object? && Terminates(rest)
    ensures ParseValue(Print(v) + rest) == Some((v, rest))
  {
    var s := Print(v) + rest;
    match v {
      case Number(text) =>
        assert Print(v) == text;
        hide *;
        NumberRunExact(text, rest);
        assert s[0] == text[0];
        ParseByFirst(s);
        assert s[..|text|] == text && s[|text|..] == rest;
      case Str(t) =>
        assert Print(v) == Quote(t);
        hide *;
        QuoteOpens(t, rest);
        ParseQuoted(t, rest);
        ParseByFirst(s);
      case _ => ParseLiteral(v, rest);
    }
  }

  /** The printer has a left inverse: reading the canonical text of a value, whatever
      follows it, gives back the value and the rest. */
  lemma {:induction false} ParsePrint(v: Value, rest: string)
    requires Terminates(rest)
    ensures ParseValue(Print(v) + rest) == Some((v, rest))
    decreases v
  {
    match v {
      case Array(items) =>
        var body := ItemsFrom(v, 0);
        assert Print(v) == "[" + body + "]";
        hide *;
        ParseItemsFrom(v, 0, rest);
        Unbracket("[", body, "]", rest);
        ParseByFirst("[" + body + "]" + rest);
        assert items[0..] == items;
      case Object(fields) =>
        var keys := SortedKeys(fields.Keys);
        assert forall k :: k in keys <==> k in Elements(keys);
        var body := FieldsFrom(v, keys, 0);
        assert Print(v) == "{" + body + "}";
        assert FieldsAt(v, keys, 0) == fields;
        hide *;
        ParseFieldsFrom(v, keys, 0, rest);
        Unbracket("{", body, "}", rest);
        ParseByFirst("{" + body + "}" + rest);
      case _ => ParseScalar(v, rest);
    }
  }

  lemma Unbracket(open: string, body: string, close: string, rest: string)
    requires |open| == 1
    ensures (open + body + close + rest)[0] == open[0]
    ensures (open + body + close + rest)[1..] == body + close + rest
  {
  }

  lemma {:induction false} ParseItemsFrom(v: Value, i: nat, rest: string)
    requires v.Array? && i <= |v.items|
    ensures ParseItems(ItemsFrom(v, i) + "]" + rest, i == 0) == Some((v.items[i..], rest))
    decreases v, |v.items| - i
  {
    var s := ItemsFrom(v, i) + "]" + rest;
    if i == |v.items| {
      ItemsEnd(v, rest, i == 0);
    } else {
      ItemsTail(v, i, rest);
      hide *;
      var tail := ItemsFrom(v, i + 1) + "]" + rest;
      ParsePrint(v.items[i], tail);
      ParseItemsFrom(v, i + 1, rest);
      assert s == Sep(i) + (Print(v.items[i]) + tail);
      ItemsStep(s, i, v.items[i], tail);
      assert [v.items[i]] + v.items[i + 1..] == v.items[i..];
    }
  }

  lemma ItemsEnd(v: Value, rest: string, first: bool)
    requires v.Array?
    ensures ParseItems(ItemsFrom(v, |v.items|) + "]" + rest, first) == Some((v.items[|v.items|..], rest))
  {
    hide ParseValue;
    assert ItemsFrom(v, |v.items|) + "]" + rest == "]" + rest;
    assert ("]" + rest)[1..] == rest && v.items[|v.items|..] == [];
  }

  lemma ItemsTail(v: Value, i: nat, rest: string)
    requires v.Array? && i < |v.items|
    ensures ItemsFrom(v, i) + "]" + rest == Sep(i) + (Print(v.items[i]) + (ItemsFrom(v, i + 1) + "]" + rest))
    ensures Terminates(ItemsFrom(v, i + 1) + "]" + rest)
  {
    hide Print;
  }

  lemma ItemsStep(s: string, i: nat, v: Value, tail: string)
    requires s == Sep(i) + (Print(v) + tail)
    requires ParseValue(Print(v) + tail) == Some((v, tail)) && ParseItems(tail, false).Some?
    ensures ParseItems(s, i == 0) == Some(([v] + ParseItems(tail, false).value.0, ParseItems(tail, false).value.1))
  {
    PrintStart(v);
    Unseparate(s, i, Print(v) + tail);
  }

  lemma Unseparate(s: string, i: nat, t: string)
    requires s == Sep(i) + t && t != ""
    ensures i == 0 ==> s == t
    ensures i > 0 ==> s[0] == ',' && s[1..] == t
  {
  }

  /** A canonical text starts with a character that closes nothing and separates nothing. */
  lemma PrintStart(v: Value)
    ensures Print(v) != "" && Print(v)[0] != ']' && Print(v)[0] != '}' && Print(v)[0] != ','
  {
  }

  ghost function FieldsAt(v: Value, keys: seq<string>, i: nat): map<string, Value>
    requires v.Object? && i <= |keys| && forall k :: k in keys ==> k in v.fields
  {
    map k | k in keys[i..] :: v.fields[k]
  }

  lemma {:induction false} ParseFieldsFrom(v: Value, keys: seq<string>, i: nat, rest: string)
    requires v.Object? && i <= |keys| && forall k :: k in keys ==> k in v.fields
    ensures ParseFields(FieldsFrom(v, keys, i) + "}" + rest, i == 0) == Some((FieldsAt(v, keys, i), rest))
    decreases v, |keys| - i
  {
    var s := FieldsFrom(v, keys, i) + "}" + rest;
    if i == |keys| {
      FieldsEnd(v, keys, rest, i == 0);
    } else {
      var key, field := keys[i], v.fields[keys[i]];
      FieldsTail(v, keys, i, rest);
      FieldsAtStep(v, keys, i);
      hide *;
      var tail := FieldsFrom(v, keys, i + 1) + "}" + rest;
      ParsePrint(field, tail);
      ParseFieldsFrom(v, keys, i + 1, rest);
      assert s == Sep(i) + (Quote(key) + ":" + Print(field) + tail);
      ParseOneField(s, i, key, field, tail);
    }
  }

  lemma FieldsEnd(v: Value, keys: seq<string>, rest: string, first: bool)
    requires v.Object? && forall k :: k in keys ==> k in v.fields
    ensures ParseFields(FieldsFrom(v, keys, |keys|) + "}" + rest, first) == Some((FieldsAt(v, keys, |keys|), rest))
  {
    hide ParseValue, ParseChars;
    assert FieldsFrom(v, keys, |keys|) + "}" + rest == "}" + rest;
    assert ("}" + rest)[1..] == rest;
    assert FieldsAt(v, keys, |keys|) == map[];
  }

  lemma FieldsAtStep(v: Value, keys: seq<string>, i: nat)
    requires v.Object? && i < |keys| && forall k :: k in keys ==> k in v.fields
    ensures FieldsAt(v, keys, i) == map[keys[i] := v.fields[keys[i]]] + FieldsAt(v, keys, i + 1)
  {
    assert keys[i..] == [keys[i]] + keys[i + 1..];
  }

  lemma FieldsTail(v: Value, keys: seq<string>, i: nat, rest: string)
    requires v.Object? && i < |keys| && forall k :: k in keys ==> k in v.fields
    ensures FieldsFrom(v, keys, i) + "}" + rest ==
            Sep(i) + (Quote(keys[i]) + ":" + Print(v.fields[keys[i]]) + (FieldsFrom(v, keys, i + 1) + "}" + rest))
    ensures Terminates(FieldsFrom(v, keys, i + 1) + "}" + rest)
  {
    hide Print, Quote;
  }

  lemma ParseOneField(s: string, i: nat, key: string, field: Value, tail: string)
    requires s == Sep(i) + (Quote(key) + ":" + Print(field) + tail)
    requires ParseValue(Print(field) + tail) == Some((field, tail))
    requires ParseFields(tail, false).Some?
    ensures ParseFields(s, i == 0) ==
            Some((map[key := field] + ParseFields(tail, false).value.0, ParseFields(tail, false).value.1))
  {
    hide *;
    var afterKey := ":" + (Print(field) + tail);
    var t := Quote(key) + afterKey;
    assert Quote(key) + ":" + Print(field) + tail == t;
    QuoteOpens(key, afterKey);
    ParseQuoted(key, afterKey);
    Unseparate(s, i, t);
    FieldsStep(s, i == 0, t, key, afterKey, Print(field) + tail, field, tail);
  }

  lemma FieldsStep(s: string, first: bool, t: string, key: string, afterKey: string, u: string, field: Value,
                   tail: string)
    requires s != "" && s[0] != '}' && (first || s[0] == ',')
    requires t == (if first then s else s[1..]) && t != "" && t[0] == '"'
    requires ParseChars(t[1..]) == Some((key, afterKey)) && afterKey == ":" + u
    requires ParseValue(u) == Some((field, tail)) && ParseFields(tail, false).Some?
    ensures ParseFields(s, first) ==
            Some((map[key := field] + ParseFields(tail, false).value.0, ParseFields(tail, false).value.1))
  {
    hide ParseValue, ParseChars;
    assert afterKey[1..] == u;
  }

  /** Equal canonical text means equal values. */
  lemma PrintInjective(v: Value, w: Value)
    requires Print(v) == Print(w)
    ensures v == w
  {
    ParsePrint(v, "");
    ParsePrint(w, "");
    assert Print(v) + "" == Print(v) && Print(w) + "" == Print(w);
  }
}
