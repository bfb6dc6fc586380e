/** The text of a compiled request (pkg/openapi/request_jq.go) and a reader for the part of
    jq it uses: the text means the program it was made from, except for argument names that
    the compiler fails to escape. Characters beyond ASCII are taken to be printable. */
module JqText {
  import opened Json
  import opened CanonicalJson
  import opened ArgNames
  import opened RequestCompiler

  predicate IsLetter(c: char) {
    'a' <= c <= 'z' || 'A' <= c <= 'Z' || c == '_'
  }

  predicate IsNameChar(c: char) {
    IsLetter(c) || '0' <= c <= '9'
  }

  predicate IsJqIdentifier(s: string) {
    s != "" && IsLetter(s[0]) && forall i :: 0 <= i < |s| ==> IsNameChar(s[i])
  }

  // ---------- Writing ----------

  /** One character of a text quoted by Go's `%q`. */
  function GoEscape(c: char): string {
    if c == '"' then "\\\""
    else if c == '\\' then "\\\\"
    else if c as int == 7 then "\\a"
    else if c as int == 8 then "\\b"
    else if c as int == 12 then "\\f"
    else if c == '\n' then "\\n"
    else if c == '\r' then "\\r"
    else if c == '\t' then "\\t"
    else if c as int == 11 then "\\v"
    else if c as int < 32 || c as int == 127 then "\\x" + [HexDigit(c as int / 16), HexDigit(c as int % 16)]
    else [c]
  }

  function GoEscapeAll(s: string): string {
    if s == "" then "" else GoEscape(s[0]) + GoEscapeAll(s[1..])
  }

  function JqKey(name: string): string {
    if IsJqIdentifier(name) then name else "\"" + GoEscapeAll(name) + "\""
  }

  /** The name is put between quotes as it is. */
  function JqAccess(name: string): string {
    if IsJqIdentifier(name) then "." + name else ".[\"" + name + "\"]"
  }

  function ExprText(e: Jq): string {
    match e
    case Access(name) => JqAccess(name)
    case Stringify(name) => "(" + JqAccess(name) + " | tostring)"
    case StringifyIf(test, shown) =>
      "(if " + JqAccess(test) + " != null then (" + JqAccess(shown) + " | tostring) else null end)"
  }

  function EntryText(entry: (string, Jq)): string {
    JqKey(entry.0) + ": " + ExprText(entry.1)
  }

  function SectionText(section: (string, Entries)): string {
    section.0 + ": {" + EntriesText(section.1, 0) + "}"
  }

  function EntriesText(entries: Entries, i: nat): string
    requires i <= |entries|
    decreases |entries| - i
  {
    if i == |entries| then ""
    else (if i > 0 then ", " else "") + EntryText(entries[i]) + EntriesText(entries, i + 1)
  }

  function SectionsText(program: Program, i: nat): string
    requires i <= |program|
    decreases |program| - i
  {
    if i == |program| then ""
    else (if i > 0 then ", " else "") + SectionText(program[i]) + SectionsText(program, i + 1)
  }

  function ProgramText(program: Program): string {
    "{" + SectionsText(program, 0) + "}"
  }

  /** The compiler as a whole: a request transform the operation brings along, verbatim, or
      the sections' texts joined in braces. */
  method GenerateRequestJq(op: Operation, m: map<string, string>, transform: Option<string>) returns (text: string)
    ensures transform.Some? && transform.value != "" ==> text == transform.value
    ensures transform.None? || transform.value == "" ==>
              exists program :: Compiled(program, op, m) && text == ProgramText(program)
  {
    if transform.Some? && transform.value != "" {
      return transform.value;
    }
    text := CompileText(op, m);
  }

  method CompileText(op: Operation, m: map<string, string>) returns (text: string)
    ensures exists program :: Compiled(program, op, m) && text == ProgramText(program)
  {
    var sections := GenerateRequest(op, m);
    var body := "";
    hide Compiled, EntriesText;
    for i := 0 to |sections|
      invariant body + SectionsText(sections, i) == SectionsText(sections, 0)
    {
      var section := JoinEntries(sections[i].1);
      var piece := sections[i].0 + ": {" + section + "}";
      assert piece == SectionText(sections[i]);
      SectionsUnfold(sections, i);
      hide SectionText, SectionsText;
      JoinStep(body, if i > 0 then ", " else "", piece, SectionsText(sections, i + 1));
      if i > 0 {
        body := body + ", ";
      }
      body := body + piece;
    }
    text := "{" + body + "}";
    assert Compiled(sections, op, m) && text == ProgramText(sections);
  }

  method JoinEntries(entries: Entries) returns (text: string)
    ensures text == EntriesText(entries, 0)
  {
    text := "";
    hide JqKey, ExprText;
    for i := 0 to |entries|
      invariant text + EntriesText(entries, i) == EntriesText(entries, 0)
    {
      var piece := JqKey(entries[i].0) + ": " + ExprText(entries[i].1);
      assert piece == EntryText(entries[i]);
      EntriesUnfold(entries, i);
      hide EntryText, EntriesText;
      JoinStep(text, if i > 0 then ", " else "", piece, EntriesText(entries, i + 1));
      if i > 0 {
        text := text + ", ";
      }
      text := text + piece;
    }
  }

  lemma JoinStep(a: string, sep: string, piece: string, tail: string)
    ensures a + (sep + piece + tail) == a + sep + piece + tail
    ensures sep == "" ==> a + sep == a
  {
  }

  // ---------- Reading ----------

  function Expect(s: string, token: string): (r: Option<string>)
    ensures r.Some? ==> |r.value| == |s| - |token|
  {
    if token <= s then Some(s[|token|..]) else None
  }

  function NameRun(s: string): (n: nat)
    ensures n <= |s| && (forall i :: 0 <= i < n ==> IsNameChar(s[i])) && (n < |s| ==> !IsNameChar(s[n]))
  {
    if s == "" || !IsNameChar(s[0]) then 0 else 1 + NameRun(s[1..])
  }

  function ReadName(s: string): (r: Option<(string, string)>)
    ensures r.Some? ==> |r.value.1| < |s|
  {
    if s != "" && IsLetter(s[0]) then Some((s[..NameRun(s)], s[NameRun(s)..])) else None
  }

  /** A jq string after its opening quote; interpolation is no plain string. */
  function ReadString(s: string): (r: Option<(string, string)>)
    ensures r.Some? ==> |r.value.0| + |r.value.1| < |s|
    decreases |s|
  {
    if s == "" then None
    else if s[0] == '"' then Some(("", s[1..]))
    else if s[0] == '\\' then
      var unescaped: Option<(char, string)> := if |s| > 1 && s[1] == '/' then Some(('/', s[2..])) else Unescape(s[1..]);
      match unescaped
      case None => None
      case Some((c, rest)) => Prepend(c, ReadString(rest))
    else Prepend(s[0], ReadString(s[1..]))
  }

  function ReadKey(s: string): (r: Option<(string, string)>)
    ensures r.Some? ==> |r.value.1| < |s|
  {
    if s != "" && s[0] == '"' then ReadString(s[1..]) else ReadName(s)
  }

  function ReadAccess(s: string): (r: Option<(string, string)>)
    ensures r.Some? ==> |r.value.1| < |s|
  {
    if ".[\"" <= s then ReadBracketed(s[3..])
    else if "." <= s then ReadName(s[1..])
    else None
  }

  function ReadBracketed(s: string): (r: Option<(string, string)>)
    ensures r.Some? ==> |r.value.1| < |s|
  {
    match ReadString(s)
    case None => None
    case Some((name, rest)) => With(name, Expect(rest, "]"))
  }

  /** A value and the text left after it, if that text was found. */
  function With<T>(value: T, rest: Option<string>): Option<(T, string)> {
    match rest
    case None => None
    case Some(after) => Some((value, after))
  }

  function ReadStringifyExpr(s: string): (r: Option<(Jq, string)>)
    ensures r.Some? ==> |r.value.1| < |s|
  {
    match ReadAccess(s)
    case None => None
    case Some((name, s1)) => With(Stringify(name), Expect(s1, " | tostring)"))
  }

  function ReadConditional(s: string): (r: Option<(Jq, string)>)
    ensures r.Some? ==> |r.value.1| < |s|
  {
    match ReadAccess(s)
    case None => None
    case Some((test, s1)) =>
      match Expect(s1, " != null then (")
      case None => None
      case Some(s2) =>
        match ReadAccess(s2)
        case None => None
        case Some((shown, s3)) => With(StringifyIf(test, shown), Expect(s3, " | tostring) else null end)"))
  }

  function ReadExpr(s: string): (r: Option<(Jq, string)>)
    ensures r.Some? ==> |r.value.1| < |s|
  {
    if "(if " <= s then ReadConditional(s[4..])
    else if "(" <= s then ReadStringifyExpr(s[1..])
    else
      match ReadAccess(s)
      case None => None
      case Some((name, rest)) => Some((Access(name), rest))
  }

  function ReadEntry(s: string): (r: Option<((string, Jq), string)>)
    ensures r.Some? ==> |r.value.1| < |s|
  {
    match ReadKey(s)
    case None => None
    case Some((key, s1)) =>
      match Expect(s1, ": ")
      case None => None
      case Some(s2) =>
        match ReadExpr(s2)
        case None => None
        case Some((e, rest)) => Some(((key, e), rest))
  }

  function ReadEntries(s: string, first: bool): (r: Option<(Entries, string)>)
    ensures r.Some? ==> |r.value.1| < |s|
    decreases |s|
  {
    if "}" <= s then Some(([], s[1..]))
    else
      match Expect(s, if first then "" else ", ")
      case None => None
      case Some(t) =>
        match ReadEntry(t)
        case None => None
        case Some((entry, s1)) =>
          match ReadEntries(s1, false)
          case None => None
          case Some((entries, rest)) => Some(([entry] + entries, rest))
  }

  function ReadSection(s: string): (r: Option<((string, Entries), string)>)
    ensures r.Some? ==> |r.value.1| < |s|
  {
    match ReadName(s)
    case None => None
    case Some((name, s1)) =>
      match Expect(s1, ": {")
      case None => None
      case Some(s2) =>
        match ReadEntries(s2, true)
        case None => None
        case Some((entries, rest)) => Some(((name, entries), rest))
  }

  function ReadSections(s: string, first: bool): (r: Option<(Program, string)>)
    ensures r.Some? ==> |r.value.1| < |s|
    decreases |s|
  {
    if "}" <= s then Some(([], s[1..]))
    else
      match Expect(s, if first then "" else ", ")
      case None => None
      case Some(t) =>
        match ReadSection(t)
        case None => None
        case Some((section, s1)) =>
          match ReadSections(s1, false)
          case None => None
          case Some((program, rest)) => Some(([section] + program, rest))
  }

  function ReadProgram(s: string): Option<Program> {
    match Expect(s, "{")
    case None => None
    case Some(t) =>
      match ReadSections(t, true)
      case None => None
      case Some((program, rest)) => if rest == "" then Some(program) else None
  }

  // ---------- Names ----------

  /** A name that can follow nothing but itself. */
  predicate Delimited(rest: string) {
    rest == "" || !IsNameChar(rest[0])
  }

  /** An identifier, or a name without quotes and backslashes. */
  predicate ArgClean(name: string) {
    IsJqIdentifier(name) || forall i :: 0 <= i < |name| ==> name[i] != '"' && name[i] != '\\'
  }

  predicate CharClean(c: char) {
    var n := c as int;
    n in {8, 9, 10, 12, 13} || (n >= 32 && n != 127)
  }

  /** Every character of the name that Go escapes is escaped in a way jq knows. */
  predicate KeyClean(name: string) {
    forall i :: 0 <= i < |name| ==> CharClean(name[i])
  }

  lemma ReadNameExact(name: string, rest: string)
    requires IsJqIdentifier(name) && Delimited(rest)
    ensures ReadName(name + rest) == Some((name, rest))
  {
    var s := name + rest;
    assert forall i :: 0 <= i < |name| ==> s[i] == name[i];
    assert rest != "" ==> s[|name|] == rest[0];
    assert NameRun(s) == |name|;
    assert s[..|name|] == name && s[|name|..] == rest;
  }

  lemma {:induction false} ReadRaw(name: string, rest: string)
    requires forall i :: 0 <= i < |name| ==> name[i] != '"' && name[i] != '\\'
    ensures ReadString(name + "\"" + rest) == Some((name, rest))
  {
    var s := name + "\"" + rest;
    if name == "" {
      assert s[0] == '"' && s[1..] == rest;
    } else {
      ReadRaw(name[1..], rest);
      assert s[0] == name[0] && s[1..] == name[1..] + "\"" + rest;
      assert [name[0]] + name[1..] == name;
    }
  }

  lemma ReadGoEscape(c: char, tail: string)
    requires CharClean(c)
    ensures ReadString(GoEscape(c) + tail) == Prepend(c, ReadString(tail))
  {
    var s := GoEscape(c) + tail;
    if |GoEscape(c)| == 1 {
      assert s[0] == c && s[1..] == tail;
    } else {
      assert s[0] == '\\' && s[1] == GoEscape(c)[1] && s[1..][0] == s[1] && s[1..][1..] == tail;
      assert Unescape(s[1..]) == Some((c, tail));
    }
  }

  lemma {:induction false} ReadQuoted(name: string, rest: string)
    requires KeyClean(name)
    ensures ReadString(GoEscapeAll(name) + "\"" + rest) == Some((name, rest))
  {
    if name == "" {
      assert GoEscapeAll(name) + "\"" + rest == "\"" + rest;
    } else {
      var tail := GoEscapeAll(name[1..]) + "\"" + rest;
      assert GoEscapeAll(name) + "\"" + rest == GoEscape(name[0]) + tail;
      ReadGoEscape(name[0], tail);
      ReadQuoted(name[1..], rest);
      assert [name[0]] + name[1..] == name;
    }
  }

  lemma ReadQuotedKey(name: string, rest: string)
    requires !IsJqIdentifier(name)
    ensures ReadKey(JqKey(name) + rest) == ReadString(GoEscapeAll(name) + "\"" + rest)
  {
    hide GoEscapeAll, ReadString, IsJqIdentifier, ReadName;
    var s := JqKey(name) + rest;
    assert s == "\"" + (GoEscapeAll(name) + "\"" + rest);
    assert s[0] == '"' && s[1..] == GoEscapeAll(name) + "\"" + rest;
  }

  lemma ReadPlainKey(name: string, rest: string)
    requires IsJqIdentifier(name) && Delimited(rest)
    ensures ReadKey(JqKey(name) + rest) == Some((name, rest))
  {
    hide ReadName, ReadString, GoEscapeAll;
    var s := name + rest;
    assert s[0] == name[0] && IsLetter(name[0]);
    ReadNameExact(name, rest);
  }

  /** A key reads back as the name if and only if Go's quoting of it is known to jq. */
  lemma KeyReadsBackIff(name: string, rest: string)
    requires Delimited(rest)
    ensures ReadKey(JqKey(name) + rest) == Some((name, rest)) <==> KeyClean(name)
  {
    hide ReadKey, JqKey, ReadString, GoEscapeAll;
    if IsJqIdentifier(name) {
      ReadPlainKey(name, rest);
    } else {
      ReadQuotedKey(name, rest);
      if KeyClean(name) {
        ReadQuoted(name, rest);
      } else {
        UnreadableKey(name, rest);
      }
    }
  }

  lemma {:induction false} UnreadableKey(name: string, rest: string)
    requires !KeyClean(name)
    ensures ReadString(GoEscapeAll(name) + "\"" + rest).None?
  {
    var tail := GoEscapeAll(name[1..]) + "\"" + rest;
    assert GoEscapeAll(name) + "\"" + rest == GoEscape(name[0]) + tail;
    hide GoEscapeAll;
    if CharClean(name[0]) {
      ReadGoEscape(name[0], tail);
      UnreadableKey(name[1..], rest);
    } else {
      UnreadableChar(name[0], tail);
    }
  }

  lemma UnreadableChar(c: char, tail: string)
    requires !CharClean(c)
    ensures ReadString(GoEscape(c) + tail).None?
  {
    var s := GoEscape(c) + tail;
    assert s[0] == '\\' && s[1] == GoEscape(c)[1] && s[1..][0] == s[1];
    assert s[1] in {'a', 'v', 'x'};
  }

  /** Reading a string never yields more than it used, and as much only if it used every
      character as it stood. */
  lemma {:induction false} ReadStringPlain(s: string)
    requires ReadString(s).Some? && |ReadString(s).value.0| + |ReadString(s).value.1| + 1 == |s|
    ensures var t := ReadString(s).value.0;
            t == s[..|t|] && forall i :: 0 <= i < |t| ==> t[i] != '"' && t[i] != '\\'
    decreases |s|
  {
    if s[0] == '\\' {
      EscapeShrinks(s);
      assert false;
    } else if s[0] != '"' {
      ReadStringPlain(s[1..]);
      var t := ReadString(s).value.0;
      assert t == [s[0]] + ReadString(s[1..]).value.0;
      assert t[1..] == s[1..][..|t| - 1];
    }
  }

  lemma EscapeShrinks(s: string)
    requires s != "" && s[0] == '\\' && ReadString(s).Some?
    ensures |ReadString(s).value.0| + |ReadString(s).value.1| + 2 <= |s|
  {
    hide Unescape;
  }

  lemma ReadPlainAccess(name: string, rest: string)
    requires IsJqIdentifier(name) && Delimited(rest)
    ensures ReadAccess(JqAccess(name) + rest) == Some((name, rest))
  {
    var s := "." + name + rest;
    assert s == JqAccess(name) + rest;
    assert s[0] == '.' && s[1] == name[0] && s[1..] == name + rest && s[..1] == ".";
    assert ".[\""[1] == '[';
    ReadNameExact(name, rest);
    hide ReadName, IsJqIdentifier, Delimited;
  }

  lemma ReadQuotedAccess(name: string, rest: string)
    requires !IsJqIdentifier(name)
    ensures ReadAccess(JqAccess(name) + rest) == ReadBracketed(name + "\"" + ("]" + rest))
  {
    hide ReadBracketed, IsJqIdentifier, ReadName;
    var t := name + "\"" + ("]" + rest);
    var s := ".[\"" + t;
    assert JqAccess(name) + rest == s;
    assert s[3..] == t && s[..3] == ".[\"";
  }

  /** A bracketed name reads back as the name if and only if it has neither quotes nor
      backslashes. */
  lemma BracketedReadsBackIff(name: string, rest: string)
    ensures ReadBracketed(name + "\"" + ("]" + rest)) == Some((name, rest))
            <==> (forall i :: 0 <= i < |name| ==> name[i] != '"' && name[i] != '\\')
  {
    var t := name + "\"" + ("]" + rest);
    hide ReadString;
    if forall i :: 0 <= i < |name| ==> name[i] != '"' && name[i] != '\\' {
      ReadRaw(name, "]" + rest);
      ExpectToken("]", rest);
    }
    if ReadBracketed(t) == Some((name, rest)) {
      assert |ReadString(t).value.1| == |rest| + 1;
      ReadStringPlain(t);
    }
  }

  /** An argument access reads back as the argument if and only if the name is an
      identifier or has neither quotes nor backslashes: the compiler writes other names
      between quotes without escaping them. */
  lemma AccessReadsBackIff(name: string, rest: string)
    requires Delimited(rest)
    ensures ReadAccess(JqAccess(name) + rest) == Some((name, rest)) <==> ArgClean(name)
  {
    hide ReadAccess, JqAccess, ReadBracketed, IsJqIdentifier, Delimited;
    if IsJqIdentifier(name) {
      ReadPlainAccess(name, rest);
    } else {
      ReadQuotedAccess(name, rest);
      BracketedReadsBackIff(name, rest);
    }
  }

  // ---------- Programs ----------

  lemma ExpectToken(token: string, rest: string)
    ensures Expect(token + rest, token) == Some(rest)
  {
    assert (token + rest)[|token|..] == rest && (token + rest)[..|token|] == token;
  }

  predicate ExprClean(e: Jq) {
    match e
    case Access(name) => ArgClean(name)
    case Stringify(name) => ArgClean(name)
    case StringifyIf(test, shown) => ArgClean(test) && ArgClean(shown)
  }

  lemma AccessStart(name: string, rest: string)
    ensures JqAccess(name) != "" && JqAccess(name)[0] == '.'
    ensures !("(" <= JqAccess(name) + rest) && !("(if " <= JqAccess(name) + rest)
    ensures !("if " <= JqAccess(name) + rest)
  {
    var s := JqAccess(name) + rest;
    assert s[0] == '.';
    assert "("[0] == '(' && "(if "[0] == '(' && "if "[0] == 'i';
  }

  lemma ReadExprExact(e: Jq, rest: string)
    requires ExprClean(e) && Delimited(rest)
    ensures ReadExpr(ExprText(e) + rest) == Some((e, rest))
  {
    match e {
      case Access(name) =>
        AccessStart(name, rest);
        AccessReadsBackIff(name, rest);
        hide ReadAccess, JqAccess, ArgClean;
      case Stringify(name) => ReadStringify(name, rest);
      case StringifyIf(test, shown) => ReadStringifyIf(test, shown, rest);
    }
  }

  lemma ReadStringify(name: string, rest: string)
    requires ArgClean(name)
    ensures ReadExpr(ExprText(Stringify(name)) + rest) == Some((Stringify(name), rest))
  {
    hide ReadAccess, JqAccess, ArgClean, Expect;
    var tail := " | tostring)" + rest;
    var inner := JqAccess(name) + tail;
    var s := "(" + inner;
    assert ExprText(Stringify(name)) + rest == s;
    AccessStart(name, tail);
    AccessReadsBackIff(name, tail);
    ExpectToken(" | tostring)", rest);
    assert s[1..] == inner;
    NotIf(inner);
  }

  lemma NotIf(inner: string)
    requires !("if " <= inner)
    ensures !("(if " <= "(" + inner) && "(" <= "(" + inner
  {
    var s := "(" + inner;
    assert "(if "[1] == "if "[0] && "(if "[2] == "if "[1] && "(if "[3] == "if "[2];
    assert forall k :: 0 <= k < |inner| ==> s[k + 1] == inner[k];
    assert |inner| < 3 || inner[0] != "if "[0] || inner[1] != "if "[1] || inner[2] != "if "[2];
    assert s[..1] == "(";
  }

  lemma ReadStringifyIf(test: string, shown: string, rest: string)
    requires ArgClean(test) && ArgClean(shown)
    ensures ReadExpr(ExprText(StringifyIf(test, shown)) + rest) == Some((StringifyIf(test, shown), rest))
  {
    hide ReadAccess, JqAccess, ArgClean, Expect;
    var t4 := " | tostring) else null end)" + rest;
    var t3 := JqAccess(shown) + t4;
    var t2 := " != null then (" + t3;
    var t1 := JqAccess(test) + t2;
    var s := "(if " + t1;
    assert ExprText(StringifyIf(test, shown)) + rest == s;
    assert s[4..] == t1 && "(if " <= s;
    AccessReadsBackIff(test, t2);
    ExpectToken(" != null then (", t3);
    AccessReadsBackIff(shown, t4);
    ExpectToken(" | tostring) else null end)", rest);
  }

  lemma ReadEntryExact(entry: (string, Jq), rest: string)
    requires KeyClean(entry.0) && ExprClean(entry.1) && Delimited(rest)
    ensures ReadEntry(EntryText(entry) + rest) == Some((entry, rest))
  {
    hide ReadKey, ReadExpr, Expect, JqKey, ExprText, KeyClean, ExprClean;
    var t2 := ExprText(entry.1) + rest;
    var t1 := ": " + t2;
    assert EntryText(entry) + rest == JqKey(entry.0) + t1;
    KeyReadsBackIff(entry.0, t1);
    ExpectToken(": ", t2);
    ReadExprExact(entry.1, rest);
  }

  predicate EntriesClean(entries: Entries) {
    forall i :: 0 <= i < |entries| ==> KeyClean(entries[i].0) && ExprClean(entries[i].1)
  }

  lemma EntryStart(entry: (string, Jq))
    ensures EntryText(entry) != "" && EntryText(entry)[0] != '}'
  {
    hide GoEscapeAll, ExprText;
    var key := JqKey(entry.0);
    assert key != "" && key[0] != '}';
    assert EntryText(entry)[0] == key[0];
  }

  /** One step of reading a list, when the next item is there. */
  lemma EntriesStep(s: string, first: bool, t: string, entry: (string, Jq), tail: string, entries: Entries,
                    rest: string)
    requires s == (if first then "" else ", ") + t && !("}" <= s)
    requires ReadEntry(t) == Some((entry, tail)) && ReadEntries(tail, false) == Some((entries, rest))
    ensures ReadEntries(s, first) == Some(([entry] + entries, rest))
  {
    hide ReadEntry, Expect;
    ExpectToken(if first then "" else ", ", t);
  }

  /** The text of the entries from the i-th on, their closing brace, and what follows it. */
  function EntriesFrom(entries: Entries, i: nat, rest: string): string
    requires i <= |entries|
  {
    EntriesText(entries, i) + "}" + rest
  }

  lemma {:induction false} ReadEntriesExact(entries: Entries, i: nat, rest: string)
    requires i <= |entries| && EntriesClean(entries)
    ensures ReadEntries(EntriesFrom(entries, i, rest), i == 0) == Some((entries[i..], rest))
    decreases |entries| - i
  {
    hide *;
    if i == |entries| {
      EntriesEnd(entries, rest, i == 0);
    } else {
      CleanAt(entries, i);
      ReadEntriesExact(entries, i + 1, rest);
      NextEntry(entries, i, rest);
    }
  }

  lemma CleanAt(entries: Entries, i: nat)
    requires i < |entries| && EntriesClean(entries)
    ensures KeyClean(entries[i].0) && ExprClean(entries[i].1)
  {
  }

  lemma NextEntry(entries: Entries, i: nat, rest: string)
    requires i < |entries| && KeyClean(entries[i].0) && ExprClean(entries[i].1)
    requires ReadEntries(EntriesFrom(entries, i + 1, rest), false) == Some((entries[i + 1..], rest))
    ensures ReadEntries(EntriesFrom(entries, i, rest), i == 0) == Some((entries[i..], rest))
  {
    hide *;
    var tail := EntriesFrom(entries, i + 1, rest);
    EntriesTail(entries, i, rest);
    ReadEntryExact(entries[i], tail);
    EntriesStep(EntriesFrom(entries, i, rest), i == 0, EntryText(entries[i]) + tail, entries[i], tail,
                entries[i + 1..], rest);
    assert [entries[i]] + entries[i + 1..] == entries[i..];
  }

  lemma Regroup(sep: string, item: string, more: string, close: string)
    ensures sep + item + more + close == sep + (item + (more + close))
  {
  }

  lemma EntriesUnfold(entries: Entries, i: nat)
    requires i < |entries|
    ensures EntriesText(entries, i) ==
            (if i == 0 then "" else ", ") + EntryText(entries[i]) + EntriesText(entries, i + 1)
  {
    hide EntryText;
  }

  lemma EntriesStart(entries: Entries, i: nat, rest: string)
    requires 0 < i <= |entries|
    ensures Delimited(EntriesFrom(entries, i, rest))
  {
    hide EntryText;
    var s := EntriesFrom(entries, i, rest);
    assert s[0] == if i == |entries| then '}' else ',';
  }

  lemma EntriesTail(entries: Entries, i: nat, rest: string)
    requires i < |entries|
    ensures var s, tail := EntriesFrom(entries, i, rest), EntriesFrom(entries, i + 1, rest);
            && s == (if i == 0 then "" else ", ") + (EntryText(entries[i]) + tail)
            && !("}" <= s) && Delimited(tail)
  {
    hide EntryText, EntriesText, Delimited;
    var sep := if i == 0 then "" else ", ";
    EntriesUnfold(entries, i);
    Regroup(sep, EntryText(entries[i]), EntriesText(entries, i + 1), "}" + rest);
    assert EntriesText(entries, i) + "}" + rest == EntriesText(entries, i) + ("}" + rest);
    assert EntriesText(entries, i + 1) + "}" + rest == EntriesText(entries, i + 1) + ("}" + rest);
    hide EntriesFrom;
    EntryStart(entries[i]);
    EntriesStart(entries, i + 1, rest);
    NotClosed(EntriesFrom(entries, i, rest), i == 0, EntryText(entries[i]), EntriesFrom(entries, i + 1, rest));
  }

  lemma NotClosed(s: string, first: bool, item: string, tail: string)
    requires s == (if first then "" else ", ") + (item + tail) && item != "" && item[0] != '}'
    ensures !("}" <= s)
  {
    assert s[0] == if first then item[0] else ',';
    assert "}"[0] == '}';
  }

  lemma EntriesEnd(entries: Entries, rest: string, first: bool)
    ensures ReadEntries(EntriesFrom(entries, |entries|, rest), first) == Some((entries[|entries|..], rest))
  {
    hide ReadEntry;
    var s := EntriesText(entries, |entries|) + "}" + rest;
    assert s == "}" + rest && s[1..] == rest && entries[|entries|..] == [];
    assert s[..1] == "}";
  }

  predicate SectionsClean(program: Program) {
    forall i :: 0 <= i < |program| ==> IsJqIdentifier(program[i].0) && EntriesClean(program[i].1)
  }

  lemma ReadSectionExact(section: (string, Entries), rest: string)
    requires IsJqIdentifier(section.0) && EntriesClean(section.1)
    ensures ReadSection(SectionText(section) + rest) == Some((section, rest))
  {
    hide ReadName, ReadEntries, Expect, EntriesText, EntriesClean, IsJqIdentifier;
    var t2 := EntriesText(section.1, 0) + "}" + rest;
    var t1 := ": {" + t2;
    assert SectionText(section) + rest == section.0 + t1;
    ReadNameExact(section.0, t1);
    ExpectToken(": {", t2);
    ReadEntriesExact(section.1, 0, rest);
    assert section.1[0..] == section.1;
  }

  lemma SectionsStep(s: string, first: bool, t: string, section: (string, Entries), tail: string, program: Program)
    requires s == (if first then "" else ", ") + t && !("}" <= s)
    requires ReadSection(t) == Some((section, tail)) && ReadSections(tail, false) == Some((program, ""))
    ensures ReadSections(s, first) == Some(([section] + program, ""))
  {
    hide ReadSection, Expect;
    ExpectToken(if first then "" else ", ", t);
  }

  function SectionsFrom(program: Program, i: nat): string
    requires i <= |program|
  {
    SectionsText(program, i) + "}"
  }

  lemma SectionsUnfold(program: Program, i: nat)
    requires i < |program|
    ensures SectionsText(program, i) ==
            (if i == 0 then "" else ", ") + SectionText(program[i]) + SectionsText(program, i + 1)
  {
    hide SectionText;
  }

  lemma SectionsTail(program: Program, i: nat)
    requires i < |program| && IsJqIdentifier(program[i].0)
    ensures var s, tail := SectionsFrom(program, i), SectionsFrom(program, i + 1);
            && s == (if i == 0 then "" else ", ") + (SectionText(program[i]) + tail)
            && !("}" <= s)
  {
    hide SectionText, SectionsText, IsJqIdentifier;
    SectionsUnfold(program, i);
    Regroup(if i == 0 then "" else ", ", SectionText(program[i]), SectionsText(program, i + 1), "}");
    hide SectionsFrom;
    SectionStart(program[i]);
    NotClosed(SectionsFrom(program, i), i == 0, SectionText(program[i]), SectionsFrom(program, i + 1));
  }

  lemma SectionStart(section: (string, Entries))
    requires IsJqIdentifier(section.0)
    ensures SectionText(section) != "" && SectionText(section)[0] != '}'
  {
    hide EntriesText;
    assert SectionText(section)[0] == section.0[0];
  }

  lemma SectionsEnd(program: Program, first: bool)
    ensures ReadSections(SectionsFrom(program, |program|), first) == Some((program[|program|..], ""))
  {
    hide ReadSection;
    var s := SectionsText(program, |program|) + "}";
    assert s == "}" && s[1..] == "" && program[|program|..] == [];
  }

  lemma {:induction false} ReadSectionsExact(program: Program, i: nat)
    requires i <= |program| && SectionsClean(program)
    ensures ReadSections(SectionsFrom(program, i), i == 0) == Some((program[i..], ""))
    decreases |program| - i
  {
    hide *;
    if i == |program| {
      SectionsEnd(program, i == 0);
    } else {
      CleanSection(program, i);
      ReadSectionsExact(program, i + 1);
      NextSection(program, i);
    }
  }

  lemma CleanSection(program: Program, i: nat)
    requires i < |program| && SectionsClean(program)
    ensures IsJqIdentifier(program[i].0) && EntriesClean(program[i].1)
  {
  }

  lemma NextSection(program: Program, i: nat)
    requires i < |program| && IsJqIdentifier(program[i].0) && EntriesClean(program[i].1)
    requires ReadSections(SectionsFrom(program, i + 1), false) == Some((program[i + 1..], ""))
    ensures ReadSections(SectionsFrom(program, i), i == 0) == Some((program[i..], ""))
  {
    hide *;
    var tail := SectionsFrom(program, i + 1);
    SectionsTail(program, i);
    ReadSectionExact(program[i], tail);
    SectionsStep(SectionsFrom(program, i), i == 0, SectionText(program[i]) + tail, program[i], tail, program[i + 1..]);
    assert [program[i]] + program[i + 1..] == program[i..];
  }

  /** A compiled program's text reads back as that program if its keys and argument names
      are ones the compiler escapes properly. */
  lemma TextMeansProgram(program: Program)
    requires SectionsClean(program)
    ensures ReadProgram(ProgramText(program)) == Some(program)
  {
    ReadSectionsExact(program, 0);
    ExpectToken("{", SectionsText(program, 0) + "}");
    assert ProgramText(program) == "{" + (SectionsText(program, 0) + "}");
    assert program[0..] == program;
    hide ReadSections, Expect, SectionsText;
  }

  /** Every name that is compiled, and its argument name, can be read back; cookies are not
      compiled. */
  predicate NamesClean(op: Operation, m: map<string, string>) {
    && (forall p :: p in op.params && p.location != Cookie ==>
        KeyClean(p.name) && ArgClean(ArgName(m, p.location, p.name)))
    && (forall n :: n in op.body ==> KeyClean(n) && ArgClean(ArgName(m, Body, n)))
  }

  /** The compiled request of an operation is such a program when the operation's names and
      argument names are. */
  lemma CompiledIsClean(program: Program, op: Operation, m: map<string, string>)
    requires Compiled(program, op, m)
    requires NamesClean(op, m)
    ensures SectionsClean(program) && ReadProgram(ProgramText(program)) == Some(program)
  {
    var body: Entries :| BodyEntries(body, op.body, m) &&
      program == Sections(EntriesAt(op.params, Path, m), EntriesAt(op.params, Query, m), body,
                          EntriesAt(op.params, Header, m));
    BodyClean(body, op, m);
    assert forall p :: p in op.params && p.location != Cookie ==>
             KeyClean(p.name) && ArgClean(ArgName(m, p.location, p.name));
    hide *;
    EntriesAtClean(op.params, Path, m);
    EntriesAtClean(op.params, Query, m);
    EntriesAtClean(op.params, Header, m);
    AllSectionsClean(EntriesAt(op.params, Path, m), EntriesAt(op.params, Query, m), body,
                     EntriesAt(op.params, Header, m));
    TextMeansProgram(program);
  }

  lemma BodyClean(body: Entries, op: Operation, m: map<string, string>)
    requires BodyEntries(body, op.body, m) && NamesClean(op, m)
    ensures EntriesClean(body)
  {
    hide KeyClean, ArgClean, ArgName;
  }

  lemma AllSectionsClean(path: Entries, query: Entries, body: Entries, headers: Entries)
    requires EntriesClean(path) && EntriesClean(query) && EntriesClean(body) && EntriesClean(headers)
    ensures SectionsClean(Sections(path, query, body, headers))
  {
    SectionNamesAreIdentifiers();
    hide EntriesClean, IsJqIdentifier;
  }

  /** From operation to text to envelope: the compiled text, read as jq and evaluated,
      routes every argument to its place. */
  lemma CompiledTextRoutes(program: Program, op: Operation, m: map<string, string>, args: map<string, Value>,
                           fmt: Formatter)
    requires Compiled(program, op, m) && DistinctPlaces(op.params) && WellPlaced(op) && IsMapping(m, op)
    requires NamesClean(op, m)
    ensures var read := ReadProgram(ProgramText(program));
            && read.Some?
            && var env := EnvelopeOf(Object(EvalProgram(read.value, args, fmt)), fmt);
               env.Some? && Routed(env.value, op, args, fmt)
  {
    hide *;
    CompiledIsClean(program, op, m);
    CompiledRequestRoutes(program, op, m, args, fmt);
  }

  lemma SectionNamesAreIdentifiers()
    ensures IsJqIdentifier("path") && IsJqIdentifier("query") && IsJqIdentifier("body") && IsJqIdentifier("headers")
  {
  }

  lemma {:induction false} EntriesAtClean(params: seq<Param>, l: Location, m: map<string, string>)
    requires forall p :: p in params && p.location == l ==> KeyClean(p.name) && ArgClean(ArgName(m, l, p.name))
    ensures EntriesClean(EntriesAt(params, l, m))
  {
    hide KeyClean, ArgClean, ArgName;
    if params != [] {
      EntriesAtClean(params[..|params| - 1], l, m);
      assert params[|params| - 1] in params;
    }
  }
}
