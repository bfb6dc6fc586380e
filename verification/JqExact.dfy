/** Exactly when the text of a whole compiled request (pkg/openapi/request_jq.go) reads back as
    the program it was made from. */
module JqExact {
  import opened Json
  import opened CanonicalJson
  import opened ArgNames
  import opened RequestCompiler
  import opened JqText

  // ---------- One access ----------

  /** No backslash comes before the first quote. */
  predicate Calm(s: string) {
    s == "" || s[0] == '"' || (s[0] != '\\' && Calm(s[1..]))
  }

  predicate IsRaw(s: string) {
    forall i :: 0 <= i < |s| ==> s[i] != '"' && s[i] != '\\'
  }

  function Backslashes(s: string): nat {
    if s == "" then 0 else (if s[0] == '\\' then 1 else 0) + Backslashes(s[1..])
  }

  lemma {:induction false} CalmAfter(a: string, b: string)
    requires IsRaw(a) && Calm(b)
    ensures Calm(a + b)
  {
    if a == "" {
      assert a + b == b;
    } else {
      assert (a + b)[1..] == a[1..] + b;
      CalmAfter(a[1..], b);
    }
  }

  lemma {:induction false} CalmRead(s: string)
    requires Calm(s) && ReadString(s).Some?
    ensures Backslashes(ReadString(s).value.0) == 0
  {
    if s[0] != '"' {
      CalmRead(s[1..]);
      PrependOne(s[0], ReadString(s[1..]));
    }
  }

  lemma PrependOne(c: char, r: Option<(string, string)>)
    ensures Prepend(c, r).Some? <==> r.Some?
    ensures r.Some? ==> |Prepend(c, r).value.0| == |r.value.0| + 1
    ensures r.Some? ==> Backslashes(Prepend(c, r).value.0) == Backslashes(r.value.0) + (if c == '\\' then 1 else 0)
  {
    if r.Some? {
      assert ([c] + r.value.0)[1..] == r.value.0;
    }
  }

  lemma {:induction false} BackslashesLeft(s: string, k: nat)
    requires k <= |s|
    ensures Backslashes(s[k..]) <= Backslashes(s)
  {
    if k > 0 {
      BackslashesLeft(s[1..], k - 1);
      assert s[1..][k - 1..] == s[k..];
    }
  }

  /** An escape inside a name uses one character of it, or five; it cannot reach past the
      closing quote. */
  lemma EscapeInside(m: string, rest: string) returns (c: char, k: nat)
    requires m != "" && ReadString("\\" + (m + "\"" + rest)).Some?
    ensures 1 <= k <= |m|
    ensures ReadString("\\" + (m + "\"" + rest)) == Prepend(c, ReadString(m[k..] + "\"" + rest))
  {
    var t := m + "\"" + rest;
    var s := "\\" + t;
    assert s[0] == '\\' && s[1..] == t && t[0] == m[0] && s[1] == m[0] && t[|m|] == '"';
    assert forall i :: 0 <= i < |m| ==> t[i] == m[i];
    ReadsEscape(s);
    hide ReadString;
    if m[0] == '/' {
      c, k := '/', 1;
      assert s[2..] == t[1..] == m[1..] + "\"" + rest;
    } else {
      c := Unescape(t).value.0;
      k := if m[0] == 'u' then 5 else 1;
      assert m[0] == 'u' && |m| < 5 ==> HexValue(t[|m|]) == -1;
      assert |m| >= k && t[k..] == m[k..] + "\"" + rest;
    }
  }

  lemma ReadsEscape(s: string)
    requires |s| > 1 && s[0] == '\\'
    ensures s[1] == '/' ==> ReadString(s) == Prepend('/', ReadString(s[2..]))
    ensures s[1] != '/' && Unescape(s[1..]).None? ==> ReadString(s).None?
    ensures s[1] != '/' && Unescape(s[1..]).Some? ==>
              ReadString(s) == Prepend(Unescape(s[1..]).value.0, ReadString(Unescape(s[1..]).value.1))
  {
    hide Unescape;
  }

  /** Reading a name put between quotes as it is loses a backslash, or gives no more than the
      name, and as much only if the name was raw. */
  lemma {:induction false} BetweenQuotes(name: string, rest: string)
    requires Calm(rest) && ReadString(name + "\"" + rest).Some?
    ensures var got := ReadString(name + "\"" + rest).value.0;
            || Backslashes(got) < Backslashes(name)
            || (|got| <= |name| && Backslashes(got) <= Backslashes(name) && (|got| == |name| ==> IsRaw(name)))
    decreases |name|
  {
    var s := name + "\"" + rest;
    if name == "" || name[0] == '"' {
      assert s[0] == '"';
    } else if name == "\\" {
      assert s[0] == '\\' && s[1] == '"' && s[1..][1..] == rest;
      ReadsEscape(s);
      PrependOne('"', ReadString(rest));
      CalmRead(rest);
    } else if name[0] == '\\' {
      var m := name[1..];
      assert s == "\\" + (m + "\"" + rest);
      var c, k := EscapeInside(m, rest);
      hide ReadString, Calm;
      PrependOne(c, ReadString(m[k..] + "\"" + rest));
      BetweenQuotes(m[k..], rest);
      BackslashesLeft(m, k);
    } else {
      assert s[0] == name[0] && s[1..] == name[1..] + "\"" + rest;
      PrependOne(s[0], ReadString(s[1..]));
      BetweenQuotes(name[1..], rest);
    }
  }

  /** So if an access reads as its own name, the name was one that reads back. */
  lemma AccessMustBeClean(name: string, rest: string)
    requires Calm(rest) && ReadAccess(JqAccess(name) + rest).Some? && ReadAccess(JqAccess(name) + rest).value.0 == name
    ensures ArgClean(name)
  {
    if !IsJqIdentifier(name) {
      ReadQuotedAccess(name, rest);
      hide ReadAccess, JqAccess, Expect;
      CalmAfter("]", rest);
      BetweenQuotes(name, "]" + rest);
    }
  }

  // ---------- What follows is calm ----------

  lemma CalmAccess(name: string, rest: string)
    requires Calm(rest)
    ensures Calm(JqAccess(name) + rest)
  {
    if IsJqIdentifier(name) {
      assert IsRaw("." + name);
      CalmAfter("." + name, rest);
    } else {
      var t := "\"" + (name + "\"]" + rest);
      assert t[0] == '"' && JqAccess(name) + rest == ".[" + t;
      CalmAfter(".[", t);
    }
  }

  lemma CalmBetween(a: string, name: string, b: string, rest: string)
    requires IsRaw(a) && IsRaw(b) && Calm(rest)
    ensures Calm(a + (JqAccess(name) + (b + rest)))
  {
    hide JqAccess, Calm, IsRaw;
    CalmAfter(b, rest);
    CalmAccess(name, b + rest);
    CalmAfter(a, JqAccess(name) + (b + rest));
  }

  lemma Regroup3(a: string, b: string, c: string, rest: string)
    ensures a + b + c + rest == a + (b + (c + rest))
  {
  }

  lemma CalmExpr(e: Jq, rest: string)
    requires Calm(rest)
    ensures Calm(ExprText(e) + rest)
  {
    hide JqAccess, Calm, IsRaw;
    RawPieces();
    match e {
      case Access(name) => CalmAccess(name, rest);
      case Stringify(name) =>
        CalmBetween("(", name, " | tostring)", rest);
        Regroup3("(", JqAccess(name), " | tostring)", rest);
      case StringifyIf(test, shown) =>
        var a, b, c := JqAccess(test), JqAccess(shown), " | tostring) else null end)";
        assert ExprText(e) == "(if " + a + " != null then (" + b + c;
        hide ExprText;
        var t := b + (c + rest);
        CalmBetween("", shown, c, rest);
        assert "" + t == t;
        CalmBetween("(if ", test, " != null then (", t);
        Regroup5("(if ", a, " != null then (", b, c, rest);
    }
  }

  lemma Regroup5(a: string, b: string, c: string, d: string, e: string, rest: string)
    ensures a + b + c + d + e + rest == a + (b + (c + (d + (e + rest))))
  {
    var t := d + (e + rest);
    assert a + b + c + d + e + rest == (a + b + c) + t;
    assert (a + b + c) + t == a + (b + (c + t));
  }

  lemma RawPieces()
    ensures IsRaw("") && IsRaw("(") && IsRaw(" | tostring)") && IsRaw("(if ") && IsRaw(" != null then (")
    ensures IsRaw(" | tostring) else null end)")
  {
  }

  lemma CalmEntry(entry: (string, Jq), rest: string)
    requires Calm(rest)
    ensures Calm(EntryText(entry) + rest)
  {
    var t := ": " + (ExprText(entry.1) + rest);
    CalmExpr(entry.1, rest);
    CalmAfter(": ", ExprText(entry.1) + rest);
    var key := JqKey(entry.0);
    assert EntryText(entry) + rest == key + t;
    if IsJqIdentifier(entry.0) {
      assert IsRaw(key);
      CalmAfter(key, t);
    } else {
      assert (key + t)[0] == '"';
    }
  }

  lemma {:induction false} CalmEntries(entries: Entries, i: nat, rest: string)
    requires i <= |entries| && Calm(rest)
    ensures Calm(EntriesFrom(entries, i, rest))
    decreases |entries| - i
  {
    hide EntryText, Calm;
    if i == |entries| {
      assert EntriesFrom(entries, i, rest) == "}" + rest;
      CalmAfter("}", rest);
    } else {
      CalmEntries(entries, i + 1, rest);
      EntriesTail(entries, i, rest);
      CalmEntry(entries[i], EntriesFrom(entries, i + 1, rest));
      CalmAfter(if i == 0 then "" else ", ", EntryText(entries[i]) + EntriesFrom(entries, i + 1, rest));
    }
  }

  lemma {:induction false} CalmSections(program: Program, i: nat)
    requires i <= |program| && forall k :: 0 <= k < |program| ==> IsJqIdentifier(program[k].0)
    ensures Calm(SectionsFrom(program, i))
    decreases |program| - i
  {
    hide EntriesText, Calm, IsJqIdentifier, IsRaw;
    RawBrace();
    if i == |program| {
      assert SectionsFrom(program, i) == "}" + "";
      CalmAfter("}", "");
    } else {
      var tail := SectionsFrom(program, i + 1);
      CalmSections(program, i + 1);
      SectionsTail(program, i);
      CalmEntries(program[i].1, 0, tail);
      var head := (if i == 0 then "" else ", ") + program[i].0 + ": {";
      HeadIsRaw(if i == 0 then "" else ", ", program[i].0);
      SectionFrom(program[i], tail);
      assert SectionsFrom(program, i) == head + EntriesFrom(program[i].1, 0, tail);
      CalmAfter(head, EntriesFrom(program[i].1, 0, tail));
    }
  }

  lemma HeadIsRaw(sep: string, name: string)
    requires IsRaw(sep) && IsJqIdentifier(name)
    ensures IsRaw(sep + name + ": {")
  {
  }

  lemma RawBrace()
    ensures IsRaw("}") && IsRaw("") && IsRaw(", ")
  {
  }

  lemma SectionFrom(section: (string, Entries), tail: string)
    ensures SectionText(section) + tail == section.0 + (": {" + EntriesFrom(section.1, 0, tail))
  {
    hide EntriesText;
  }

  // ---------- Whole programs ----------

  lemma ExprMustBeClean(e: Jq, rest: string)
    requires Calm(rest) && Delimited(rest)
    requires ReadExpr(ExprText(e) + rest).Some? && ReadExpr(ExprText(e) + rest).value.0 == e
    ensures ExprClean(e)
  {
    match e {
      case Access(name) =>
        AccessStart(name, rest);
        hide ReadAccess, JqAccess, ArgClean;
        AccessMustBeClean(name, rest);
      case Stringify(name) => StringifyMustBeClean(name, rest);
      case StringifyIf(test, shown) => StringifyIfMustBeClean(test, shown, rest);
    }
  }

  lemma StringifyMustBeClean(name: string, rest: string)
    requires Calm(rest)
    requires var r := ReadExpr(ExprText(Stringify(name)) + rest); r.Some? && r.value.0 == Stringify(name)
    ensures ArgClean(name)
  {
    hide ReadAccess, JqAccess, ArgClean, Expect, Calm;
    var tail := " | tostring)" + rest;
    var inner := JqAccess(name) + tail;
    assert ExprText(Stringify(name)) + rest == "(" + inner;
    AccessStart(name, tail);
    NotIf(inner);
    assert ("(" + inner)[1..] == inner;
    CalmAfter(" | tostring)", rest);
    AccessMustBeClean(name, tail);
  }

  lemma StringifyIfMustBeClean(test: string, shown: string, rest: string)
    requires Calm(rest)
    requires var r := ReadExpr(ExprText(StringifyIf(test, shown)) + rest);
             r.Some? && r.value.0 == StringifyIf(test, shown)
    ensures ArgClean(test) && ArgClean(shown)
  {
    hide ReadAccess, JqAccess, ArgClean, Expect, Calm;
    var t4 := " | tostring) else null end)" + rest;
    var t3 := JqAccess(shown) + t4;
    var t2 := " != null then (" + t3;
    var t1 := JqAccess(test) + t2;
    var s := "(if " + t1;
    Regroup5("(if ", JqAccess(test), " != null then (", JqAccess(shown), " | tostring) else null end)", rest);
    assert ExprText(StringifyIf(test, shown)) + rest == s;
    assert s[4..] == t1 && "(if " <= s;
    hide ExprText;
    CalmAfter(" | tostring) else null end)", rest);
    CalmAccess(shown, t4);
    CalmAfter(" != null then (", t3);
    AccessMustBeClean(test, t2);
    AccessReadsBackIff(test, t2);
    ExpectToken(" != null then (", t3);
    AccessMustBeClean(shown, t4);
  }

  lemma EntryMustBeClean(entry: (string, Jq), rest: string)
    requires Calm(rest) && Delimited(rest)
    requires ReadEntry(EntryText(entry) + rest).Some? && ReadEntry(EntryText(entry) + rest).value.0 == entry
    ensures KeyClean(entry.0) && ExprClean(entry.1)
  {
    hide ReadKey, ReadExpr, Expect, JqKey, ExprText, KeyClean, ExprClean, Calm;
    var t2 := ExprText(entry.1) + rest;
    var t1 := ": " + t2;
    assert EntryText(entry) + rest == JqKey(entry.0) + t1;
    KeyMustBeClean(entry.0, t1);
    KeyReadsBackIff(entry.0, t1);
    ExpectToken(": ", t2);
    ExprMustBeClean(entry.1, rest);
  }

  lemma KeyMustBeClean(name: string, rest: string)
    requires ReadKey(JqKey(name) + rest).Some?
    ensures KeyClean(name)
  {
    hide ReadKey, ReadString, GoEscapeAll;
    if !IsJqIdentifier(name) && !KeyClean(name) {
      ReadQuotedKey(name, rest);
      UnreadableKey(name, rest);
    }
  }

  lemma {:induction false} EntriesMustBeClean(entries: Entries, i: nat, rest: string)
    requires i <= |entries| && Calm(rest)
    requires ReadEntries(EntriesFrom(entries, i, rest), i == 0).Some?
    requires ReadEntries(EntriesFrom(entries, i, rest), i == 0).value.0 == entries[i..]
    ensures forall k :: i <= k < |entries| ==> KeyClean(entries[k].0) && ExprClean(entries[k].1)
    decreases |entries| - i
  {
    hide *;
    if i < |entries| {
      var s, tail := EntriesFrom(entries, i, rest), EntriesFrom(entries, i + 1, rest);
      EntriesTail(entries, i, rest);
      CalmEntries(entries, i + 1, rest);
      ExpectToken(if i == 0 then "" else ", ", EntryText(entries[i]) + tail);
      EntriesUnfolded(s, i == 0, EntryText(entries[i]) + tail, entries[i..]);
      EntryMustBeClean(entries[i], tail);
      ReadEntryExact(entries[i], tail);
      assert entries[i..][1..] == entries[i + 1..];
      EntriesMustBeClean(entries, i + 1, rest);
    }
  }

  /** What reading a list that does not end yet comes to. */
  lemma EntriesUnfolded(s: string, first: bool, t: string, entries: Entries)
    requires !("}" <= s) && Expect(s, if first then "" else ", ") == Some(t)
    requires ReadEntries(s, first).Some? && ReadEntries(s, first).value.0 == entries && entries != []
    ensures ReadEntry(t).Some? && ReadEntry(t).value.0 == entries[0]
    ensures ReadEntries(ReadEntry(t).value.1, false).Some?
    ensures ReadEntries(ReadEntry(t).value.1, false).value.0 == entries[1..]
  {
    hide ReadEntry, Expect;
  }

  lemma SectionsUnfolded(s: string, first: bool, t: string, program: Program)
    requires !("}" <= s) && Expect(s, if first then "" else ", ") == Some(t)
    requires ReadSections(s, first).Some? && ReadSections(s, first).value.0 == program && program != []
    ensures ReadSection(t).Some? && ReadSection(t).value.0 == program[0]
    ensures ReadSections(ReadSection(t).value.1, false).Some?
    ensures ReadSections(ReadSection(t).value.1, false).value.0 == program[1..]
  {
    hide ReadSection, Expect;
  }

  lemma SectionMustBeClean(section: (string, Entries), tail: string)
    requires IsJqIdentifier(section.0) && Calm(tail)
    requires ReadSection(SectionText(section) + tail).Some?
    requires ReadSection(SectionText(section) + tail).value.0 == section
    ensures EntriesClean(section.1)
  {
    hide ReadName, ReadEntries, Expect, EntriesText, IsJqIdentifier, EntriesFrom, SectionText, Calm, KeyClean,
         ExprClean;
    SectionFrom(section, tail);
    var t1 := EntriesFrom(section.1, 0, tail);
    ReadNameExact(section.0, ": {" + t1);
    ExpectToken(": {", t1);
    assert section.1[0..] == section.1;
    EntriesMustBeClean(section.1, 0, tail);
  }

  lemma {:induction false} SectionsMustBeClean(program: Program, i: nat)
    requires i <= |program| && forall k :: 0 <= k < |program| ==> IsJqIdentifier(program[k].0)
    requires ReadSections(SectionsFrom(program, i), i == 0).Some?
    requires ReadSections(SectionsFrom(program, i), i == 0).value.0 == program[i..]
    ensures forall k :: i <= k < |program| ==> EntriesClean(program[k].1)
    decreases |program| - i
  {
    hide *;
    if i < |program| {
      var s, tail := SectionsFrom(program, i), SectionsFrom(program, i + 1);
      SectionsTail(program, i);
      CalmSections(program, i + 1);
      ExpectToken(if i == 0 then "" else ", ", SectionText(program[i]) + tail);
      SectionsUnfolded(s, i == 0, SectionText(program[i]) + tail, program[i..]);
      SectionMustBeClean(program[i], tail);
      ReadSectionExact(program[i], tail);
      assert program[i..][1..] == program[i + 1..];
      SectionsMustBeClean(program, i + 1);
    }
  }

  /** The text of a program, whose sections have identifiers for names, reads back as that
      program if and only if every key and every argument name reads back. */
  lemma TextMeansProgramIff(program: Program)
    requires forall i :: 0 <= i < |program| ==> IsJqIdentifier(program[i].0)
    ensures ReadProgram(ProgramText(program)) == Some(program) <==> SectionsClean(program)
  {
    ExpectToken("{", SectionsText(program, 0) + "}");
    assert ProgramText(program) == "{" + (SectionsText(program, 0) + "}");
    assert program[0..] == program;
    if SectionsClean(program) {
      TextMeansProgram(program);
    }
    if ReadProgram(ProgramText(program)) == Some(program) {
      hide ReadSections, Expect, SectionsText, EntriesClean, IsJqIdentifier;
      SectionsMustBeClean(program, 0);
    }
  }

  /** For a compiled operation: if and only if every name that is compiled, and its argument
      name, reads back. */
  lemma CompiledReadsBackIff(program: Program, op: Operation, m: map<string, string>)
    requires Compiled(program, op, m) && WellPlaced(op)
    ensures ReadProgram(ProgramText(program)) == Some(program) <==> NamesClean(op, m)
  {
    hide ReadProgram, ProgramText, EntriesAt, NamesClean, BodyEntries, Sections, WellPlaced;
    if NamesClean(op, m) {
      CompiledIsClean(program, op, m);
    }
    if ReadProgram(ProgramText(program)) == Some(program) {
      var body: Entries :| BodyEntries(body, op.body, m) &&
        program == Sections(EntriesAt(op.params, Path, m), EntriesAt(op.params, Query, m), body,
                            EntriesAt(op.params, Header, m));
      hide *;
      SectionsNamed(EntriesAt(op.params, Path, m), EntriesAt(op.params, Query, m), body,
                    EntriesAt(op.params, Header, m));
      TextMeansProgramIff(program);
      SectionsCleanParts(EntriesAt(op.params, Path, m), EntriesAt(op.params, Query, m), body,
                         EntriesAt(op.params, Header, m));
      BodyMustBeClean(body, op.body, m);
      AllNamesClean(op, m);
    }
  }

  lemma SectionsNamed(path: Entries, query: Entries, body: Entries, headers: Entries)
    ensures var program := Sections(path, query, body, headers);
            forall i :: 0 <= i < |program| ==> IsJqIdentifier(program[i].0)
  {
    SectionNamesAreIdentifiers();
    hide IsJqIdentifier;
  }

  lemma AllNamesClean(op: Operation, m: map<string, string>)
    requires EntriesClean(EntriesAt(op.params, Path, m)) && EntriesClean(EntriesAt(op.params, Query, m))
    requires EntriesClean(EntriesAt(op.params, Header, m))
    requires forall n :: n in op.body ==> KeyClean(n) && ArgClean(ArgName(m, Body, n))
    requires WellPlaced(op)
    ensures NamesClean(op, m)
  {
    hide KeyClean, ArgClean, ArgName, EntriesClean, EntriesAt;
    ParamsClean(op.params, Path, m);
    ParamsClean(op.params, Query, m);
    ParamsClean(op.params, Header, m);
  }

  lemma SectionsCleanParts(path: Entries, query: Entries, body: Entries, headers: Entries)
    requires SectionsClean(Sections(path, query, body, headers))
    ensures EntriesClean(path) && EntriesClean(query) && EntriesClean(body) && EntriesClean(headers)
  {
    var program := Sections(path, query, body, headers);
    hide KeyClean, ExprClean, IsJqIdentifier;
    var a, b, c := |Section("path", path)|, |Section("query", query)|, |Section("body", body)|;
    assert path != [] ==> program[0].1 == path;
    assert query != [] ==> program[a].1 == query;
    assert body != [] ==> program[a + b].1 == body;
    assert headers != [] ==> program[a + b + c].1 == headers;
  }

  lemma {:induction false} ParamsClean(params: seq<Param>, l: Location, m: map<string, string>)
    requires EntriesClean(EntriesAt(params, l, m))
    ensures forall p :: p in params && p.location == l ==> KeyClean(p.name) && ArgClean(ArgName(m, l, p.name))
  {
    hide KeyClean, ArgClean, ArgName;
    if params != [] {
      var init, last := params[..|params| - 1], params[|params| - 1];
      var before, all := EntriesAt(init, l, m), EntriesAt(params, l, m);
      assert params == init + [last];
      assert forall i :: 0 <= i < |before| ==> all[i] == before[i];
      ParamsClean(init, l, m);
      if last.location == l {
        assert all[|all| - 1] == (last.name, ExprFor(last, ArgName(m, l, last.name)));
      }
    }
  }

  lemma BodyMustBeClean(entries: Entries, body: map<string, BodyProperty>, m: map<string, string>)
    requires BodyEntries(entries, body, m) && EntriesClean(entries)
    ensures forall n :: n in body ==> KeyClean(n) && ArgClean(ArgName(m, Body, n))
  {
    hide KeyClean, ArgClean, ArgName;
    forall n | n in body ensures KeyClean(n) && ArgClean(ArgName(m, Body, n)) {
      var i :| 0 <= i < |entries| && entries[i].0 == n;
      assert entries[i].1 == Access(ArgName(m, Body, n));
    }
  }
}
