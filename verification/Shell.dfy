/** Shell quoting of command arguments (pkg/upstream/command/command.go:322-378), against a
    reader of shell words (section 2.2 of XCU, Shell Command Language). */
module Shell {
  import opened GoStrings
  import opened Json

  // ---------- Reading ----------

  /** Where the reader is: outside quotes, inside single or double quotes, after a backslash,
      or stuck at something that is no quoted or literal text. */
  datatype Mode = Bare | Single | Double | Escaped | DoubleEscaped | Stuck

  /** The words read, the word being read if there is one, and where the reader is. */
  datatype Reader = Reader(words: seq<string>, word: Option<string>, mode: Mode)

  const START := Reader([], None, Bare)

  function Append(r: Reader, text: string): Reader {
    r.(word := Some((if r.word.Some? then r.word.value else "") + text))
  }

  function EndWord(r: Reader): Reader {
    if r.word.Some? then r.(words := r.words + [r.word.value], word := None) else r
  }

  /** Characters that always or sometimes need quoting outside quotes. */
  predicate IsSpecial(c: char) {
    c in "|&;<>()$`*?[]#~=%!{}\n"
  }

  function Step(r: Reader, c: char): Reader {
    match r.mode
    case Bare =>
      if c == '\'' then Append(r, "").(mode := Single)
      else if c == '"' then Append(r, "").(mode := Double)
      else if c == '\\' then r.(mode := Escaped)
      else if c == ' ' || c == '\t' then EndWord(r)
      else if IsSpecial(c) then r.(mode := Stuck)
      else Append(r, [c])
    case Single => if c == '\'' then r.(mode := Bare) else Append(r, [c])
    case Double =>
      if c == '"' then r.(mode := Bare)
      else if c == '\\' then r.(mode := DoubleEscaped)
      else if c == '$' || c == '`' then r.(mode := Stuck)
      else Append(r, [c])
    case Escaped => if c == '\n' then r.(mode := Bare) else Append(r, [c]).(mode := Bare)
    case DoubleEscaped =>
      if c == '\n' then r.(mode := Double)
      else if c in "$`\"\\" then Append(r, [c]).(mode := Double)
      else Append(r, ['\\', c]).(mode := Double)
    case Stuck => r
  }

  function Run(r: Reader, s: string): Reader
    decreases |s|
  {
    if s == "" then r else Run(Step(r, s[0]), s[1..])
  }

  /** The words of a command line made of literal and quoted text only. */
  function Words(line: string): Option<seq<string>> {
    var r := Run(START, line);
    if r.mode == Bare then Some(EndWord(r).words) else None
  }

  // ---------- Quoting ----------

  function ShellQuote(s: string): string {
    "'" + ReplaceAll(s, "'", "'\\''") + "'"
  }

  lemma {:induction false} RunAppend(r: Reader, a: string, b: string)
    ensures Run(r, a + b) == Run(Run(r, a), b)
    decreases |a|
  {
    if a == "" {
      assert a + b == b;
    } else {
      assert (a + b)[0] == a[0] && (a + b)[1..] == a[1..] + b;
      RunAppend(Step(r, a[0]), a[1..], b);
    }
  }

  lemma AppendTwice(r: Reader, a: string, b: string)
    ensures Append(Append(r, a), b) == Append(r, a + b)
  {
    var w := if r.word.Some? then r.word.value else "";
    assert w + (a + b) == w + a + b;
  }

  lemma AppendNothing(r: Reader)
    requires r.word.Some?
    ensures Append(r, "") == r
  {
    assert r.word.value + "" == r.word.value;
  }

  /** What stands for a quote inside single quotes: close, escaped quote, open again. */
  lemma QuoteInside(r: Reader)
    requires r.mode == Single && r.word.Some?
    ensures Run(r, "'\\''") == Append(r, "'")
  {
    var e := "'\\''";
    assert e[1..] == "\\''" && e[1..][1..] == "''" && e[1..][1..][1..] == "'" && e[1..][1..][1..][1..] == "";
    var r1 := Step(r, '\'');
    var r2 := Step(r1, '\\');
    var r3 := Step(r2, '\'');
    assert r3 == Append(r, "'").(mode := Bare);
    AppendNothing(r3);
    assert Step(r3, '\'') == Append(r, "'");
    assert Run(r, e) == Run(r1, "\\''") == Run(r2, "''") == Run(r3, "'") == Run(Step(r3, '\''), "");
  }

  lemma {:induction false} InsideQuotes(r: Reader, s: string)
    requires r.mode == Single && r.word.Some?
    ensures Run(r, ReplaceAll(s, "'", "'\\''")) == Append(r, s)
    decreases |s|
  {
    if s == "" {
      AppendNothing(r);
    } else {
      var rest := ReplaceAll(s[1..], "'", "'\\''");
      AppendTwice(r, [s[0]], s[1..]);
      assert [s[0]] + s[1..] == s;
      InsideQuotes(Append(r, [s[0]]), s[1..]);
      if s[0] == '\'' {
        assert "'" <= s && ReplaceAll(s, "'", "'\\''") == "'\\''" + rest;
        assert [s[0]] == "'";
        QuoteInside(r);
        RunAppend(r, "'\\''", rest);
      } else {
        assert !("'" <= s) && ReplaceAll(s, "'", "'\\''") == [s[0]] + rest;
        assert ([s[0]] + rest)[1..] == rest;
        assert Step(r, s[0]) == Append(r, [s[0]]);
      }
    }
  }

  /** Outside quotes, a quoted text adds exactly that text to the word being read. */
  lemma QuotedReads(r: Reader, s: string)
    requires r.mode == Bare
    ensures Run(r, ShellQuote(s)) == Append(r, s)
  {
    var body := ReplaceAll(s, "'", "'\\''");
    var open := Append(r, "").(mode := Single);
    assert ShellQuote(s) == "'" + (body + "'");
    InsideQuotes(open, s);
    hide ShellQuote, ReplaceAll;
    var inside := Append(open, s);
    var t := "'" + (body + "'");
    assert t[0] == '\'' && t[1..] == body + "'" && Step(r, '\'') == open;
    assert Run(r, t) == Run(open, body + "'");
    RunAppend(open, body, "'");
    assert "'"[1..] == "" && Run(inside, "'") == Run(Step(inside, '\''), "");
    AppendTwice(r, "", s);
    assert "" + s == s;
    assert inside.(mode := Bare) == Append(r, s);
  }

  /** Quoted texts joined by blanks. */
  function QuoteAll(words: seq<string>): string {
    if words == [] then ""
    else if |words| == 1 then ShellQuote(words[0])
    else QuoteAll(words[..|words| - 1]) + " " + ShellQuote(words[|words| - 1])
  }

  /** Reading back a list of quoted words gives the list, whatever characters they have. */
  lemma {:induction false} QuoteRoundTrip(words: seq<string>)
    ensures Words(QuoteAll(words)) == Some(words)
    ensures words != [] ==> Run(START, QuoteAll(words)) == Reader(words[..|words| - 1], Some(words[|words| - 1]), Bare)
  {
    if words != [] {
      var init, last := words[..|words| - 1], words[|words| - 1];
      assert words == init + [last];
      QuoteRoundTrip(init);
      if init == [] {
        QuotedReads(START, last);
        assert "" + last == last;
      } else {
        var before, text := QuoteAll(init), ShellQuote(last);
        assert QuoteAll(words) == before + (" " + text);
        hide ShellQuote, QuoteAll;
        RunAppend(START, before, " " + text);
        var r := Run(START, before);
        assert init[..|init| - 1] + [init[|init| - 1]] == init;
        assert (" " + text)[0] == ' ' && (" " + text)[1..] == text;
        assert Step(r, ' ') == Reader(init, None, Bare);
        QuotedReads(Reader(init, None, Bare), last);
        assert "" + last == last;
      }
    }
  }

  // ---------- Safe values ----------

  /** Template data: strings that print quoted, other leaves, and containers. */
  datatype SafeValue = Quoted(s: string) | Other(v: Value) | Items(items: seq<SafeValue>) |
    Fields(fields: map<string, SafeValue>)

  function Safe(v: Value): SafeValue
    decreases v
  {
    match v
    case Str(s) => Quoted(s)
    case Array(items) => Items(seq(|items|, i requires 0 <= i < |items| => Safe(items[i])))
    case Object(fields) => Fields(map k | k in fields :: Safe(fields[k]))
    case _ => Other(v)
  }

  method ShellSafeValue(v: Value) returns (r: SafeValue)
    ensures r == Safe(v)
    decreases v
  {
    match v {
      case Str(s) => r := Quoted(s);
      case Object(fields) =>
        var out: map<string, SafeValue> := map[];
        var remaining := fields.Keys;
        while remaining != {}
          invariant remaining <= fields.Keys
          invariant out == map k | k in fields && k !in remaining :: Safe(fields[k])
          decreases |remaining|
        {
          var k :| k in remaining;
          var safe := ShellSafeValue(fields[k]);
          out := out[k := safe];
          remaining := remaining - {k};
        }
        assert out == map k | k in fields :: Safe(fields[k]);
        r := Fields(out);
      case Array(items) =>
        var out: seq<SafeValue> := [];
        for i := 0 to |items|
          invariant |out| == i && forall j :: 0 <= j < i ==> out[j] == Safe(items[j])
        {
          var safe := ShellSafeValue(items[i]);
          out := out + [safe];
        }
        assert out == seq(|items|, i requires 0 <= i < |items| => Safe(items[i]));
        r := Items(out);
      case _ => r := Other(v);
    }
  }

  /** The value a safe value stands for. */
  function Plain(v: SafeValue): Value
    decreases v
  {
    match v
    case Quoted(s) => Str(s)
    case Other(w) => w
    case Items(items) => Array(seq(|items|, i requires 0 <= i < |items| => Plain(items[i])))
    case Fields(fields) => Object(map k | k in fields :: Plain(fields[k]))
  }

  /** A place inside a value. */
  datatype Place = Key(name: string) | Index(i: nat)

  function Find(v: Value, path: seq<Place>): Option<Value>
    decreases |path|
  {
    if path == [] then Some(v)
    else if path[0].Key? && v.Object? && path[0].name in v.fields then Find(v.fields[path[0].name], path[1..])
    else if path[0].Index? && v.Array? && path[0].i < |v.items| then Find(v.items[path[0].i], path[1..])
    else None
  }

  function FindSafe(v: SafeValue, path: seq<Place>): Option<SafeValue>
    decreases |path|
  {
    if path == [] then Some(v)
    else if path[0].Key? && v.Fields? && path[0].name in v.fields then FindSafe(v.fields[path[0].name], path[1..])
    else if path[0].Index? && v.Items? && path[0].i < |v.items| then FindSafe(v.items[path[0].i], path[1..])
    else None
  }

  /** Wrapping keeps the value: nothing is lost, moved or changed. */
  lemma {:induction false} SafeKeepsValue(v: Value)
    ensures Plain(Safe(v)) == v
    decreases v
  {
    match v {
      case Array(items) =>
        forall i | 0 <= i < |items| ensures Plain(Safe(items[i])) == items[i] {
          SafeKeepsValue(items[i]);
        }
        assert Plain(Safe(v)).items == items;
      case Object(fields) =>
        forall k | k in fields ensures Plain(Safe(fields[k])) == fields[k] {
          SafeKeepsValue(fields[k]);
        }
        assert Plain(Safe(v)).fields == fields;
      case _ =>
    }
  }

  /** Wrapping keeps the shape: the same places exist, and a string found at a place is found
      there in its quoted form, and nothing else is. */
  lemma {:induction false} SafeKeepsShape(v: Value, path: seq<Place>)
    ensures FindSafe(Safe(v), path) == match Find(v, path) { case None => None case Some(w) => Some(Safe(w)) }
    decreases |path|
  {
    if path != [] {
      if path[0].Key? && v.Object? && path[0].name in v.fields {
        SafeKeepsShape(v.fields[path[0].name], path[1..]);
      } else if path[0].Index? && v.Array? && path[0].i < |v.items| {
        SafeKeepsShape(v.items[path[0].i], path[1..]);
      }
    }
  }

  // ---------- Templates ----------

  /** Text, and the value at a place of the arguments. */
  datatype Piece = Literal(text: string) | Variable(path: seq<Place>)

  /** What the template engine prints: strings quoted, other values by the engine's rules. */
  function Print(v: Option<SafeValue>, engine: Option<SafeValue> -> string): string {
    if v.Some? && v.value.Quoted? then ShellQuote(v.value.s) else engine(v)
  }

  function Render(pieces: seq<Piece>, data: SafeValue, engine: Option<SafeValue> -> string): string {
    if pieces == [] then ""
    else
      var text := match pieces[0] { case Literal(t) => t case Variable(path) => Print(FindSafe(data, path), engine) };
      text + Render(pieces[1..], data, engine)
  }

  /** The meaning of a template: a string argument adds its characters to the word being read. */
  function Meaning(r: Reader, pieces: seq<Piece>, args: Value, engine: Option<SafeValue> -> string): Reader
    decreases |pieces|
  {
    if pieces == [] then r
    else
      var next := match pieces[0] {
        case Literal(t) => Run(r, t)
        case Variable(path) =>
          var v := Find(args, path);
          if v.Some? && v.value.Str? then Append(r, v.value.s)
          else Run(r, engine(if v.Some? then Some(Safe(v.value)) else None))
      };
      Meaning(next, pieces[1..], args, engine)
  }

  /** A character that stands for itself outside quotes. */
  predicate IsPlain(c: char) {
    c !in "'\"\\ \t" && !IsSpecial(c)
  }

  predicate AllPlain(s: string) {
    forall i :: 0 <= i < |s| ==> IsPlain(s[i])
  }

  lemma {:induction false} PlainReads(r: Reader, s: string)
    requires r.mode == Bare && r.word.Some? && AllPlain(s)
    ensures Run(r, s) == Append(r, s) && ReplaceAll(s, "'", "'\\''") == s
    decreases |s|
  {
    if s == "" {
      AppendNothing(r);
    } else {
      assert IsPlain(s[0]) && Step(r, s[0]) == Append(r, [s[0]]);
      PlainReads(Append(r, [s[0]]), s[1..]);
      AppendTwice(r, [s[0]], s[1..]);
      assert [s[0]] + s[1..] == s && !("'" <= s);
    }
  }

  /** Between single quotes the quotes of a quoted text close and open them, so a text of
      plain characters still adds exactly those. */
  lemma PlainBetweenSingleQuotes(r: Reader, s: string)
    requires r.mode == Single && r.word.Some? && AllPlain(s)
    ensures Run(r, ShellQuote(s)) == Append(r, s)
  {
    PlainReads(r.(mode := Bare), s);
    var outside := Append(r.(mode := Bare), s);
    assert ShellQuote(s) == "'" + (s + "'");
    assert ShellQuote(s)[0] == '\'' && ShellQuote(s)[1..] == s + "'";
    RunAppend(r.(mode := Bare), s, "'");
    assert "'"[1..] == "" && Run(outside, "'") == Run(Step(outside, '\''), "");
    AppendNothing(outside);
  }

  /** Where a quoted text adds exactly its characters to the word being read: outside quotes,
      or between single quotes if all of them are plain. */
  predicate ReadsAsItself(r: Reader, s: string) {
    r.mode == Bare || (r.mode == Single && r.word.Some? && AllPlain(s))
  }

  lemma SafeTextReads(r: Reader, s: string)
    requires ReadsAsItself(r, s)
    ensures Run(r, ShellQuote(s)) == Append(r, s)
  {
    if r.mode == Bare {
      QuotedReads(r, s);
    } else {
      PlainBetweenSingleQuotes(r, s);
    }
  }

  /** Every string argument stands where it reads as itself. */
  predicate EachReadsAsItself(r: Reader, pieces: seq<Piece>, args: Value, engine: Option<SafeValue> -> string)
    decreases |pieces|
  {
    if pieces == [] then true
    else
      match pieces[0] {
        case Literal(t) => EachReadsAsItself(Run(r, t), pieces[1..], args, engine)
        case Variable(path) =>
          var v := Find(args, path);
          if v.Some? && v.value.Str? then
            ReadsAsItself(r, v.value.s) && EachReadsAsItself(Append(r, v.value.s), pieces[1..], args, engine)
          else
            EachReadsAsItself(Run(r, engine(if v.Some? then Some(Safe(v.value)) else None)), pieces[1..], args, engine)
      }
  }

  /** The shell reads a rendered command as the template means it: a string argument, however
      deep it comes from, never starts, ends or changes anything but its own characters. */
  lemma {:induction false} TemplateMeans(r: Reader, pieces: seq<Piece>, args: Value,
                                         engine: Option<SafeValue> -> string)
    requires EachReadsAsItself(r, pieces, args, engine)
    ensures Run(r, Render(pieces, Safe(args), engine)) == Meaning(r, pieces, args, engine)
    decreases |pieces|
  {
    hide Run, Append, ShellQuote, Safe, Find, FindSafe, ReadsAsItself;
    if pieces == [] {
      EmptyRun(r);
    } else {
      var rest := Render(pieces[1..], Safe(args), engine);
      match pieces[0] {
        case Literal(t) =>
          RunAppend(r, t, rest);
          TemplateMeans(Run(r, t), pieces[1..], args, engine);
        case Variable(path) =>
          var v := Find(args, path);
          SafeKeepsShape(args, path);
          var text := Print(FindSafe(Safe(args), path), engine);
          RunAppend(r, text, rest);
          if v.Some? && v.value.Str? {
            SafeString(v.value);
            SafeTextReads(r, v.value.s);
            TemplateMeans(Append(r, v.value.s), pieces[1..], args, engine);
          } else {
            if v.Some? {
              SafeOther(v.value);
            }
            TemplateMeans(Run(r, text), pieces[1..], args, engine);
          }
      }
    }
  }

  lemma EmptyRun(r: Reader)
    ensures Run(r, "") == r
  {
  }

  lemma SafeString(v: Value)
    requires v.Str?
    ensures Safe(v) == Quoted(v.s)
  {
  }

  lemma SafeOther(v: Value)
    requires !v.Str?
    ensures !Safe(v).Quoted?
  {
  }
}
