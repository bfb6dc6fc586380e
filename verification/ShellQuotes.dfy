/** Quoted command arguments inside quotes of the template (pkg/upstream/command/command.go):
    exactly where a quoted text still reads as itself. */
module ShellQuotes {
  import opened GoStrings
  import opened Json
  import opened Shell

  const QUOTE := "'\\''"

  function Body(s: string): string {
    ReplaceAll(s, "'", QUOTE)
  }

  lemma BodyStep(s: string)
    requires s != ""
    ensures Body(s) == (if s[0] == '\'' then QUOTE else [s[0]]) + Body(s[1..])
  {
    assert s[0] == '\'' <==> "'" <= s;
  }

  /** How often a character occurs. */
  function Marks(c: char, s: string): nat {
    if s == "" then 0 else (if s[0] == c then 1 else 0) + Marks(c, s[1..])
  }

  lemma {:induction false} MarksOf(c: char, a: string, b: string)
    ensures Marks(c, a + b) == Marks(c, a) + Marks(c, b)
  {
    if a == "" {
      assert a + b == b;
    } else {
      assert (a + b)[1..] == a[1..] + b;
      MarksOf(c, a[1..], b);
    }
  }

  // ---------- What reading can do ----------

  /** Later is a reading of more text: words are only added, and while none is finished the
      word being read only grows. */
  ghost predicate Follows(r: Reader, later: Reader) {
    && |later.words| >= |r.words|
    && (|later.words| == |r.words| ==> later.words == r.words)
    && (|later.words| == |r.words| && r.word.Some? ==> later.word.Some? && r.word.value <= later.word.value)
  }

  lemma StepFollows(r: Reader, c: char)
    ensures Follows(r, Step(r, c))
  {
  }

  lemma FollowsOn(a: Reader, b: Reader, c: Reader)
    requires Follows(a, b) && Follows(b, c)
    ensures Follows(a, c)
  {
  }

  lemma {:induction false} RunFollows(r: Reader, t: string)
    ensures Follows(r, Run(r, t))
    decreases |t|
  {
    hide Follows, Step;
    if t == "" {
      FollowsItself(r);
    } else {
      StepFollows(r, t[0]);
      RunFollows(Step(r, t[0]), t[1..]);
      FollowsOn(r, Step(r, t[0]), Run(r, t));
    }
  }

  lemma FollowsItself(r: Reader)
    ensures Follows(r, r)
  {
  }

  function InDouble(r: Reader): bool {
    r.mode == Double || r.mode == DoubleEscaped
  }

  function Pending(r: Reader): nat {
    if r.mode == Escaped then 1 else 0
  }

  /** What reading one character of a text, escaped if it is a quote, comes to. */
  function ReadOne(r: Reader, c: char): Reader {
    Run(r, if c == '\'' then QUOTE else [c])
  }

  /** The bound on what reading a body can add to a word that it does not finish. */
  ghost predicate Bounded(r: Reader, later: Reader, s: string) {
    later.words == r.words && r.word.Some? && later.word.Some? ==>
      && Marks('"', later.word.value) <= Marks('"', r.word.value) + Marks('"', s)
      && (later.mode == Bare && Marks('"', later.word.value) == Marks('"', r.word.value) + Marks('"', s) ==>
            !InDouble(r) && |later.word.value| <= |r.word.value| + |s| + Pending(r))
  }

  lemma QuoteSteps(r: Reader)
    ensures Run(r, QUOTE) == Step(Step(Step(Step(r, '\''), '\\'), '\''), '\'')
  {
    assert QUOTE[1..] == "\\''" && QUOTE[1..][1..] == "''";
    assert QUOTE[1..][1..][1..] == "'" && QUOTE[1..][1..][1..][1..] == "";
    var r1 := Step(r, '\'');
    var r2 := Step(r1, '\\');
    var r3 := Step(r2, '\'');
    hide Step;
    assert Run(r, QUOTE) == Run(r1, "\\''") == Run(r2, "''") == Run(r3, "'") == Run(Step(r3, '\''), "");
  }

  /** The bound for one character. */
  ghost predicate BoundedOne(r: Reader, later: Reader, c: char) {
    later.words == r.words && r.word.Some? && later.word.Some? ==>
      && Marks('"', later.word.value) <= Marks('"', r.word.value) + Marks('"', [c])
      && (!InDouble(later) && later.mode != Stuck &&
          Marks('"', later.word.value) == Marks('"', r.word.value) + Marks('"', [c]) ==>
            !InDouble(r) && |later.word.value| + Pending(later) <= |r.word.value| + 1 + Pending(r))
  }

  lemma AddedOne(w: string, c: char)
    ensures Marks('"', w + [c]) == Marks('"', w) + (if c == '"' then 1 else 0)
    ensures Marks('"', [c]) == if c == '"' then 1 else 0
    ensures w + "" == w
  {
    MarksOf('"', w, [c]);
    assert [c][1..] == "";
  }

  lemma OneStep(r: Reader, c: char)
    requires c != '\''
    ensures BoundedOne(r, Step(r, c), c)
  {
    if r.word.Some? {
      var w := r.word.value;
      AddedOne(w, c);
      AddedOne(w, '\\');
      AddedOne(w + "\\", c);
      assert w + ['\\', c] == w + "\\" + [c];
      hide Marks;
    }
  }

  /** What the stand-in for a quote adds to a word, and where it leaves the reader. */
  function QuoteAdds(m: Mode): (string, Mode) {
    match m
    case Bare => ("\\", Single)
    case Single => ("'", Single)
    case Double => ("'\\''", Double)
    case Escaped => ("''", Single)
    case DoubleEscaped => ("\\'\\''", Double)
    case Stuck => ("", Stuck)
  }

  lemma OnQuote(words: seq<string>, w: string, m: Mode)
    ensures Step(Reader(words, Some(w), m), '\'') ==
            match m {
              case Bare => Reader(words, Some(w), Single)
              case Single => Reader(words, Some(w), Bare)
              case Double => Reader(words, Some(w + "'"), Double)
              case Escaped => Reader(words, Some(w + "'"), Bare)
              case DoubleEscaped => Reader(words, Some(w + "\\'"), Double)
              case Stuck => Reader(words, Some(w), Stuck)
            }
  {
    assert w + "" == w;
  }

  lemma OnBackslash(words: seq<string>, w: string, m: Mode)
    requires m == Bare || m == Single || m == Double || m == Stuck
    ensures Step(Reader(words, Some(w), m), '\\') ==
            match m {
              case Bare => Reader(words, Some(w), Escaped)
              case Single => Reader(words, Some(w + "\\"), Single)
              case Double => Reader(words, Some(w), DoubleEscaped)
              case _ => Reader(words, Some(w), Stuck)
            }
  {
  }

  /** What the first and the last two characters of the stand-in add. */
  function FirstTwo(m: Mode): (string, Mode) {
    match m
    case Bare => ("\\", Single)
    case Single => ("", Escaped)
    case Double => ("'", DoubleEscaped)
    case Escaped => ("'", Escaped)
    case DoubleEscaped => ("\\'", DoubleEscaped)
    case Stuck => ("", Stuck)
  }

  function LastTwo(m: Mode): (string, Mode) {
    match m
    case Single => ("", Single)
    case Escaped => ("'", Single)
    case DoubleEscaped => ("\\''", Double)
    case _ => ("", Stuck)
  }

  lemma ReadFirstTwo(words: seq<string>, w: string, m: Mode)
    ensures Step(Step(Reader(words, Some(w), m), '\''), '\\') == Reader(words, Some(w + FirstTwo(m).0), FirstTwo(m).1)
  {
    OnQuote(words, w, m);
    var r1 := Step(Reader(words, Some(w), m), '\'');
    hide Step, Append;
    OnBackslash(words, r1.word.value, r1.mode);
    assert w + "" == w;
  }

  lemma ReadLastTwo(words: seq<string>, w: string, m: Mode)
    requires m == Single || m == Escaped || m == DoubleEscaped || m == Stuck
    ensures Step(Step(Reader(words, Some(w), m), '\''), '\'') == Reader(words, Some(w + LastTwo(m).0), LastTwo(m).1)
  {
    OnQuote(words, w, m);
    var r1 := Step(Reader(words, Some(w), m), '\'');
    hide Step, Append;
    OnQuote(words, r1.word.value, r1.mode);
    assert w + "" == w;
    assert m == DoubleEscaped ==> (w + "\\'") + "'" == w + "\\''";
  }

  lemma QuoteByMode(r: Reader)
    requires r.word.Some?
    ensures Run(r, QUOTE) == Reader(r.words, Some(r.word.value + QuoteAdds(r.mode).0), QuoteAdds(r.mode).1)
  {
    hide *;
    var w, first := r.word.value, FirstTwo(r.mode);
    var last := LastTwo(first.1);
    QuoteSteps(r);
    QuoteAddsParts(r.mode);
    assert r == Reader(r.words, Some(w), r.mode);
    ReadFirstTwo(r.words, w, r.mode);
    FirstTwoLeaves(r.mode);
    ReadLastTwo(r.words, w + first.0, first.1);
    assert w + first.0 + last.0 == w + (first.0 + last.0);
  }

  lemma QuoteAddsParts(m: Mode)
    ensures QuoteAdds(m) == (FirstTwo(m).0 + LastTwo(FirstTwo(m).1).0, LastTwo(FirstTwo(m).1).1)
  {
    match m {
      case DoubleEscaped => assert "\\'" + "\\''" == "\\'\\''";
      case Double => assert "'" + "\\''" == "'\\''";
      case Escaped => assert "'" + "'" == "''";
      case Single => assert "" + "'" == "'";
      case Bare => assert "\\" + "" == "\\";
      case Stuck => assert "" + "" == "";
    }
  }

  lemma FirstTwoLeaves(m: Mode)
    ensures var n := FirstTwo(m).1; n == Single || n == Escaped || n == DoubleEscaped || n == Stuck
  {
  }

  lemma OneQuote(r: Reader)
    ensures BoundedOne(r, Run(r, QUOTE), '\'')
  {
    if r.word.Some? {
      var w, added := r.word.value, QuoteAdds(r.mode).0;
      QuoteByMode(r);
      NoMarks('"', added);
      NoMarks('"', "'");
      MarksOf('"', w, added);
      hide Marks, Run, Step;
    }
  }

  lemma {:induction false} NoMarks(c: char, t: string)
    requires forall i :: 0 <= i < |t| ==> t[i] != c
    ensures Marks(c, t) == 0
  {
    if t != "" {
      NoMarks(c, t[1..]);
    }
  }

  lemma {:induction false} StuckStays(r: Reader, t: string)
    requires r.mode == Stuck
    ensures Run(r, t) == r
    decreases |t|
  {
    if t != "" {
      StuckStays(r, t[1..]);
    }
  }

  lemma BoundsCompose(r: Reader, m: Reader, later: Reader, c: char, rest: string)
    requires Follows(r, m) && Follows(m, later) && (m.mode == Stuck ==> later.mode == Stuck)
    requires BoundedOne(r, m, c) && Bounded(m, later, rest)
    ensures Bounded(r, later, [c] + rest)
  {
    MarksOf('"', [c], rest);
    hide Marks;
  }

  lemma {:induction false} BodyBounded(r: Reader, s: string)
    ensures Bounded(r, Run(r, Body(s)), s)
    decreases |s|
  {
    hide Body, Bounded, BoundedOne, Follows, Run, Step;
    if s == "" {
      EmptyBody(r);
    } else {
      var c := if s[0] == '\'' then QUOTE else [s[0]];
      var m := Run(r, c);
      BodyStep(s);
      RunAppend(r, c, Body(s[1..]));
      BodyBounded(m, s[1..]);
      OneBounded(r, s[0]);
      RunFollows(r, c);
      RunFollows(m, Body(s[1..]));
      if m.mode == Stuck {
        StuckStays(m, Body(s[1..]));
      }
      BoundsCompose(r, m, Run(m, Body(s[1..])), s[0], s[1..]);
      assert [s[0]] + s[1..] == s;
    }
  }

  lemma EmptyBody(r: Reader)
    ensures Body("") == "" && Run(r, "") == r && Bounded(r, r, "")
  {
  }

  lemma OneBounded(r: Reader, c: char)
    ensures BoundedOne(r, Run(r, if c == '\'' then QUOTE else [c]), c)
  {
    hide BoundedOne, Step;
    if c == '\'' {
      OneQuote(r);
    } else {
      OneStep(r, c);
      assert [c][0] == c && [c][1..] == "";
      assert Run(Step(r, c), "") == Step(r, c);
    }
  }

  // ---------- Between single quotes ----------

  /** A quoted text is the open quote, its body, and the closing quote. */
  lemma QuotedSteps(r: Reader, s: string)
    ensures Run(r, ShellQuote(s)) == Step(Run(Step(r, '\''), Body(s)), '\'')
  {
    var t := "'" + (Body(s) + "'");
    assert ShellQuote(s) == t && t[0] == '\'' && t[1..] == Body(s) + "'";
    var inside := Run(Step(r, '\''), Body(s));
    RunAppend(Step(r, '\''), Body(s), "'");
    assert "'"[1..] == "" && Run(inside, "'") == Run(Step(inside, '\''), "");
  }

  /** Read outside quotes, the body of a text that is not plain never adds just the text and
      ends outside quotes. */
  lemma {:induction false} BodyOutsideQuotes(r: Reader, s: string)
    requires r.mode == Bare && r.word.Some? && !AllPlain(s)
    ensures Run(r, Body(s)) != Append(r, s)
    decreases |s|
  {
    var c, rest := s[0], s[1..];
    assert [c] + rest == s;
    BodyStep(s);
    var text := if c == '\'' then QUOTE else [c];
    var m := Run(r, text);
    var later := Run(m, Body(rest));
    RunAppend(r, text, Body(rest));
    RunFollows(m, Body(rest));
    BodyBounded(m, rest);
    MarksOf('"', r.word.value, s);
    MarksOf('"', [c], rest);
    if c != '\'' {
      assert [c][0] == c && [c][1..] == "";
      assert m == Step(r, c);
    }
    if c == '\'' {
      QuoteByMode(r);
      hide Run, Body, Marks;
      assert (r.word.value + s)[|r.word.value|] == c;
      assert (r.word.value + "\\")[|r.word.value|] == '\\';
    } else if IsPlain(c) {
      hide Run, Body, Marks;
      PlainStep(r, c, rest);
      BodyOutsideQuotes(m, rest);
    } else if c == '\\' {
      EscapeOutside(r, rest);
    } else if c == '"' {
      assert Marks('"', [c]) == 1;
      AppendNothing(r);
      hide Run, Body, Marks;
    } else if c == ' ' || c == '\t' {
      hide Run, Body, Marks;
    } else {
      StuckStays(m, Body(rest));
    }
  }

  lemma PlainStep(r: Reader, c: char, rest: string)
    requires r.mode == Bare && r.word.Some? && IsPlain(c)
    ensures Step(r, c) == Append(r, [c]) && Append(Append(r, [c]), rest) == Append(r, [c] + rest)
    ensures !AllPlain([c] + rest) ==> !AllPlain(rest)
  {
    AppendTwice(r, [c], rest);
    if AllPlain(rest) {
      assert forall i :: 0 < i < |[c] + rest| ==> ([c] + rest)[i] == rest[i - 1];
    }
  }

  /** After a backslash the next character stands for both, so the text comes out short. */
  lemma EscapeOutside(r: Reader, rest: string)
    requires r.mode == Bare && r.word.Some?
    ensures Run(r.(mode := Escaped), Body(rest)) != Append(r, "\\" + rest)
  {
    var e := r.(mode := Escaped);
    var w := r.word.value;
    assert (w + ("\\" + rest))[|w|] == '\\';
    if rest == "" {
      EmptyBody(e);
    } else {
      BodyStep(rest);
      var text := if rest[0] == '\'' then QUOTE else [rest[0]];
      var m := Run(e, text);
      RunAppend(e, text, Body(rest[1..]));
      RunFollows(m, Body(rest[1..]));
      BodyBounded(m, rest[1..]);
      MarksOf('"', w, "\\" + rest);
      MarksOf('"', "\\", rest);
      MarksOf('"', [rest[0]], rest[1..]);
      assert [rest[0]] + rest[1..] == rest;
      NoMarks('"', "\\");
      if rest[0] == '\'' {
        QuoteByMode(e);
        assert (w + "''")[|w|] == '\'';
      } else {
        assert [rest[0]][0] == rest[0] && [rest[0]][1..] == "";
        assert m == Step(e, rest[0]);
        AddedOne(w, rest[0]);
      }
      hide Run, Body, Marks;
    }
  }

  // ---------- Between double quotes ----------

  /** A body read between double quotes that stays between them, or comes back without having
      used up one of its own, adds all its quotes. */
  ghost predicate KeepsQuotes(r: Reader, later: Reader, s: string) {
    later.words == r.words && r.word.Some? && later.word.Some? && InDouble(r) && InDouble(later) &&
    Marks('"', later.word.value) == Marks('"', r.word.value) + Marks('"', s) ==>
      Marks('\'', later.word.value) >= Marks('\'', r.word.value) + Marks('\'', s)
  }

  lemma OneKeepsQuotes(r: Reader, c: char)
    ensures var m := ReadOne(r, c);
            m.words == r.words && r.word.Some? && m.word.Some? && InDouble(r) ==>
              && (InDouble(m) ==> Marks('\'', m.word.value) >= Marks('\'', r.word.value) + Marks('\'', [c]))
              && (!InDouble(m) && m.mode != Stuck ==>
                  Marks('"', m.word.value) < Marks('"', r.word.value) + Marks('"', [c]))
  {
    if r.word.Some? && InDouble(r) {
      var w := r.word.value;
      MarksOf('\'', w, [c]);
      MarksOf('\'', w, ['\\', c]);
      MarksOf('\'', ['\\'], [c]);
      assert ['\\'] + [c] == ['\\', c];
      if c == '\'' {
        QuoteByMode(r);
        MarksOf('\'', w, QuoteAdds(r.mode).0);
        assert Marks('\'', "'") == 1;
        ThreeQuotes();
        hide Run, Step, Marks;
      } else {
        NoMarks('\'', [c]);
        assert [c][0] == c && [c][1..] == "";
        assert Run(Step(r, c), "") == Step(r, c) == ReadOne(r, c);
      }
    }
  }

  lemma ThreeQuotes()
    ensures Marks('\'', "'\\''") == 3 && Marks('\'', "\\'\\''") == 3 && Marks('\'', "'") == 1
  {
    MarksOf('\'', "'", "\\''");
    MarksOf('\'', "\\", "''");
    MarksOf('\'', "'", "'");
    MarksOf('\'', "\\", "'\\''");
    assert "'" + "\\''" == "'\\''" && "\\" + "''" == "\\''" && "'" + "'" == "''" && "\\" + "'\\''" == "\\'\\''";
    assert "'"[1..] == "" && "\\"[1..] == "";
  }

  lemma {:induction false} BodyKeepsQuotes(r: Reader, s: string)
    ensures KeepsQuotes(r, Run(r, Body(s)), s)
    decreases |s|
  {
    hide Body, Run, Step, Follows, Bounded, BoundedOne;
    if s == "" {
      EmptyBody(r);
    } else {
      var c, rest := s[0], s[1..];
      var text := if c == '\'' then QUOTE else [c];
      var m := Run(r, text);
      BodyStep(s);
      RunAppend(r, text, Body(rest));
      OneKeepsQuotes(r, c);
      OneBounded(r, c);
      BodyKeepsQuotes(m, rest);
      BodyBounded(m, rest);
      RunFollows(r, text);
      RunFollows(m, Body(rest));
      if m.mode == Stuck {
        StuckStays(m, Body(rest));
      }
      assert [c] + rest == s;
      KeepsCompose(r, m, Run(m, Body(rest)), c, rest);
    }
  }

  lemma KeepsCompose(r: Reader, m: Reader, later: Reader, c: char, rest: string)
    requires Follows(r, m) && Follows(m, later) && (m.mode == Stuck ==> later.mode == Stuck)
    requires m == ReadOne(r, c) && BoundedOne(r, m, c) && Bounded(m, later, rest) && KeepsQuotes(m, later, rest)
    requires m.words == r.words && r.word.Some? && m.word.Some? && InDouble(r) ==>
               && (InDouble(m) ==> Marks('\'', m.word.value) >= Marks('\'', r.word.value) + Marks('\'', [c]))
               && (!InDouble(m) && m.mode != Stuck ==>
                   Marks('"', m.word.value) < Marks('"', r.word.value) + Marks('"', [c]))
    ensures KeepsQuotes(r, later, [c] + rest)
  {
    MarksOf('"', [c], rest);
    MarksOf('\'', [c], rest);
    hide Marks, Run;
  }

  /** Between double quotes the quotes around the text become part of the word. */
  lemma DoubleAddsQuotes(r: Reader, s: string)
    requires r.mode == Double && r.word.Some?
    ensures Run(r, ShellQuote(s)) != Append(r, s)
  {
    var w := r.word.value;
    var open := Step(r, '\'');
    var inside := Run(open, Body(s));
    QuotedSteps(r, s);
    BodyKeepsQuotes(open, s);
    BodyBounded(open, s);
    RunFollows(open, Body(s));
    MarksOf('\'', w, "'");
    MarksOf('"', w, "'");
    MarksOf('\'', w, s);
    MarksOf('"', w, s);
    NoMarks('"', "'");
    NoMarks('"', "\\'");
    ThreeQuotes();
    if inside.word.Some? {
      MarksOf('\'', inside.word.value, "'");
      MarksOf('\'', inside.word.value, "\\'");
      MarksOf('"', inside.word.value, "'");
      MarksOf('"', inside.word.value, "\\'");
      MarksOf('\'', "\\", "'");
      assert "\\" + "'" == "\\'";
    }
    assert open == Append(r, "'");
    hide Run, Body, Marks;
  }

  // ---------- Everywhere ----------

  /** Exactly where a quoted text adds just its characters to the word and leaves the reader
      where it was: outside quotes, or between single quotes if all its characters are plain;
      never between double quotes or after a backslash. */
  lemma ReadsAsItselfIff(r: Reader, s: string)
    requires r.mode == Single || r.mode == Double ==> r.word.Some?
    requires r.mode != Stuck
    ensures Run(r, ShellQuote(s)) == Append(r, s) <==> ReadsAsItself(r, s)
  {
    if ReadsAsItself(r, s) {
      SafeTextReads(r, s);
    } else {
      QuotedSteps(r, s);
      var open := Step(r, '\'');
      if r.mode == Single {
        BodyOutsideQuotes(open, s);
        RunFollows(open, Body(s));
        SingleEnds(r, s, Run(open, Body(s)));
      } else if r.mode == Double {
        DoubleAddsQuotes(r, s);
      } else {
        NeverEscaped(Run(open, Body(s)));
      }
    }
  }

  lemma NeverEscaped(inside: Reader)
    ensures Step(inside, '\'').mode != Escaped && Step(inside, '\'').mode != DoubleEscaped
  {
  }

  lemma SingleEnds(r: Reader, s: string, inside: Reader)
    requires r.mode == Single && r.word.Some? && inside != Append(r.(mode := Bare), s)
    requires inside.words == r.words ==> inside.word.Some?
    ensures Step(inside, '\'') != Append(r, s)
  {
    if inside.mode == Bare && inside.word.Some? {
      AppendNothing(inside);
    }
  }

  // ---------- What stays inside double quotes ----------

  /** The reader never leaves the double quotes. */
  predicate Stays(r: Reader, t: string)
    decreases |t|
  {
    InDouble(r) && (t == "" || Stays(Step(r, t[0]), t[1..]))
  }

  /** The text has no double quote, dollar sign or backquote but after a backslash that is not
      itself escaped. */
  predicate Inert(escaped: bool, s: string)
    decreases |s|
  {
    if s == "" then true
    else if escaped then Inert(false, s[1..])
    else s[0] !in "\"$`" && Inert(s[0] == '\\', s[1..])
  }

  /** Written between double quotes, a string argument stays between them if and only if it is
      inert: otherwise a character of it ends the quotes or is expanded. */
  lemma {:induction false} StaysIff(r: Reader, s: string)
    requires InDouble(r)
    ensures Stays(r, Body(s) + "'") <==> Inert(r.mode == DoubleEscaped, s)
    decreases |s|
  {
    hide Body;
    if s == "" {
      EmptyBody(r);
      assert Body(s) + "'" == "'" && "'"[1..] == "";
      assert Stays(Step(r, '\''), "");
    } else {
      var rest := Body(s[1..]) + "'";
      BodyStep(s);
      if s[0] == '\'' {
        assert Body(s) + "'" == QUOTE + rest;
        StaysThroughQuote(r, rest);
        QuoteSteps(r);
        StaysIff(r.(mode := Double), s[1..]);
        SameStays(Run(r, QUOTE), r.(mode := Double), rest);
      } else {
        assert Body(s) + "'" == [s[0]] + rest && ([s[0]] + rest)[1..] == rest;
        var m := Step(r, s[0]);
        if InDouble(m) {
          StaysIff(m, s[1..]);
        }
      }
    }
  }

  /** Whether the reader stays depends on its mode alone. */
  lemma {:induction false} SameStays(a: Reader, b: Reader, t: string)
    requires a.mode == b.mode
    ensures Stays(a, t) <==> Stays(b, t)
    decreases |t|
  {
    if t != "" && InDouble(a) {
      SameStays(Step(a, t[0]), Step(b, t[0]), t[1..]);
    }
  }

  lemma StaysThroughQuote(r: Reader, rest: string)
    requires InDouble(r)
    ensures Run(r, QUOTE).mode == Double && (Stays(r, QUOTE + rest) <==> Stays(Run(r, QUOTE), rest))
  {
    QuoteSteps(r);
    var r1 := Step(r, '\'');
    var r2 := Step(r1, '\\');
    var r3 := Step(r2, '\'');
    var r4 := Step(r3, '\'');
    var t := QUOTE + rest;
    assert t[0] == '\'' && t[1..][0] == '\\' && t[1..][1..][0] == '\'' && t[1..][1..][1..][0] == '\'';
    assert t[1..][1..][1..][1..] == rest;
    assert Stays(r, t) <==> Stays(r1, t[1..]);
    assert Stays(r1, t[1..]) <==> Stays(r2, t[1..][1..]);
    assert Stays(r2, t[1..][1..]) <==> Stays(r3, t[1..][1..][1..]);
    assert Stays(r3, t[1..][1..][1..]) <==> Stays(r4, t[1..][1..][1..][1..]);
  }

  /** The quoted text as a whole. */
  lemma QuotedStaysIff(r: Reader, s: string)
    requires r.mode == Double
    ensures Stays(r, ShellQuote(s)) <==> Inert(false, s)
  {
    var t := "'" + (Body(s) + "'");
    assert ShellQuote(s) == t && t[0] == '\'' && t[1..] == Body(s) + "'";
    StaysIff(Step(r, '\''), s);
    hide Body;
  }

  /** The template `"{{.x}}"` with a dollar sign in the value: what follows it is expanded. */
  lemma DollarInDoubleQuotes(name: string)
    ensures Run(START, "\"" + ShellQuote("$" + name)).mode == Stuck
  {
    var s := "$" + name;
    var open := Step(START, '"');
    assert ("\"" + ShellQuote(s))[0] == '"' && ("\"" + ShellQuote(s))[1..] == ShellQuote(s);
    QuotedSteps(open, s);
    var inside := Step(open, '\'');
    BodyStep(s);
    assert s[0] == '$' && s[1..] == name;
    var rest := Body(name);
    RunAppend(inside, "$", rest);
    assert "$"[0] == '$' && "$"[1..] == "";
    var stuck := Step(inside, '$');
    assert Run(inside, "$") == Run(stuck, "") == stuck;
    StuckStays(stuck, rest);
    assert Run(inside, Body(s)) == stuck;
  }
}
