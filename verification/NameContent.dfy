/** What a tool's base name keeps of the identifier it is made from (pkg/openapi/naming.go:46-147):
    its letters and digits, and what stood apart. */
module NameContent {
  import opened Naming
  import opened NameScan

  // ---------- Camel case ----------

  /** An underscore goes between the first two characters. */
  predicate BreaksFirst(s: string) {
    && |s| >= 2 && s[1] in CAPITALS
    && (s[0] in SMALL || s[0] in DIGITS || (s[0] in CAPITALS && |s| >= 3 && s[2] in SMALL))
  }

  function Breaks(s: string): string {
    if |s| < 2 then s else [s[0]] + (if BreaksFirst(s) then "_" else "") + Breaks(s[1..])
  }

  predicate EndsAcronym(s: string) {
    |s| >= 3 && AcronymEnd(s[0], s[1], s[2])
  }

  predicate StartsHump(s: string) {
    |s| >= 2 && Hump(s[0], s[1])
  }

  function Bar(b: bool): string {
    if b then "_" else ""
  }

  lemma Single(s: string)
    requires |s| == 1
    ensures SplitAcronyms(s) == s && SplitHumps(s) == s
  {
    assert SplitAcronyms(s[1..]) == "" && s == [s[0]] + "";
  }

  lemma RunTail(s: string)
    requires s != "" && IsUpper(s[0])
    ensures UpperRun(s) == UpperRun(s[1..]) + 1
  {
  }

  lemma MatchesFrom(s: string)
    requires AcronymMatch(s)
    ensures var k := UpperRun(s);
            if k == 2 then EndsAcronym(s) && !AcronymMatch(s[1..]) && !AcronymMatch(s[2..])
            else !EndsAcronym(s) && AcronymMatch(s[1..]) && UpperRun(s[1..]) == k - 1
  {
    RunTail(s);
    RunTail(s[1..]);
    assert s[1..][1..] == s[2..];
    if UpperRun(s) > 2 {
      assert IsUpper(s[2]);
    }
  }

  /** Matched from the left or not, an acronym's end is where the run of capitals gets its
      underscore. */
  lemma AcronymsBreak(s: string)
    requires |s| >= 2
    ensures SplitAcronyms(s) == [s[0]] + Bar(EndsAcronym(s)) + SplitAcronyms(s[1..])
  {
    AcronymsStep(s);
    if AcronymMatch(s) {
      MatchesFrom(s);
      if UpperRun(s) == 2 {
        PairBreaks(s);
      } else {
        LongRunBreaks(s);
      }
    } else {
      LoneRun(s);
      hide SplitAcronyms, AcronymMatch, UpperRun;
      assert !EndsAcronym(s);
    }
  }

  lemma Regroup(a: char, b: char, c: char, rest: string)
    ensures [a] + "_" + [b, c] + rest == [a] + "_" + ([b] + ([c] + rest))
  {
  }

  lemma PairBreaks(s: string)
    requires AcronymMatch(s) && UpperRun(s) == 2
    ensures EndsAcronym(s) && SplitAcronyms(s) == [s[0]] + "_" + SplitAcronyms(s[1..])
  {
    MatchesFrom(s);
    hide *;
    MatchLength(s);
    Regroup(s[0], s[1], s[2], SplitAcronyms(s[3..]));
    assert SplitAcronyms(s) == [s[0]] + "_" + [s[1], s[2]] + SplitAcronyms(s[3..]) by {
      AcronymsStep(s);
      assert s[..1] == [s[0]];
    }
    assert SplitAcronyms(s[1..]) == [s[1]] + SplitAcronyms(s[2..]) by {
      AcronymsStep(s[1..]);
      assert s[1..][1..] == s[2..];
    }
    assert SplitAcronyms(s[2..]) == [s[2]] + SplitAcronyms(s[3..]) by {
      AcronymsStep(s[2..]);
      assert s[2..][1..] == s[3..];
    }
  }

  lemma RunShift(s: string, k: nat, rest: string)
    requires 2 < k < |s|
    ensures var t := s[1..];
            [s[0]] + (t[..k - 2] + "_" + [t[k - 2], t[k - 1]] + rest) == s[..k - 1] + "_" + [s[k - 1], s[k]] + rest
  {
    var t := s[1..];
    assert s[..k - 1] == [s[0]] + t[..k - 2];
    assert [t[k - 2], t[k - 1]] == [s[k - 1], s[k]];
  }

  lemma LongRunBreaks(s: string)
    requires AcronymMatch(s) && UpperRun(s) > 2
    ensures !EndsAcronym(s) && SplitAcronyms(s) == [s[0]] + SplitAcronyms(s[1..])
  {
    MatchesFrom(s);
    hide *;
    MatchLength(s);
    var k := UpperRun(s);
    RunShift(s, k, SplitAcronyms(s[k + 1..]));
    assert s[1..][k..] == s[k + 1..];
    AcronymsStep(s[1..]);
    AcronymsStep(s);
  }

  lemma HumpsBreak(s: string)
    requires |s| >= 2
    ensures SplitHumps(s) == [s[0]] + Bar(StartsHump(s)) + SplitHumps(s[1..])
  {
    hide *;
    BarIs(StartsHump(s));
    if StartsHump(s) {
      HumpSplits(s);
      HumpGoesOn(s);
    } else {
      NoHumpSplits(s);
      assert [s[0]] + "" == [s[0]];
    }
  }

  lemma BarIs(b: bool)
    ensures Bar(b) == if b then "_" else ""
  {
  }

  lemma Associate(a: string, b: string, c: string)
    ensures a + b + c == a + (b + c)
  {
  }

  lemma HumpSplits(s: string)
    requires StartsHump(s)
    ensures SplitHumps(s) == [s[0]] + "_" + ([s[1]] + SplitHumps(s[2..]))
  {
    hide Hump;
    Associate([s[0]] + "_", [s[1]], SplitHumps(s[2..]));
  }

  lemma NoHumpSplits(s: string)
    requires s != "" && !StartsHump(s)
    ensures SplitHumps(s) == [s[0]] + SplitHumps(s[1..])
  {
    hide Hump;
  }

  lemma HumpGoesOn(s: string)
    requires StartsHump(s)
    ensures SplitHumps(s[1..]) == [s[1]] + SplitHumps(s[2..])
  {
    assert !StartsHump(s[1..]) && s[1..][1..] == s[2..];
    hide *;
    NoHumpSplits(s[1..]);
  }

  lemma FirstBreaks(s: string)
    requires |s| >= 2
    ensures BreaksFirst(s) <==> StartsHump(s) || EndsAcronym(s)
  {
    IsCapital(s[0]);
    IsCapital(s[1]);
    IsSmall(s[0]);
    IsFigure(s[0]);
    if |s| >= 3 {
      IsSmall(s[2]);
    }
    hide CAPITALS, SMALL, DIGITS;
  }

  lemma HumpsAfterBar(c: char, t: string)
    requires t != ""
    ensures SplitHumps([c] + "_" + t) == [c] + "_" + SplitHumps(t)
  {
    var u := "_" + t;
    assert [c] + "_" + t == [c] + u && ([c] + u)[1..] == u && u[1..] == t;
    HumpsBreak([c] + u);
    HumpsBreak(u);
  }

  /** The two passes put an underscore exactly where the breaks are. */
  lemma {:induction false} CamelBreaks(s: string)
    ensures ExpandCamel(s) == Breaks(s)
    decreases |s|
  {
    if |s| == 0 {
      assert SplitAcronyms(s) == "";
    } else if |s| == 1 {
      Single(s);
    } else {
      var t := s[1..];
      CamelBreaks(t);
      AcronymsBreak(s);
      FirstBreaks(s);
      AcronymsStart(t);
      var u := SplitAcronyms(t);
      hide SplitAcronyms, SplitHumps, BreaksFirst;
      if EndsAcronym(s) {
        HumpsAfterBar(s[0], u);
      } else {
        assert SplitAcronyms(s) == [s[0]] + u && ([s[0]] + u)[1..] == u;
        HumpsBreak([s[0]] + u);
        assert StartsHump([s[0]] + u) <==> StartsHump(s);
      }
    }
  }

  // ---------- Letters and digits ----------

  /** The text without everything but letters and digits. */
  function Letters(s: string): string {
    if s == "" then "" else (if IsKept(s[0]) then [s[0]] else "") + Letters(s[1..])
  }

  ghost predicate LettersBecome(s: string, name: string, lowercase: bool) {
    && |Letters(name)| == |Letters(s)|
    && forall i :: 0 <= i < |Letters(s)| ==> Becomes(Letters(s)[i], Letters(name)[i], lowercase)
  }

  lemma LettersStep(c: char, t: string)
    ensures Letters([c] + t) == (if IsKept(c) then [c] else "") + Letters(t)
  {
    assert ([c] + t)[1..] == t;
  }

  lemma {:induction false} LettersConcat(s: string, t: string)
    ensures Letters(s + t) == Letters(s) + Letters(t)
    decreases |s|
  {
    if s == "" {
      assert s + t == t;
    } else {
      assert (s + t)[1..] == s[1..] + t;
      LettersConcat(s[1..], t);
    }
  }

  lemma {:induction false} UnderscoreLetters(n: nat)
    ensures Letters(Underscores(n)) == "" && |Underscores(n)| == n
  {
    BraceIsNotKept();
    if n > 0 {
      UnderscoreLetters(n - 1);
      LettersStep('_', Underscores(n - 1));
    }
  }

  lemma {:induction false} ScanLetters(s: string, rules: SlugRules, gap: nat, inRun: bool)
    ensures var marks := Scan(s, rules, gap, inRun);
            && AllKept(marks) && |marks| == |Letters(s)|
            && forall i :: 0 <= i < |marks| ==> marks[i].c == Letters(s)[i]
    decreases |s|
  {
    hide IsKept;
    if s != "" {
      ScanLetters(s[1..], rules, 0, false);
      ScanLetters(s[1..], rules, gap, inRun);
      ScanLetters(s[1..], rules, gap + 1, false);
      ScanLetters(s[1..], rules, if inRun then gap else gap + 1, true);
    }
  }

  function GapOf(mark: Mark, rules: SlugRules, first: bool): nat {
    if first then 0 else if rules.collapseSeparators && mark.gap > 1 then 1 else mark.gap
  }

  lemma BecomesKept(c: char, d: char, lowercase: bool)
    requires IsKept(c) && Becomes(c, d, lowercase)
    ensures IsKept(d)
  {
  }

  predicate AllKept(marks: seq<Mark>) {
    marks != [] ==> IsKept(marks[0].c) && AllKept(marks[1..])
  }

  lemma SpellsStep(name: string, marks: seq<Mark>, rules: SlugRules, first: bool)
    requires Spells(name, marks, rules, first) && marks != [] && AllKept(marks)
    ensures var gap := GapOf(marks[0], rules, first);
            && |name| > gap && name[..gap] == Underscores(gap)
            && Becomes(marks[0].c, name[gap], rules.lowercase) && IsKept(name[gap])
            && Spells(name[gap + 1..], marks[1..], rules, false) && AllKept(marks[1..])
  {
    hide *;
    SpellsFirst(name, marks, rules, first);
    FirstKept(marks);
    BecomesKept(marks[0].c, name[GapOf(marks[0], rules, first)], rules.lowercase);
  }

  lemma FirstKept(marks: seq<Mark>)
    requires AllKept(marks) && marks != []
    ensures IsKept(marks[0].c) && AllKept(marks[1..])
  {
    hide IsKept;
  }

  lemma SpellsFirst(name: string, marks: seq<Mark>, rules: SlugRules, first: bool)
    requires Spells(name, marks, rules, first) && marks != []
    ensures var gap := GapOf(marks[0], rules, first);
            && |name| > gap && name[..gap] == Underscores(gap)
            && Becomes(marks[0].c, name[gap], rules.lowercase)
            && Spells(name[gap + 1..], marks[1..], rules, false)
  {
    hide Becomes, Underscores;
  }

  lemma MoreLetters(gap: nat, c: char, rest: string)
    requires IsKept(c)
    ensures Letters(Underscores(gap) + ([c] + rest)) == [c] + Letters(rest)
  {
    hide *;
    UnderscoreLetters(gap);
    LettersConcat(Underscores(gap), [c] + rest);
    LettersStep(c, rest);
  }

  /** Where the `n`-th mark stands in the name. */
  lemma {:induction false} SpelledAt(name: string, marks: seq<Mark>, rules: SlugRules, first: bool, n: nat)
    returns (i: nat)
    requires Spells(name, marks, rules, first) && n < |marks|
    requires AllKept(marks)
    ensures i < |name| && |Letters(name[..i])| == n
    ensures Becomes(marks[n].c, name[i], rules.lowercase)
    ensures Spells(name[i + 1..], marks[n + 1..], rules, false)
  {
    hide *;
    var gap := GapOf(marks[0], rules, first);
    SpellsStep(name, marks, rules, first);
    var rest := name[gap + 1..];
    UnderscoreLetters(gap);
    if n == 0 {
      i := gap;
    } else {
      var j := SpelledAt(rest, marks[1..], rules, false, n - 1);
      i := gap + 1 + j;
      MoreLetters(gap, name[gap], rest[..j]);
      assert name[..i] == Underscores(gap) + ([name[gap]] + rest[..j]);
      assert rest[j + 1..] == name[i + 1..] && marks[1..][n..] == marks[n + 1..];
    }
  }

  ghost predicate MarksBecome(marks: seq<Mark>, letters: string, lowercase: bool) {
    |letters| == |marks| && forall i :: 0 <= i < |marks| ==> Becomes(marks[i].c, letters[i], lowercase)
  }

  lemma NothingSpelled(name: string, rules: SlugRules, first: bool)
    requires Spells(name, [], rules, first)
    ensures MarksBecome([], Letters(name), rules.lowercase)
  {
  }

  lemma MoreBecomes(marks: seq<Mark>, d: char, letters: string, lowercase: bool)
    requires marks != [] && Becomes(marks[0].c, d, lowercase) && MarksBecome(marks[1..], letters, lowercase)
    ensures MarksBecome(marks, [d] + letters, lowercase)
  {
    hide Becomes;
    var all := [d] + letters;
    forall i | 0 <= i < |marks| ensures Becomes(marks[i].c, all[i], lowercase) {
      if i > 0 {
        assert marks[1..][i - 1] == marks[i] && all[i] == letters[i - 1];
      }
    }
  }

  lemma {:induction false} SpelledLetters(name: string, marks: seq<Mark>, rules: SlugRules, first: bool)
    requires Spells(name, marks, rules, first)
    requires AllKept(marks)
    ensures MarksBecome(marks, Letters(name), rules.lowercase)
    decreases |marks|
  {
    hide *;
    if marks == [] {
      NothingSpelled(name, rules, first);
    } else {
      var gap := GapOf(marks[0], rules, first);
      SpellsStep(name, marks, rules, first);
      var rest := name[gap + 1..];
      SpelledLetters(rest, marks[1..], rules, false);
      assert Letters(name) == [name[gap]] + Letters(rest) by {
        MoreLetters(gap, name[gap], rest);
        assert name == name[..gap] + ([name[gap]] + rest);
      }
      MoreBecomes(marks, name[gap], Letters(rest), rules.lowercase);
    }
  }

  lemma BreaksStep(s: string)
    requires |s| >= 2
    ensures Breaks(s) == [s[0]] + Bar(BreaksFirst(s)) + Breaks(s[1..])
  {
    hide BreaksFirst;
  }

  lemma BreaksShort(s: string)
    requires |s| < 2
    ensures Breaks(s) == s
  {
  }

  lemma BarLetters(c: char, b: bool, t: string)
    ensures Letters([c] + Bar(b) + t) == Letters([c]) + Letters(t)
  {
    BraceIsNotKept();
    assert Letters(Bar(b)) == "" by {
      if b {
        LettersStep('_', "");
        assert "_" == ['_'] + "";
      }
    }
    hide *;
    LettersConcat([c] + Bar(b), t);
    LettersConcat([c], Bar(b));
  }

  lemma {:induction false} BreaksLetters(s: string)
    ensures Letters(Breaks(s)) == Letters(s)
    decreases |s|
  {
    hide *;
    if |s| < 2 {
      BreaksShort(s);
    } else {
      BreaksStep(s);
      BreaksLetters(s[1..]);
      BarLetters(s[0], BreaksFirst(s), Breaks(s[1..]));
      assert Letters(s) == Letters([s[0]]) + Letters(s[1..]) by {
        LettersConcat([s[0]], s[1..]);
        assert s == [s[0]] + s[1..];
      }
    }
  }

  lemma TidyKeepsLetters(s: string, rules: SlugRules)
    ensures LettersBecome(s, Tidy(s, rules), rules.lowercase)
  {
    TidySpells(s, rules);
    ScanLetters(s, rules, 0, false);
    SpelledLetters(Tidy(s, rules), Scan(s, rules, 0, false), rules, true);
    hide Tidy, Becomes, Scan, Letters, Spells;
  }

  /** A sanitized name has the letters and digits of the identifier, in its order; a capital
      becomes the small letter of its place in the alphabet if names are lower-cased. */
  lemma NameKeepsLetters(id: string, rules: SlugRules)
    ensures LettersBecome(id, SanitizeIdentifier(id, rules), rules.lowercase)
  {
    hide Tidy, ExpandCamel, Breaks, LettersBecome;
    CamelBreaks(id);
    BreaksLetters(id);
    var s := if rules.expandCamelCase then Breaks(id) else id;
    TidyKeepsLetters(s, rules);
    SameLettersBecome(id, s, SanitizeIdentifier(id, rules), rules.lowercase);
  }

  lemma SameLettersBecome(s: string, t: string, name: string, lowercase: bool)
    requires Letters(s) == Letters(t) && LettersBecome(t, name, lowercase)
    ensures LettersBecome(s, name, lowercase)
  {
  }

  // ---------- What stands apart ----------

  predicate NoneKept(s: string) {
    forall k :: 0 <= k < |s| ==> !IsKept(s[k])
  }

  predicate Deleted(c: char, rules: SlugRules) {
    rules.replaceBraces && (c == '{' || c == '}')
  }

  predicate AllDeleted(s: string, rules: SlugRules) {
    forall k :: 0 <= k < |s| ==> Deleted(s[k], rules)
  }

  /** Behind `n` letters and digits `name` has what becomes of `c`, and then what becomes of
      `d`; between the two are only underscores, at most one if they are collapsed, and there
      are some if and only if the two are to stand `apart`. */
  ghost predicate StandsBehind(name: string, n: nat, c: char, d: char, apart: bool, rules: SlugRules) {
    exists i, j :: 0 <= i < j < |name| && |Letters(name[..i])| == n
      && Becomes(c, name[i], rules.lowercase) && Becomes(d, name[j], rules.lowercase)
      && (forall k :: i < k < j ==> name[k] == '_')
      && (rules.collapseSeparators ==> j <= i + 2)
      && (apart <==> j > i + 1)
  }

  lemma {:induction false} ScanBehind(a: string, t: string, rules: SlugRules, gap: nat, inRun: bool)
    returns (g: nat, r: bool)
    ensures var n := |Letters(a)|;
            var marks := Scan(a + t, rules, gap, inRun);
            n <= |marks| && marks[n..] == Scan(t, rules, g, r)
    decreases |a|
  {
    hide *;
    if a == "" {
      assert a + t == t;
      NoLetters();
      g, r := gap, inRun;
    } else {
      var s := a + t;
      assert s[1..] == a[1..] + t && s[0] == a[0];
      assert a == [a[0]] + a[1..];
      LettersStep(a[0], a[1..]);
      if IsKept(a[0]) {
        ScanKept(s, rules, gap, inRun);
        g, r := ScanBehind(a[1..], t, rules, 0, false);
        BehindOne(Mark(s[0], gap), Scan(s[1..], rules, 0, false), |Letters(a[1..])|);
      } else {
        var g1, r1 := ScanSkips(s, rules, gap, inRun);
        g, r := ScanBehind(a[1..], t, rules, g1, r1);
      }
    }
  }

  lemma NoLetters()
    ensures Letters("") == ""
  {
  }

  lemma BehindOne(mark: Mark, rest: seq<Mark>, n: nat)
    requires n <= |rest|
    ensures ([mark] + rest)[n + 1..] == rest[n..]
  {
  }

  lemma {:induction false} ScanBetween(m: string, d: char, b: string, rules: SlugRules, gap: nat, inRun: bool)
    requires NoneKept(m) && IsKept(d) && (inRun ==> gap > 0)
    ensures var marks := Scan(m + [d] + b, rules, gap, inRun);
            marks != [] && marks[0].c == d && (marks[0].gap > 0 <==> gap > 0 || !AllDeleted(m, rules))
    decreases |m|
  {
    hide *;
    var s := m + [d] + b;
    if m == "" {
      assert s == [d] + b && s[1..] == b;
      ScanKept(s, rules, gap, inRun);
      NothingDeleted(rules);
    } else {
      assert s[0] == m[0] && s[1..] == m[1..] + [d] + b;
      NoneKeptTail(m);
      DeletedTail(m, rules);
      var g, r := ScanSkips(s, rules, gap, inRun);
      ScanBetween(m[1..], d, b, rules, g, r);
    }
  }

  lemma ScanKept(s: string, rules: SlugRules, gap: nat, inRun: bool)
    requires s != "" && IsKept(s[0])
    ensures Scan(s, rules, gap, inRun) == [Mark(s[0], gap)] + Scan(s[1..], rules, 0, false)
  {
    hide IsKept;
  }

  lemma ScanSkips(s: string, rules: SlugRules, gap: nat, inRun: bool) returns (g: nat, r: bool)
    requires s != "" && !IsKept(s[0])
    ensures Scan(s, rules, gap, inRun) == Scan(s[1..], rules, g, r)
    ensures (inRun ==> gap > 0) ==> (r ==> g > 0) && (g > 0 <==> gap > 0 || !Deleted(s[0], rules))
  {
    hide IsKept;
    if Deleted(s[0], rules) {
      g, r := gap, inRun;
    } else if s[0] == '_' || (rules.replaceSlashes && s[0] == '/') {
      g, r := gap + 1, false;
    } else {
      g, r := if inRun then gap else gap + 1, true;
    }
  }

  lemma NothingDeleted(rules: SlugRules)
    ensures AllDeleted("", rules)
  {
  }

  lemma DeletedTail(m: string, rules: SlugRules)
    requires m != ""
    ensures AllDeleted(m, rules) <==> Deleted(m[0], rules) && AllDeleted(m[1..], rules)
  {
    assert m == [m[0]] + m[1..];
    hide Deleted;
  }

  lemma TwoMarks(a: string, c: char, m: string, d: char, b: string, rules: SlugRules)
    requires IsKept(c) && IsKept(d) && NoneKept(m)
    ensures var marks := Scan(a + [c] + m + [d] + b, rules, 0, false);
            var n := |Letters(a)|;
            && n + 1 < |marks| && marks[n].c == c && marks[n + 1].c == d
            && (marks[n + 1].gap > 0 <==> !AllDeleted(m, rules))
  {
    hide *;
    var t := m + [d] + b;
    var s := [c] + t;
    assert a + [c] + m + [d] + b == a + s;
    assert s[1..] == t;
    var marks := Scan(a + s, rules, 0, false);
    var n := |Letters(a)|;
    var g, r := ScanBehind(a, s, rules, 0, false);
    ScanKept(s, rules, g, r);
    ScanBetween(m, d, b, rules, 0, false);
    assert marks[n] == marks[n..][0] && marks[n + 1] == marks[n..][1];
  }

  lemma GapRange(mark: Mark, rules: SlugRules)
    ensures var gap := GapOf(mark, rules, false);
            (gap > 0 <==> mark.gap > 0) && (rules.collapseSeparators ==> gap <= 1)
  {
  }

  lemma MarksStand(s: string, rules: SlugRules, n: nat, apart: bool)
    requires n + 1 < |Scan(s, rules, 0, false)| && (Scan(s, rules, 0, false)[n + 1].gap > 0 <==> apart)
    ensures var marks := Scan(s, rules, 0, false);
            StandsBehind(Tidy(s, rules), n, marks[n].c, marks[n + 1].c, apart, rules)
  {
    hide *;
    var name := Tidy(s, rules);
    var marks := Scan(s, rules, 0, false);
    TidySpells(s, rules);
    ScanLetters(s, rules, 0, false);
    var i := SpelledAt(name, marks, rules, true, n);
    TwoSpelled(name, marks, rules, n, i);
    var j := i + 1 + GapOf(marks[n + 1], rules, false);
    GapRange(marks[n + 1], rules);
    StandsAt(name, n, marks[n].c, marks[n + 1].c, apart, rules, i, j);
  }

  lemma TidyStands(a: string, c: char, m: string, d: char, b: string, rules: SlugRules)
    requires IsKept(c) && IsKept(d) && NoneKept(m)
    ensures StandsBehind(Tidy(a + [c] + m + [d] + b, rules), |Letters(a)|, c, d, !AllDeleted(m, rules), rules)
  {
    var s := a + [c] + m + [d] + b;
    var n := |Letters(a)|;
    hide *;
    TwoMarks(a, c, m, d, b, rules);
    MarksStand(s, rules, n, !AllDeleted(m, rules));
  }

  lemma StandsAt(name: string, n: nat, c: char, d: char, apart: bool, rules: SlugRules, i: nat, j: nat)
    requires i < j < |name| && |Letters(name[..i])| == n
    requires Becomes(c, name[i], rules.lowercase) && Becomes(d, name[j], rules.lowercase)
    requires forall k :: i < k < j ==> name[k] == '_'
    requires rules.collapseSeparators ==> j <= i + 2
    requires apart <==> j > i + 1
    ensures StandsBehind(name, n, c, d, apart, rules)
  {
    hide Becomes, Letters;
  }

  lemma {:induction false} UnderscoreAt(n: nat, k: nat)
    requires k < n
    ensures |Underscores(n)| == n && Underscores(n)[k] == '_'
  {
    UnderscoreLetters(n);
    if k > 0 {
      UnderscoreAt(n - 1, k - 1);
    }
  }

  lemma TwoSpelled(name: string, marks: seq<Mark>, rules: SlugRules, n: nat, i: nat)
    requires n + 1 < |marks| && i < |name| && Spells(name[i + 1..], marks[n + 1..], rules, false)
    ensures var gap := GapOf(marks[n + 1], rules, false);
            var j := i + 1 + gap;
            && j < |name| && Becomes(marks[n + 1].c, name[j], rules.lowercase)
            && (forall k :: i < k < j ==> name[k] == '_')
  {
    var rest := name[i + 1..];
    var gap := GapOf(marks[n + 1], rules, false);
    hide Becomes;
    assert marks[n + 1..][0] == marks[n + 1];
    assert rest[..gap] == Underscores(gap);
    forall k | i < k < i + 1 + gap ensures name[k] == '_' {
      UnderscoreAt(gap, k - i - 1);
      assert name[k] == rest[..gap][k - i - 1];
    }
  }

  lemma {:induction false} BreaksTail(a: string, t: string) returns (b: string)
    requires t != ""
    ensures Breaks(a + t) == b + Breaks(t) && Letters(b) == Letters(a)
    decreases |a|
  {
    hide *;
    if a == "" {
      b := "";
      assert a + t == t && "" + Breaks(t) == Breaks(t);
    } else {
      var rest := BreaksTail(a[1..], t);
      var s := a + t;
      var front := [a[0]] + Bar(BreaksFirst(s));
      assert Breaks(s) == front + Breaks(a[1..] + t) by {
        assert s[1..] == a[1..] + t && s[0] == a[0];
        BreaksStep(s);
      }
      b := front + rest;
      assert Breaks(s) == b + Breaks(t);
      BarLetters(a[0], BreaksFirst(s), rest);
      assert Letters(a) == Letters([a[0]]) + Letters(a[1..]) by {
        LettersConcat([a[0]], a[1..]);
        assert a == [a[0]] + a[1..];
      }
    }
  }

  lemma {:induction false} BreaksOver(x: char, m: string, d: char, b: string)
    requires NoneKept(m) && (m == "" ==> !IsKept(x))
    ensures Breaks([x] + m + [d] + b) == [x] + m + Breaks([d] + b)
    decreases |m|
  {
    hide *;
    var s := [x] + m + [d] + b;
    if m == "" {
      assert s[1..] == [d] + b && [x] + m == [x];
      BreaksBeside(s);
    } else {
      NoneKeptTail(m);
      BreaksOver(m[0], m[1..], d, b);
      assert m == [m[0]] + m[1..];
      assert s[1..] == m + [d] + b && s[1] == m[0];
      BreaksBeside(s);
      assert [x] + (m + Breaks([d] + b)) == [x] + m + Breaks([d] + b);
    }
  }

  lemma NoneKeptTail(m: string)
    requires NoneKept(m) && m != ""
    ensures NoneKept(m[1..]) && !IsKept(m[0])
  {
    hide IsKept;
  }

  lemma BreaksBeside(s: string)
    requires |s| >= 2 && (!IsKept(s[0]) || !IsKept(s[1]))
    ensures Breaks(s) == [s[0]] + Breaks(s[1..])
  {
    assert !BreaksFirst(s);
    hide *;
    BreaksStep(s);
    assert [s[0]] + Bar(false) == [s[0]];
  }

  lemma BreaksHead(d: char, b: string) returns (rest: string)
    ensures Breaks([d] + b) == [d] + rest
  {
    hide *;
    var s := [d] + b;
    if |s| >= 2 {
      BreaksStep(s);
      rest := Bar(BreaksFirst(s)) + Breaks(s[1..]);
      assert [d] + rest == [d] + Bar(BreaksFirst(s)) + Breaks(s[1..]);
    } else {
      rest := "";
      BreaksShort(s);
      assert s == [d] + rest;
    }
  }

  /** Two letters or digits of an identifier with nothing of the kind between them are next to
      each other in the name, too. They stand apart there exactly if something other than
      deleted braces stood between them, or camel case breaks there. */
  lemma NameKeepsApart(a: string, c: char, m: string, d: char, b: string, rules: SlugRules)
    requires IsKept(c) && IsKept(d) && NoneKept(m)
    ensures StandsBehind(SanitizeIdentifier(a + [c] + m + [d] + b, rules), |Letters(a)|, c, d,
              !AllDeleted(m, rules) || (rules.expandCamelCase && m == "" && BreaksFirst([c, d] + b)), rules)
  {
    hide *;
    var id := a + [c] + m + [d] + b;
    if rules.expandCamelCase {
      var before, bar, behind := BreaksAround(a, c, m, d, b);
      BarBetween(m, bar, rules);
      TidyStands(before, c, m + bar, d, behind, rules);
      CamelBreaks(id);
      SanitizedBroken(id, rules);
    } else {
      TidyStands(a, c, m, d, b, rules);
      SanitizedWhole(id, rules);
    }
  }

  lemma BreaksAround(a: string, c: char, m: string, d: char, b: string)
    returns (before: string, bar: string, behind: string)
    requires NoneKept(m)
    ensures Breaks(a + [c] + m + [d] + b) == before + [c] + (m + bar) + [d] + behind
    ensures Letters(before) == Letters(a)
    ensures bar == if m == "" && BreaksFirst([c, d] + b) then "_" else ""
  {
    hide *;
    var t := [c] + m + [d] + b;
    bar := if m == "" && BreaksFirst([c, d] + b) then "_" else "";
    before := BreaksTail(a, t);
    behind := BreaksHead(d, b);
    assert Breaks(a + [c] + m + [d] + b) == before + Breaks(t) by {
      assert a + [c] + m + [d] + b == a + t;
    }
    assert Breaks(t) == [c] + (m + bar) + ([d] + behind) by {
      BrokenBetween(c, m, d, b);
    }
  }

  lemma SanitizedWhole(id: string, rules: SlugRules)
    requires !rules.expandCamelCase
    ensures SanitizeIdentifier(id, rules) == Tidy(id, rules)
  {
  }

  lemma SanitizedBroken(id: string, rules: SlugRules)
    requires rules.expandCamelCase && ExpandCamel(id) == Breaks(id)
    ensures SanitizeIdentifier(id, rules) == Tidy(Breaks(id), rules)
  {
  }

  lemma BrokenBetween(c: char, m: string, d: char, b: string)
    requires NoneKept(m)
    ensures Breaks([c] + m + [d] + b) ==
            [c] + (m + if m == "" && BreaksFirst([c, d] + b) then "_" else "") + Breaks([d] + b)
  {
    var s := [c] + m + [d] + b;
    if m == "" {
      assert s == [c, d] + b && s[1..] == [d] + b;
      hide BreaksFirst;
      assert m + Bar(BreaksFirst(s)) == Bar(BreaksFirst(s));
    } else {
      BreaksOver(c, m, d, b);
      assert m + "" == m;
    }
  }

  lemma BarBetween(m: string, bar: string, rules: SlugRules)
    requires NoneKept(m) && (bar == "" || (bar == "_" && m == ""))
    ensures NoneKept(m + bar) && (AllDeleted(m + bar, rules) <==> AllDeleted(m, rules) && bar == "")
  {
    BraceIsNotKept();
    hide IsKept;
    if bar == "" {
      assert m + bar == m;
    } else {
      assert m + bar == "_" && "_"[0] == '_';
    }
  }

  // ---------- Names from paths ----------

  /** The word that a slug starts with. */
  ghost predicate VerbOf(verb: string, httpMethod: string, hasPathParams: bool) {
    && (httpMethod == "GET" ==> verb == if hasPathParams then "get" else "list")
    && (httpMethod == "POST" ==> verb == "create")
    && (httpMethod == "PUT" ==> verb == "update")
    && (httpMethod == "DELETE" ==> verb == "delete")
    && (httpMethod == "PATCH" ==> verb == "patch")
    && (httpMethod !in ["GET", "POST", "PUT", "DELETE", "PATCH"] ==> SpelledSmall(httpMethod, verb))
  }

  ghost predicate SpelledSmall(s: string, t: string) {
    |t| == |s| && forall i :: 0 <= i < |s| ==> Becomes(s[i], t[i], true)
  }

  lemma VerbFacts(httpMethod: string, hasPathParams: bool)
    ensures VerbOf(SlugVerb(httpMethod, hasPathParams), httpMethod, hasPathParams)
  {
    LowerSpells(httpMethod);
    hide SpelledSmall, ToLower;
  }

  lemma LowerSpells(s: string)
    ensures SpelledSmall(s, ToLower(s))
  {
    ToLowerFacts(s);
    forall i | 0 <= i < |s| ensures Becomes(s[i], ToLower(s)[i], true) {
      LowerIsSmall(s[i]);
    }
  }

  lemma LowerIsSmall(c: char)
    ensures Becomes(c, LowerChar(c), true)
  {
    LowerOne(c);
  }

  function Stripped(path: string): string {
    if path != "" && path[0] == '/' then path[1..] else path
  }

  lemma SlugParts(httpMethod: string, path: string, hasPathParams: bool, rules: SlugRules)
    ensures Slugify(httpMethod, path, hasPathParams, rules) ==
            SlugVerb(httpMethod, hasPathParams) + "_" + Tidy(Stripped(path), rules)
  {
  }

  lemma StrippedLetters(path: string)
    ensures Letters(Stripped(path)) == Letters(path)
  {
    BraceIsNotKept();
    hide IsKept;
  }

  /** A slug is the verb, an underscore, and the letters and digits of the path. */
  lemma SlugKeepsLetters(httpMethod: string, path: string, hasPathParams: bool, rules: SlugRules)
    ensures exists verb, name :: Slugify(httpMethod, path, hasPathParams, rules) == verb + "_" + name
              && VerbOf(verb, httpMethod, hasPathParams) && LettersBecome(path, name, rules.lowercase)
  {
    hide *;
    SlugParts(httpMethod, path, hasPathParams, rules);
    VerbFacts(httpMethod, hasPathParams);
    StrippedLetters(path);
    TidyKeepsLetters(Stripped(path), rules);
    SameLettersBecome(path, Stripped(path), Tidy(Stripped(path), rules), rules.lowercase);
  }

  lemma StripFront(a: string, c: char, rest: string)
    requires IsKept(c)
    ensures Stripped(a + [c] + rest) == Stripped(a) + [c] + rest
  {
    BraceIsNotKept();
    hide IsKept;
    var s := a + [c] + rest;
    if a == "" {
      assert s == [c] + rest && s[0] == c;
    } else {
      assert s[0] == a[0] && s[1..] == a[1..] + [c] + rest;
    }
  }

  /** In a slug, too, letters and digits stand apart exactly if something other than deleted
      braces stood between them in the path. */
  lemma SlugKeepsApart(httpMethod: string, a: string, c: char, m: string, d: char, b: string, hasPathParams: bool,
                       rules: SlugRules)
    requires IsKept(c) && IsKept(d) && NoneKept(m)
    ensures exists verb, name :: Slugify(httpMethod, a + [c] + m + [d] + b, hasPathParams, rules) == verb + "_" + name
              && VerbOf(verb, httpMethod, hasPathParams)
              && StandsBehind(name, |Letters(a)|, c, d, !AllDeleted(m, rules), rules)
  {
    hide *;
    var path := a + [c] + m + [d] + b;
    SlugParts(httpMethod, path, hasPathParams, rules);
    VerbFacts(httpMethod, hasPathParams);
    StrippedLetters(a);
    assert Stripped(path) == Stripped(a) + [c] + m + [d] + b by {
      var rest := m + [d] + b;
      assert path == a + [c] + rest;
      StripFront(a, c, rest);
      assert Stripped(a) + [c] + rest == Stripped(a) + [c] + m + [d] + b;
    }
    TidyStands(Stripped(a), c, m, d, b, rules);
  }
}
