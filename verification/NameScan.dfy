/** The passes that make a tool's base name (pkg/openapi/naming.go:46-73, 116-147) against one
    scan over the text: the letters and digits that are kept, and how many underscores stand
    between them. */
module NameScan {
  import opened Naming

  const CAPITALS := "ABCDEFGHIJKLMNOPQRSTUVWXYZ"
  const SMALL := "abcdefghijklmnopqrstuvwxyz"
  const DIGITS := "0123456789"

  predicate IsKept(c: char) {
    c in CAPITALS || c in SMALL || c in DIGITS
  }

  /** `d` is what becomes of the kept character `c`: a capital becomes the small letter at the
      same place of the alphabet if names are lower-cased. */
  predicate Becomes(c: char, d: char, lowercase: bool) {
    if lowercase && c in CAPITALS then exists i :: 0 <= i < 26 && CAPITALS[i] == c && SMALL[i] == d else d == c
  }

  /** A kept character and the number of underscores that the text before it comes to. */
  datatype Mark = Mark(c: char, gap: nat)

  /** Braces are skipped if they are deleted. Each underscore counts, and each slash if it is
      replaced; a run of other characters counts once. */
  function Scan(s: string, rules: SlugRules, gap: nat, inRun: bool): seq<Mark> {
    if s == "" then []
    else if IsKept(s[0]) then [Mark(s[0], gap)] + Scan(s[1..], rules, 0, false)
    else if rules.replaceBraces && (s[0] == '{' || s[0] == '}') then Scan(s[1..], rules, gap, inRun)
    else if s[0] == '_' || (rules.replaceSlashes && s[0] == '/') then Scan(s[1..], rules, gap + 1, false)
    else Scan(s[1..], rules, if inRun then gap else gap + 1, true)
  }

  function Underscores(n: nat): string {
    if n == 0 then "" else "_" + Underscores(n - 1)
  }

  /** The name is the marks, each behind its underscores, at most one if they are collapsed; the
      first has none. */
  ghost predicate Spells(name: string, marks: seq<Mark>, rules: SlugRules, first: bool) {
    if marks == [] then name == ""
    else
      var gap := if first then 0 else if rules.collapseSeparators && marks[0].gap > 1 then 1 else marks[0].gap;
      && |name| > gap && name[..gap] == Underscores(gap)
      && Becomes(marks[0].c, name[gap], rules.lowercase)
      && Spells(name[gap + 1..], marks[1..], rules, false)
  }

  // ---------- Characters ----------

  lemma Alphabet(i: nat)
    requires i < 26
    ensures CAPITALS[i] == 'A' + i as char && SMALL[i] == 'a' + i as char
  {
  }

  lemma IsCapital(c: char)
    ensures c in CAPITALS <==> IsUpper(c)
  {
    if IsUpper(c) {
      Alphabet(c as int - 65);
      assert CAPITALS[c as int - 65] == c;
    }
    if c in CAPITALS {
      var i :| 0 <= i < 26 && CAPITALS[i] == c;
      Alphabet(i);
    }
  }

  lemma IsSmall(c: char)
    ensures c in SMALL <==> Naming.IsLower(c)
  {
    if Naming.IsLower(c) {
      Alphabet(c as int - 97);
      assert SMALL[c as int - 97] == c;
    }
    if c in SMALL {
      var i :| 0 <= i < 26 && SMALL[i] == c;
      Alphabet(i);
    }
  }

  lemma IsFigure(c: char)
    ensures c in DIGITS <==> Naming.IsDigit(c)
  {
    if Naming.IsDigit(c) {
      Figure(c as int - 48);
      assert DIGITS[c as int - 48] == c;
    }
    if c in DIGITS {
      var i :| 0 <= i < 10 && DIGITS[i] == c;
      Figure(i);
    }
  }

  lemma Figure(i: nat)
    requires i < 10
    ensures DIGITS[i] == '0' + i as char
  {
  }

  lemma KeptIsWord(c: char)
    ensures IsKept(c) <==> IsWord(c) && c != '_'
  {
    IsCapital(c);
    IsSmall(c);
    IsFigure(c);
    hide CAPITALS, SMALL, DIGITS;
  }

  // ---------- Pass by pass ----------

  const RAW := SlugRules(false, false, false, false, false)

  /** The scan asks only whether braces are deleted and slashes replaced. */
  lemma {:induction false} ScanFlags(s: string, a: SlugRules, b: SlugRules, gap: nat, inRun: bool)
    requires a.replaceBraces == b.replaceBraces && a.replaceSlashes == b.replaceSlashes
    ensures Scan(s, a, gap, inRun) == Scan(s, b, gap, inRun)
    decreases |s|
  {
    hide IsKept;
    if s != "" {
      ScanFlags(s[1..], a, b, 0, false);
      ScanFlags(s[1..], a, b, gap, inRun);
      ScanFlags(s[1..], a, b, gap + 1, false);
      ScanFlags(s[1..], a, b, if inRun then gap else gap + 1, true);
    }
  }

  lemma RemoveBoth(s: string)
    requires s != ""
    ensures var t := s[1..];
            RemoveChar(RemoveChar(s, '{'), '}') ==
            if s[0] == '{' || s[0] == '}' then RemoveChar(RemoveChar(t, '{'), '}')
            else [s[0]] + RemoveChar(RemoveChar(t, '{'), '}')
  {
    var t := RemoveChar(s[1..], '{');
    assert ([s[0]] + t)[1..] == t;
    assert s[0] == '{' ==> RemoveChar(s, '{') == t by {
      assert "" + t == t;
    }
    assert "" + RemoveChar(t, '}') == RemoveChar(t, '}');
  }

  lemma BraceIsNotKept()
    ensures !IsKept('{') && !IsKept('}') && !IsKept('/') && !IsKept('_')
  {
    KeptIsWord('{');
    KeptIsWord('}');
    KeptIsWord('/');
    KeptIsWord('_');
  }

  lemma {:induction false} BracesPass(s: string, rules: SlugRules, gap: nat, inRun: bool)
    requires rules.replaceBraces
    ensures Scan(RemoveChar(RemoveChar(s, '{'), '}'), rules.(replaceBraces := false), gap, inRun) ==
            Scan(s, rules, gap, inRun)
    decreases |s|
  {
    BraceIsNotKept();
    hide IsKept, RemoveChar;
    if s == "" {
      NothingRemoved();
    } else {
      var t := RemoveChar(RemoveChar(s[1..], '{'), '}');
      RemoveBoth(s);
      assert ([s[0]] + t)[1..] == t;
      BracesPass(s[1..], rules, 0, false);
      BracesPass(s[1..], rules, gap, inRun);
      BracesPass(s[1..], rules, gap + 1, false);
      BracesPass(s[1..], rules, if inRun then gap else gap + 1, true);
    }
  }

  lemma NothingRemoved()
    ensures RemoveChar(RemoveChar("", '{'), '}') == ""
  {
  }

  lemma {:induction false} SlashesPass(s: string, rules: SlugRules, gap: nat, inRun: bool)
    requires !rules.replaceBraces && rules.replaceSlashes
    ensures Scan(ReplaceChar(s, '/', '_'), rules.(replaceSlashes := false), gap, inRun) == Scan(s, rules, gap, inRun)
    decreases |s|
  {
    BraceIsNotKept();
    hide IsKept;
    if s != "" {
      var t := ReplaceChar(s[1..], '/', '_');
      var c := if s[0] == '/' then '_' else s[0];
      assert ReplaceChar(s, '/', '_') == [c] + t && ([c] + t)[1..] == t;
      SlashesPass(s[1..], rules, 0, false);
      SlashesPass(s[1..], rules, gap + 1, false);
      SlashesPass(s[1..], rules, if inRun then gap else gap + 1, true);
    }
  }

  lemma {:induction false} SquashPass(s: string, gap: nat, inRun: bool, any: bool)
    ensures Scan(Squash(s, NotWord(), inRun), RAW, gap, any) == Scan(s, RAW, gap, inRun)
    decreases |s|
  {
    BraceIsNotKept();
    if s != "" {
      var c, t := s[0], s[1..];
      KeptIsWord(c);
      hide IsKept, IsWord;
      if IsWord(c) {
        var u := Squash(t, NotWord(), false);
        assert Squash(s, NotWord(), inRun) == [c] + u && ([c] + u)[1..] == u;
        SquashPass(t, 0, false, false);
        SquashPass(t, gap + 1, false, false);
      } else {
        var u := Squash(t, NotWord(), true);
        assert ("_" + u)[1..] == u && "" + u == u;
        assert Squash(s, NotWord(), inRun) == (if inRun then "" else "_") + u;
        SquashPass(t, gap, true, any);
        SquashPass(t, gap + 1, true, false);
      }
    }
  }

  /** Marks of the same gaps whose characters become the others'. */
  ghost predicate Lowered(marks: seq<Mark>, lower: seq<Mark>, lowercase: bool) {
    |lower| == |marks| && forall i :: 0 <= i < |marks| ==>
      lower[i].gap == marks[i].gap && Becomes(marks[i].c, lower[i].c, lowercase)
  }

  lemma LowerBecomes(c: char)
    requires IsKept(c)
    ensures Becomes(c, LowerChar(c), true) && IsKept(LowerChar(c))
  {
    IsCapital(c);
    if IsUpper(c) {
      var i := c as int - 65;
      Alphabet(i);
      assert CAPITALS[i] == c && SMALL[i] == LowerChar(c);
      assert LowerChar(c) in SMALL;
    }
  }

  lemma LowerOther(c: char)
    requires !IsKept(c)
    ensures LowerChar(c) == c
  {
    KeptIsWord(c);
  }

  lemma LoweredMore(marks: seq<Mark>, lower: seq<Mark>, c: char, d: char, gap: nat)
    requires Lowered(marks, lower, true) && Becomes(c, d, true)
    ensures Lowered([Mark(c, gap)] + marks, [Mark(d, gap)] + lower, true)
  {
    hide Becomes;
  }

  lemma LowerOne(c: char)
    ensures IsKept(LowerChar(c)) <==> IsKept(c)
    ensures IsKept(c) ==> Becomes(c, LowerChar(c), true)
    ensures !IsKept(c) ==> LowerChar(c) == c
  {
    if IsKept(c) {
      LowerBecomes(c);
    } else {
      LowerOther(c);
    }
  }

  lemma {:induction false} LowerPass(s: string, gap: nat, inRun: bool)
    ensures Lowered(Scan(s, RAW, gap, inRun), Scan(ToLower(s), RAW, gap, inRun), true)
    decreases |s|
  {
    hide IsKept, LowerChar, Becomes, Lowered;
    if s == "" {
      NothingLowered();
    } else {
      var c, t := s[0], s[1..];
      LowerOne(c);
      var u := ToLower(t);
      assert ToLower(s) == [LowerChar(c)] + u && ([LowerChar(c)] + u)[1..] == u;
      if IsKept(c) {
        LowerPass(t, 0, false);
        LoweredMore(Scan(t, RAW, 0, false), Scan(u, RAW, 0, false), c, LowerChar(c), gap);
      } else if c == '_' {
        LowerPass(t, gap + 1, false);
      } else {
        LowerPass(t, if inRun then gap else gap + 1, true);
      }
    }
  }

  lemma NothingLowered()
    ensures Lowered([], [], true)
  {
  }

  ghost predicate Collapsed(marks: seq<Mark>, few: seq<Mark>) {
    |few| == |marks| && forall i :: 0 <= i < |marks| ==>
      few[i].c == marks[i].c && few[i].gap == if marks[i].gap > 1 then 1 else marks[i].gap
  }

  lemma {:induction false} CollapsePass(s: string, gap: nat, few: nat)
    requires AllIn(s, IsWord) && few == if gap > 1 then 1 else gap
    ensures Collapsed(Scan(s, RAW, gap, false), Scan(Squash(s, Underscore(), gap > 0), RAW, few, false))
    decreases |s|
  {
    BraceIsNotKept();
    if s != "" {
      var c, t := s[0], s[1..];
      KeptIsWord(c);
      assert AllIn(t, IsWord) by {
        assert forall i :: 0 <= i < |t| ==> t[i] == s[i + 1];
      }
      assert IsWord(c);
      hide IsKept, IsWord, AllIn;
      if c == '_' {
        var u := Squash(t, Underscore(), true);
        assert ("_" + u)[1..] == u && "" + u == u;
        assert Squash(s, Underscore(), gap > 0) == (if gap > 0 then "" else "_") + u;
        CollapsePass(t, gap + 1, 1);
      } else {
        var u := Squash(t, Underscore(), false);
        assert Squash(s, Underscore(), gap > 0) == [c] + u && ([c] + u)[1..] == u;
        CollapsePass(t, 0, 0);
      }
    }
  }

  // ---------- Trimming ----------

  /** The same marks, but for the gap before the first. */
  predicate SameButFirst(a: seq<Mark>, b: seq<Mark>) {
    |a| == |b| && (a != [] ==> a[0].c == b[0].c && a[1..] == b[1..])
  }

  lemma {:induction false} TrimLeftPass(s: string, gap: nat, other: nat)
    requires AllIn(s, IsWord)
    ensures SameButFirst(Scan(s, RAW, gap, false), Scan(TrimLeft(s), RAW, other, false))
    decreases |s|
  {
    BraceIsNotKept();
    if s != "" {
      KeptIsWord(s[0]);
      assert IsWord(s[0]);
      hide IsKept, IsWord;
      if s[0] == '_' {
        assert forall i :: 0 <= i < |s[1..]| ==> s[1..][i] == s[i + 1];
        TrimLeftPass(s[1..], gap + 1, other);
      }
    }
  }

  lemma {:induction false} ScanTail(s: string, gap: nat)
    requires AllIn(s, IsWord)
    ensures Scan(s + "_", RAW, gap, false) == Scan(s, RAW, gap, false)
    decreases |s|
  {
    BraceIsNotKept();
    if s == "" {
      assert s + "_" == "_" && "_"[1..] == "";
      assert Scan("_", RAW, gap, false) == Scan("", RAW, gap + 1, false) == [];
    } else {
      var t := s[1..];
      KeptIsWord(s[0]);
      assert IsWord(s[0]);
      assert AllIn(t, IsWord) by {
        assert forall i :: 0 <= i < |t| ==> t[i] == s[i + 1];
      }
      hide IsKept, IsWord, AllIn;
      assert (s + "_")[0] == s[0] && (s + "_")[1..] == t + "_";
      ScanTail(t, 0);
      ScanTail(t, gap + 1);
    }
  }

  lemma {:induction false} TrimRightPass(s: string, gap: nat)
    requires AllIn(s, IsWord)
    ensures Scan(TrimRight(s), RAW, gap, false) == Scan(s, RAW, gap, false)
    decreases |s|
  {
    if s != "" && s[|s| - 1] == '_' {
      var init := s[..|s| - 1];
      assert s == init + "_";
      TrimRightPass(init, gap);
      ScanTail(init, gap);
      hide Scan;
    }
  }

  lemma AddUnderscore(n: nat, t: string)
    ensures |Underscores(n)| == n && Underscores(n + 1) + t == Underscores(n) + ("_" + t)
    ensures (Underscores(n) + t)[..n] == Underscores(n) && (Underscores(n) + t)[n..] == t
    decreases n
  {
    UnderscoresMore(n);
  }

  lemma {:induction false} UnderscoresMore(n: nat)
    ensures |Underscores(n)| == n && Underscores(n + 1) == Underscores(n) + "_"
  {
    if n > 0 {
      UnderscoresMore(n - 1);
      assert "_" + (Underscores(n - 1) + "_") == "_" + Underscores(n - 1) + "_";
    }
  }

  /** A text that ends in a kept character spells its own marks. */
  lemma {:induction false} SpellsItself(s: string, gap: nat)
    requires AllIn(s, IsWord) && s != "" && s[|s| - 1] != '_'
    ensures Spells(Underscores(gap) + s, Scan(s, RAW, gap, false), RAW, false)
    decreases |s|
  {
    hide *;
    var c, t := s[0], s[1..];
    assert s == [c] + t;
    WordTail(s);
    WordScans(s, gap);
    AddUnderscore(gap, s);
    AddUnderscore(gap, t);
    if c == '_' {
      SpellsItself(t, gap + 1);
    } else {
      var name := Underscores(gap) + s;
      assert name[gap] == c && name[gap + 1..] == t;
      if t == "" {
        NothingScanned();
      } else {
        SpellsItself(t, 0);
        NoUnderscores(t);
      }
      SpellsMore(name, c, gap, Scan(t, RAW, 0, false));
    }
  }

  lemma WordTail(s: string)
    requires AllIn(s, IsWord) && s != ""
    ensures AllIn(s[1..], IsWord) && IsWord(s[0])
  {
  }

  lemma WordScans(s: string, gap: nat)
    requires s != "" && IsWord(s[0])
    ensures Scan(s, RAW, gap, false) ==
            if s[0] == '_' then Scan(s[1..], RAW, gap + 1, false) else [Mark(s[0], gap)] + Scan(s[1..], RAW, 0, false)
  {
    KeptIsWord(s[0]);
    hide IsKept, IsWord;
  }

  lemma NothingScanned()
    ensures Spells("", Scan("", RAW, 0, false), RAW, false)
  {
  }

  lemma SpellsMore(name: string, c: char, gap: nat, marks: seq<Mark>)
    requires |name| > gap && name[..gap] == Underscores(gap) && name[gap] == c
    requires Spells(name[gap + 1..], marks, RAW, false)
    ensures Spells(name, [Mark(c, gap)] + marks, RAW, false)
  {
    hide Underscores;
    assert ([Mark(c, gap)] + marks)[1..] == marks;
  }

  lemma NoUnderscores(t: string)
    ensures Underscores(0) + t == t
  {
  }

  lemma PieceIsWord(s: string, k: nat, m: nat)
    requires AllIn(s, IsWord) && k <= m <= |s|
    ensures AllIn(s[k..m], IsWord) && AllIn(s[k..], IsWord) && AllIn(s[..m], IsWord)
  {
  }

  lemma LeftIsWord(e: string)
    requires AllIn(e, IsWord)
    ensures AllIn(TrimLeft(e), IsWord) && (TrimLeft(e) != "" ==> TrimLeft(e)[0] != '_')
  {
    TrimLeftFacts(e);
    var k :| 0 <= k <= |e| && TrimLeft(e) == e[k..];
    PieceIsWord(e, k, |e|);
  }

  lemma RightIsWord(e: string)
    requires AllIn(e, IsWord)
    ensures var name := TrimRight(e);
            AllIn(name, IsWord) && (name != "" ==> name[|name| - 1] != '_' && e != "" && name[0] == e[0])
  {
    TrimRightFacts(e);
    var m :| 0 <= m <= |e| && TrimRight(e) == e[..m];
    PieceIsWord(e, 0, m);
  }

  /** The trimmed text spells the marks of the whole, the first without its gap. */
  lemma TrimmedSpells(e: string)
    requires AllIn(e, IsWord)
    ensures Spells(TrimRight(TrimLeft(e)), Scan(e, RAW, 0, false), RAW, true)
  {
    var left := TrimLeft(e);
    var name := TrimRight(left);
    hide *;
    TrimLeftPass(e, 0, 0);
    LeftIsWord(e);
    TrimRightPass(left, 0);
    RightIsWord(left);
    if name != "" {
      FirstSpells(name, Scan(e, RAW, 0, false));
    } else {
      NothingSpells(Scan(e, RAW, 0, false));
    }
  }

  lemma NothingSpells(marks: seq<Mark>)
    requires SameButFirst(marks, Scan("", RAW, 0, false))
    ensures Spells("", marks, RAW, true)
  {
  }

  lemma FirstSpells(name: string, marks: seq<Mark>)
    requires AllIn(name, IsWord) && name != "" && name[0] != '_' && name[|name| - 1] != '_'
    requires SameButFirst(marks, Scan(name, RAW, 0, false))
    ensures Spells(name, marks, RAW, true)
  {
    KeptIsWord(name[0]);
    assert IsWord(name[0]);
    SpellsItself(name, 0);
    NoUnderscores(name);
    hide IsKept, IsWord, AllIn;
    assert Scan(name, RAW, 0, false)[0] == Mark(name[0], 0);
  }

  /** Spelling the marks that come out of lower-casing and collapsing is spelling the marks by
      the rules. */
  lemma {:induction false} SpellsByRules(name: string, marks: seq<Mark>, lower: seq<Mark>, few: seq<Mark>,
                                         rules: SlugRules,
                                         first: bool)
    requires Lowered(marks, lower, rules.lowercase)
    requires if rules.collapseSeparators then Collapsed(lower, few) else few == lower
    requires Spells(name, few, RAW, first)
    ensures Spells(name, marks, rules, first)
    decreases |marks|
  {
    if marks != [] {
      var gap := if first then 0 else few[0].gap;
      assert Becomes(few[0].c, name[gap], false) && few[0].c == lower[0].c;
      assert name[gap] == lower[0].c;
      SpellsByRules(name[gap + 1..], marks[1..], lower[1..], few[1..], rules, false);
    }
  }

  lemma SameLowered(marks: seq<Mark>)
    ensures Lowered(marks, marks, false)
  {
  }

  /** Tidying pass by pass spells what one scan finds. */
  lemma TidySpells(s: string, rules: SlugRules)
    ensures Spells(Tidy(s, rules), Scan(s, rules, 0, false), rules, true)
  {
    var a := if rules.replaceBraces then RemoveChar(RemoveChar(s, '{'), '}') else s;
    var b := if rules.replaceSlashes then ReplaceChar(a, '/', '_') else a;
    var c := Squash(b, NotWord(), false);
    var d := if rules.lowercase then ToLower(c) else c;
    var e := if rules.collapseSeparators then Squash(d, Underscore(), false) else d;
    assert Tidy(s, rules) == TrimRight(TrimLeft(e));
    hide *;
    var noBraces := rules.(replaceBraces := false);
    var neither := noBraces.(replaceSlashes := false);
    if rules.replaceBraces {
      BracesPass(s, rules, 0, false);
    } else {
      assert noBraces == rules;
    }
    if rules.replaceSlashes {
      SlashesPass(a, noBraces, 0, false);
    } else {
      assert neither == noBraces;
    }
    ScanFlags(b, neither, RAW, 0, false);
    RawFlags();
    SquashPass(b, 0, false, false);
    var marks := Scan(s, rules, 0, false);
    assert Scan(c, RAW, 0, false) == marks;
    var lower := Scan(d, RAW, 0, false);
    if rules.lowercase {
      LowerPass(c, 0, false);
    } else {
      SameLowered(marks);
    }
    SquashStep(b);
    LowerStep(c);
    CollapseStep(d);
    var few := Scan(e, RAW, 0, false);
    if rules.collapseSeparators {
      CollapsePass(d, 0, 0);
    }
    TrimmedSpells(e);
    SpellsByRules(Tidy(s, rules), marks, lower, few, rules, true);
  }

  lemma RawFlags()
    ensures RAW == SlugRules(false, false, false, false, false)
  {
  }
}
