/** Tool base names (pkg/openapi/naming.go): the regular-expression passes as the
    leftmost-greedy rewrites they are, and what their composition guarantees. */
module Naming {

  datatype SlugRules = SlugRules(replaceSlashes: bool, replaceBraces: bool, lowercase: bool,
                                 collapseSeparators: bool, expandCamelCase: bool)

  predicate IsUpper(c: char) { 'A' <= c <= 'Z' }

  predicate IsLower(c: char) { 'a' <= c <= 'z' }

  predicate IsDigit(c: char) { '0' <= c <= '9' }

  predicate IsWord(c: char) { IsUpper(c) || IsLower(c) || IsDigit(c) || c == '_' }

  // ---------- The passes ----------

  /** How many upper-case letters `s` starts with. */
  function UpperRun(s: string): (n: nat)
    ensures n <= |s| && (forall i :: 0 <= i < n ==> IsUpper(s[i])) && (n < |s| ==> !IsUpper(s[n]))
  {
    if s == "" || !IsUpper(s[0]) then 0 else 1 + UpperRun(s[1..])
  }

  /** A match of `([A-Z]+)([A-Z][a-z])` at the start of `s`: the greedy run takes all but
      the last letter of a run of capitals that a lower-case letter follows. */
  predicate AcronymMatch(s: string) {
    var k := UpperRun(s);
    2 <= k < |s| && IsLower(s[k])
  }

  function SplitAcronyms(s: string): string
    decreases |s|
  {
    if s == "" then ""
    else if AcronymMatch(s) then
      var k := UpperRun(s);
      s[..k - 1] + "_" + [s[k - 1], s[k]] + SplitAcronyms(s[k + 1..])
    else [s[0]] + SplitAcronyms(s[1..])
  }

  predicate Hump(a: char, b: char) { (IsLower(a) || IsDigit(a)) && IsUpper(b) }

  predicate AcronymEnd(a: char, b: char, c: char) { IsUpper(a) && IsUpper(b) && IsLower(c) }

  /** The pass for `([a-z0-9])([A-Z])`. */
  function SplitHumps(s: string): string
    decreases |s|
  {
    if s == "" then ""
    else if |s| >= 2 && Hump(s[0], s[1]) then [s[0]] + "_" + [s[1]] + SplitHumps(s[2..])
    else [s[0]] + SplitHumps(s[1..])
  }

  function ExpandCamel(s: string): string {
    SplitHumps(SplitAcronyms(s))
  }

  function RemoveChar(s: string, c: char): string {
    if s == "" then "" else (if s[0] == c then "" else [s[0]]) + RemoveChar(s[1..], c)
  }

  function ReplaceChar(s: string, c: char, d: char): string {
    if s == "" then "" else [if s[0] == c then d else s[0]] + ReplaceChar(s[1..], c, d)
  }

  /** Replaces each maximal run of characters in `p` by one underscore; `inRun` says that
      the run has already been replaced. */
  function Squash(s: string, p: char -> bool, inRun: bool): string {
    if s == "" then ""
    else if p(s[0]) then (if inRun then "" else "_") + Squash(s[1..], p, true)
    else [s[0]] + Squash(s[1..], p, false)
  }

  function NotWord(): char -> bool { c => !IsWord(c) }

  function Underscore(): char -> bool { c => c == '_' }

  function LowerChar(c: char): char {
    if IsUpper(c) then (c as int + 32) as char else c
  }

  function ToLower(s: string): string {
    if s == "" then "" else [LowerChar(s[0])] + ToLower(s[1..])
  }

  function TrimLeft(s: string): string {
    if s != "" && s[0] == '_' then TrimLeft(s[1..]) else s
  }

  function TrimRight(s: string): string {
    if s != "" && s[|s| - 1] == '_' then TrimRight(s[..|s| - 1]) else s
  }

  /** What follows the camel-case pass. */
  function Tidy(s: string, rules: SlugRules): string {
    var a := if rules.replaceBraces then RemoveChar(RemoveChar(s, '{'), '}') else s;
    var b := if rules.replaceSlashes then ReplaceChar(a, '/', '_') else a;
    var c := Squash(b, NotWord(), false);
    var d := if rules.lowercase then ToLower(c) else c;
    var e := if rules.collapseSeparators then Squash(d, Underscore(), false) else d;
    TrimRight(TrimLeft(e))
  }

  function SanitizeIdentifier(id: string, rules: SlugRules): string {
    Tidy(if rules.expandCamelCase then ExpandCamel(id) else id, rules)
  }

  function SlugVerb(httpMethod: string, hasPathParams: bool): string {
    if httpMethod == "GET" then (if hasPathParams then "get" else "list")
    else if httpMethod == "POST" then "create"
    else if httpMethod == "PUT" then "update"
    else if httpMethod == "DELETE" then "delete"
    else if httpMethod == "PATCH" then "patch"
    else ToLower(httpMethod)
  }

  /** The name made from an upper-case HTTP method and a path. */
  function Slugify(httpMethod: string, path: string, hasPathParams: bool, rules: SlugRules): string {
    SlugVerb(httpMethod, hasPathParams) + "_" + Tidy(if path != "" && path[0] == '/' then path[1..] else path, rules)
  }

  // ---------- Camel case ----------

  /** `r` is `s` with some underscores put in. */
  predicate InsertsUnderscores(s: string, r: string)
    decreases |r|
  {
    if r == "" then s == ""
    else
      || (s != "" && s[0] == r[0] && InsertsUnderscores(s[1..], r[1..]))
      || (r[0] == '_' && InsertsUnderscores(s, r[1..]))
  }

  predicate NoHump(s: string) {
    |s| >= 2 ==> !Hump(s[0], s[1]) && NoHump(s[1..])
  }

  predicate NoAcronymEnd(s: string) {
    |s| >= 3 ==> !AcronymEnd(s[0], s[1], s[2]) && NoAcronymEnd(s[1..])
  }

  lemma {:induction false} InsertsSame(a: string, s: string, r: string)
    requires InsertsUnderscores(s, r)
    ensures InsertsUnderscores(a + s, a + r)
    decreases |a|
  {
    if a == "" {
      assert a + s == s && a + r == r;
    } else {
      InsertsSame(a[1..], s, r);
      assert (a + s)[1..] == a[1..] + s && (a + r)[1..] == a[1..] + r;
    }
  }

  lemma {:induction false} InsertsTransitive(s: string, r: string, t: string)
    requires InsertsUnderscores(s, r) && InsertsUnderscores(r, t)
    ensures InsertsUnderscores(s, t)
    decreases |t|
  {
    if t != "" {
      if r != "" && r[0] == t[0] && InsertsUnderscores(r[1..], t[1..]) {
        if s != "" && s[0] == r[0] && InsertsUnderscores(s[1..], r[1..]) {
          InsertsTransitive(s[1..], r[1..], t[1..]);
        } else {
          InsertsTransitive(s, r[1..], t[1..]);
        }
      } else {
        InsertsTransitive(s, r, t[1..]);
      }
    }
  }

  lemma InsertOne(a: string, b: string, r: string)
    requires InsertsUnderscores(b, r)
    ensures InsertsUnderscores(a + b, a + ("_" + r))
  {
    assert ("_" + r)[1..] == r;
    InsertsSame(a, b, "_" + r);
  }

  lemma AcronymsStep(s: string)
    requires s != ""
    ensures AcronymMatch(s) ==> UpperRun(s) >= 2 && UpperRun(s) < |s|
    ensures SplitAcronyms(s) ==
            if AcronymMatch(s) then
              s[..UpperRun(s) - 1] + "_" + [s[UpperRun(s) - 1], s[UpperRun(s)]] + SplitAcronyms(s[UpperRun(s) + 1..])
            else [s[0]] + SplitAcronyms(s[1..])
  {
    MatchLength(s);
  }

  lemma InsertBeforePair(a: string, pair: string, t: string, r: string)
    requires InsertsUnderscores(t, r)
    ensures InsertsUnderscores(a + pair + t, a + "_" + pair + r)
  {
    hide *;
    InsertsSame(pair, t, r);
    InsertOne(a, pair + t, pair + r);
    assert a + pair + t == a + (pair + t);
    assert a + "_" + pair + r == a + ("_" + (pair + r));
  }

  lemma {:induction false} AcronymsInsert(s: string)
    ensures InsertsUnderscores(s, SplitAcronyms(s))
    decreases |s|
  {
    if s != "" {
      AcronymsStep(s);
      hide *;
      if AcronymMatch(s) {
        var k := UpperRun(s);
        MatchLength(s);
        AcronymsInsert(s[k + 1..]);
        InsertBeforePair(s[..k - 1], [s[k - 1], s[k]], s[k + 1..], SplitAcronyms(s[k + 1..]));
        CutAround(s, k);
      } else {
        AcronymsInsert(s[1..]);
        InsertsSame([s[0]], s[1..], SplitAcronyms(s[1..]));
        assert s == [s[0]] + s[1..];
      }
    }
  }

  lemma MatchLength(s: string)
    ensures AcronymMatch(s) ==> 2 <= UpperRun(s) < |s|
  {
  }

  lemma CutAround(s: string, k: nat)
    requires 1 <= k < |s|
    ensures s == s[..k - 1] + [s[k - 1], s[k]] + s[k + 1..]
  {
  }

  lemma {:induction false} HumpsInsert(s: string)
    ensures InsertsUnderscores(s, SplitHumps(s))
    decreases |s|
  {
    if s != "" {
      if |s| >= 2 && Hump(s[0], s[1]) {
        var tail := [s[1]] + SplitHumps(s[2..]);
        HumpsInsert(s[2..]);
        InsertsSame([s[1]], s[2..], SplitHumps(s[2..]));
        assert s[1..] == [s[1]] + s[2..];
        assert ("_" + tail)[1..] == tail;
        assert InsertsUnderscores(s[1..], "_" + tail);
        InsertsSame([s[0]], s[1..], "_" + tail);
        assert s == [s[0]] + s[1..] && SplitHumps(s) == [s[0]] + ("_" + tail);
      } else {
        HumpsInsert(s[1..]);
        InsertsSame([s[0]], s[1..], SplitHumps(s[1..]));
        assert s == [s[0]] + s[1..];
      }
    }
  }

  /** The first character survives both passes, and so does the second unless an underscore
      was put before it. */
  lemma AcronymsStart(s: string)
    requires s != ""
    ensures SplitAcronyms(s) != "" && SplitAcronyms(s)[0] == s[0]
    ensures |SplitAcronyms(s)| >= 2 ==> |s| >= 2 && (SplitAcronyms(s)[1] == s[1] || SplitAcronyms(s)[1] == '_')
  {
    AcronymsStep(s);
    if !AcronymMatch(s) && |s| >= 2 {
      AcronymsStep(s[1..]);
    }
    hide SplitAcronyms;
  }

  lemma HumpsStart(s: string)
    requires s != ""
    ensures SplitHumps(s) != "" && SplitHumps(s)[0] == s[0]
    ensures |SplitHumps(s)| >= 2 ==> |s| >= 2 && SplitHumps(s)[1] == (if Hump(s[0], s[1]) then '_' else s[1])
  {
  }

  lemma {:induction false} NoAcronymEndAfter(a: string, s: string)
    requires NoAcronymEnd(s) && forall i :: 0 <= i < |a| ==> IsUpper(a[i])
    requires s != "" && s[0] == '_'
    ensures NoAcronymEnd(a + s)
    decreases |a|
  {
    if a == "" {
      assert a + s == s;
    } else {
      NoAcronymEndAfter(a[1..], s);
      assert (a + s)[1..] == a[1..] + s;
    }
  }

  lemma ConsAcronym(x: char, t: string)
    requires NoAcronymEnd(t) && (|t| >= 2 ==> !AcronymEnd(x, t[0], t[1]))
    ensures NoAcronymEnd([x] + t)
  {
    assert ([x] + t)[1..] == t;
  }

  lemma AcronymPiece(a: string, u: char, l: char, rest: string)
    requires NoAcronymEnd(rest) && IsLower(l) && forall i :: 0 <= i < |a| ==> IsUpper(a[i])
    ensures NoAcronymEnd(a + "_" + [u, l] + rest)
  {
    ConsAcronym(l, rest);
    ConsAcronym(u, [l] + rest);
    var t := [u] + ([l] + rest);
    ConsAcronym('_', t);
    NoAcronymEndAfter(a, ['_'] + t);
    assert a + "_" + [u, l] + rest == a + (['_'] + t);
  }

  lemma {:induction false} AcronymsAllSplit(s: string)
    ensures NoAcronymEnd(SplitAcronyms(s))
    decreases |s|
  {
    if s != "" {
      AcronymsStep(s);
      if AcronymMatch(s) {
        var k := UpperRun(s);
        AcronymsAllSplit(s[k + 1..]);
        hide SplitAcronyms, NoAcronymEnd;
        AcronymPiece(s[..k - 1], s[k - 1], s[k], SplitAcronyms(s[k + 1..]));
      } else {
        LoneRun(s);
        hide SplitAcronyms, NoAcronymEnd, UpperRun;
        var t := s[1..];
        AcronymsAllSplit(t);
        if t != "" {
          AcronymsStart(t);
        } else {
          assert |SplitAcronyms(t)| < 2 by { NothingSplit(t); }
        }
        ConsAcronym(s[0], SplitAcronyms(t));
      }
    }
  }

  lemma NothingSplit(t: string)
    requires t == ""
    ensures SplitAcronyms(t) == ""
  {
  }

  /** Where the pass does not match, no two capitals before a lower-case letter start. */
  lemma LoneRun(s: string)
    requires s != "" && !AcronymMatch(s)
    ensures |s| >= 3 ==> !AcronymEnd(s[0], s[1], s[2])
  {
  }

  lemma {:induction false} HumpsAllSplit(s: string)
    requires NoAcronymEnd(s)
    ensures NoHump(SplitHumps(s)) && NoAcronymEnd(SplitHumps(s))
    decreases |s|
  {
    if s != "" {
      if |s| >= 2 && Hump(s[0], s[1]) {
        var rest := SplitHumps(s[2..]);
        assert s[1..][1..] == s[2..];
        HumpsAllSplit(s[2..]);
        var u := [s[1]] + rest;
        assert u[1..] == rest;
        if s[2..] != "" {
          HumpsStart(s[2..]);
        }
        var t := "_" + u;
        assert t[1..] == u;
        var e := [s[0]] + t;
        assert e[1..] == t && SplitHumps(s) == e;
      } else {
        var t := s[1..];
        HumpsAllSplit(t);
        var e := [s[0]] + SplitHumps(t);
        assert e[1..] == SplitHumps(t);
        if t != "" {
          HumpsStart(t);
        }
      }
    }
  }

  /** Camel-case expansion only puts in underscores, and leaves no lower-case letter or
      digit before a capital and no two capitals before a lower-case letter. */
  lemma CamelExpansion(s: string)
    ensures InsertsUnderscores(s, ExpandCamel(s))
    ensures NoHump(ExpandCamel(s)) && NoAcronymEnd(ExpandCamel(s))
  {
    AcronymsInsert(s);
    HumpsInsert(SplitAcronyms(s));
    InsertsTransitive(s, SplitAcronyms(s), ExpandCamel(s));
    AcronymsAllSplit(s);
    HumpsAllSplit(SplitAcronyms(s));
  }

  lemma {:induction false} CamelIdentity(s: string)
    requires NoHump(s) && NoAcronymEnd(s)
    ensures SplitAcronyms(s) == s && SplitHumps(s) == s
    decreases |s|
  {
    if s != "" {
      CamelIdentity(s[1..]);
      var k := UpperRun(s);
      if k >= 2 && k < |s| {
        AcronymEndAt(s, k - 2);
      }
      assert s == [s[0]] + s[1..];
    }
  }

  lemma {:induction false} AcronymEndAt(s: string, i: nat)
    requires NoAcronymEnd(s) && i + 2 < |s|
    ensures !AcronymEnd(s[i], s[i + 1], s[i + 2])
  {
    if i > 0 {
      AcronymEndAt(s[1..], i - 1);
    }
  }

  // ---------- Tidying ----------

  predicate AllIn(s: string, p: char -> bool) {
    forall i :: 0 <= i < |s| ==> p(s[i])
  }

  predicate NoUpper(s: string) {
    forall i :: 0 <= i < |s| ==> !IsUpper(s[i])
  }

  predicate NoDouble(s: string) {
    |s| >= 2 ==> !(s[0] == '_' && s[1] == '_') && NoDouble(s[1..])
  }

  /** No camel-case break is left for another pass. */
  predicate Settled(s: string) {
    NoHump(s) && NoAcronymEnd(s)
  }

  lemma {:induction false} ReplaceCharFacts(s: string, c: char)
    requires !IsWord(c)
    ensures Settled(s) ==> Settled(ReplaceChar(s, c, '_'))
    ensures |ReplaceChar(s, c, '_')| == |s|
    ensures forall i :: 0 <= i < |s| ==> ReplaceChar(s, c, '_')[i] == s[i] || ReplaceChar(s, c, '_')[i] == '_'
  {
    if s != "" {
      ReplaceCharFacts(s[1..], c);
      var r := ReplaceChar(s, c, '_');
      assert r[1..] == ReplaceChar(s[1..], c, '_');
    }
  }

  lemma SquashStart(s: string, p: char -> bool)
    requires s != ""
    ensures var r := Squash(s, p, false); r != "" && r[0] == (if p(s[0]) then '_' else s[0])
    ensures var r := Squash(s, p, false); |r| >= 2 && !p(s[0]) ==> |s| >= 2 && r[1] == (if p(s[1]) then '_' else s[1])
    decreases |s|
  {
    var t := s[1..];
    if t != "" {
      SquashStart(t, p);
    }
    assert Squash(s, p, false) == (if p(s[0]) then "_" + Squash(t, p, true) else [s[0]] + Squash(t, p, false));
  }

  /** Squashing keeps text settled: characters that end up side by side, other than
      underscores, stood side by side before. */
  lemma {:induction false} SquashKeepsSettled(s: string, p: char -> bool, inRun: bool)
    requires Settled(s)
    ensures Settled(Squash(s, p, inRun))
    decreases |s|
  {
    if s != "" {
      var t := s[1..];
      var r := Squash(s, p, inRun);
      if p(s[0]) {
        SquashKeepsSettled(t, p, true);
        if !inRun {
          assert r[1..] == Squash(t, p, true);
        } else {
          assert r == Squash(t, p, true);
        }
      } else {
        SquashKeepsSettled(t, p, false);
        assert r[1..] == Squash(t, p, false);
        if t != "" {
          SquashStart(t, p);
        }
      }
    }
  }

  lemma {:induction false} SquashOutput(s: string, p: char -> bool, inRun: bool)
    ensures forall i :: 0 <= i < |Squash(s, p, inRun)| ==>
              Squash(s, p, inRun)[i] == '_' || (!p(Squash(s, p, inRun)[i]) && Squash(s, p, inRun)[i] in s)
    decreases |s|
  {
    if s != "" {
      SquashOutput(s[1..], p, true);
      SquashOutput(s[1..], p, false);
    }
  }

  lemma {:induction false} CollapseNoDouble(s: string, inRun: bool)
    ensures var r := Squash(s, Underscore(), inRun);
            NoDouble(r) && (inRun && r != "" ==> r[0] != '_')
    decreases |s|
  {
    if s != "" {
      var r := Squash(s, Underscore(), inRun);
      if s[0] == '_' {
        CollapseNoDouble(s[1..], true);
        assert r == (if inRun then "" else "_") + Squash(s[1..], Underscore(), true);
        if inRun {
          assert r == Squash(s[1..], Underscore(), true);
        } else {
          assert r[1..] == Squash(s[1..], Underscore(), true);
        }
      } else {
        CollapseNoDouble(s[1..], false);
        assert r[1..] == Squash(s[1..], Underscore(), false);
      }
    }
  }

  lemma {:induction false} SquashIdentity(s: string, p: char -> bool)
    requires AllIn(s, c => !p(c))
    ensures Squash(s, p, false) == s
  {
    if s != "" {
      SquashIdentity(s[1..], p);
      assert s == [s[0]] + s[1..];
    }
  }

  lemma {:induction false} CollapseIdentity(s: string, inRun: bool)
    requires NoDouble(s) && (inRun && s != "" ==> s[0] != '_')
    ensures Squash(s, Underscore(), inRun) == s
    decreases |s|
  {
    if s != "" {
      CollapseIdentity(s[1..], s[0] == '_');
      assert s == [s[0]] + s[1..];
    }
  }

  lemma {:induction false} ToLowerFacts(s: string)
    ensures |ToLower(s)| == |s| && forall i :: 0 <= i < |s| ==> ToLower(s)[i] == LowerChar(s[i])
  {
    if s != "" {
      ToLowerFacts(s[1..]);
    }
  }

  lemma {:induction false} TrimLeftFacts(s: string)
    ensures exists k :: 0 <= k <= |s| && TrimLeft(s) == s[k..]
    ensures TrimLeft(s) != "" ==> TrimLeft(s)[0] != '_'
  {
    if s != "" && s[0] == '_' {
      TrimLeftFacts(s[1..]);
      var k :| 0 <= k <= |s[1..]| && TrimLeft(s[1..]) == s[1..][k..];
      assert s[1..][k..] == s[k + 1..];
    } else {
      assert s == s[0..];
    }
  }

  lemma {:induction false} TrimRightFacts(s: string)
    ensures exists k :: 0 <= k <= |s| && TrimRight(s) == s[..k]
    ensures TrimRight(s) != "" ==> TrimRight(s)[|TrimRight(s)| - 1] != '_'
  {
    if s != "" && s[|s| - 1] == '_' {
      TrimRightFacts(s[..|s| - 1]);
      var k :| 0 <= k <= |s[..|s| - 1]| && TrimRight(s[..|s| - 1]) == s[..|s| - 1][..k];
      assert s[..|s| - 1][..k] == s[..k];
    } else {
      assert s == s[..|s|];
    }
  }

  lemma TailKeeps(s: string)
    requires s != ""
    ensures Settled(s) ==> Settled(s[1..])
    ensures NoDouble(s) ==> NoDouble(s[1..])
  {
  }

  lemma {:induction false} DropKeeps(s: string, k: nat)
    requires k <= |s|
    ensures Settled(s) ==> Settled(s[k..])
    ensures NoDouble(s) ==> NoDouble(s[k..])
    decreases k
  {
    hide *;
    if k > 0 {
      TailKeeps(s);
      DropKeeps(s[1..], k - 1);
      assert s[1..][k - 1..] == s[k..];
    } else {
      assert s[0..] == s;
    }
  }

  lemma {:induction false} TakeKeeps(s: string, k: nat)
    requires k <= |s|
    ensures Settled(s) ==> Settled(s[..k])
    ensures NoDouble(s) ==> NoDouble(s[..k])
    decreases |s|
  {
    if k > 0 {
      TakeKeeps(s[1..], k - 1);
      assert s[..k][1..] == s[1..][..k - 1];
    }
  }

  /** A trimmed text is a piece of the text, without underscores at its ends. */
  lemma TrimFacts(s: string)
    ensures var r := TrimRight(TrimLeft(s));
            && (forall i :: 0 <= i < |r| ==> r[i] in s)
            && (r != "" ==> r[0] != '_' && r[|r| - 1] != '_')
            && (Settled(s) ==> Settled(r)) && (NoDouble(s) ==> NoDouble(r))
  {
    hide *;
    TrimLeftFacts(s);
    var k :| 0 <= k <= |s| && TrimLeft(s) == s[k..];
    var t := TrimLeft(s);
    TrimRightFacts(t);
    var m :| 0 <= m <= |t| && TrimRight(t) == t[..m];
    DropKeeps(s, k);
    TakeKeeps(t, m);
    SliceOf(s, k, m);
  }

  lemma SliceOf(s: string, k: nat, m: nat)
    requires k <= |s| && m <= |s[k..]|
    ensures var r := s[k..][..m];
            (forall i :: 0 <= i < |r| ==> r[i] in s) && (r != "" ==> r[0] == s[k..][0])
  {
    var r := s[k..][..m];
    assert forall i :: 0 <= i < |r| ==> r[i] == s[k + i];
  }

  /** What a sanitized name looks like. */
  predicate Clean(s: string, rules: SlugRules) {
    && AllIn(s, IsWord)
    && (rules.lowercase ==> NoUpper(s))
    && (rules.collapseSeparators ==> NoDouble(s))
    && (s != "" ==> s[0] != '_' && s[|s| - 1] != '_')
  }

  lemma LowerSettled(s: string)
    requires NoUpper(s)
    ensures Settled(s)
    decreases |s|
  {
    if s != "" {
      LowerSettled(s[1..]);
    }
  }

  lemma {:induction false} RemoveIdentity(s: string, c: char)
    requires forall i :: 0 <= i < |s| ==> s[i] != c
    ensures RemoveChar(s, c) == s && ReplaceChar(s, c, '_') == s
  {
    if s != "" {
      RemoveIdentity(s[1..], c);
      assert s == [s[0]] + s[1..];
    }
  }

  lemma {:induction false} LowerIdentity(s: string)
    requires NoUpper(s)
    ensures ToLower(s) == s
  {
    if s != "" {
      LowerIdentity(s[1..]);
      assert s == [s[0]] + s[1..];
    }
  }

  /** Tidied text is clean, and settled if nothing can glue its parts together. */
  lemma TidyClean(s: string, rules: SlugRules)
    ensures Clean(Tidy(s, rules), rules)
    ensures Settled(s) && !rules.replaceBraces ==> Settled(Tidy(s, rules))
  {
    var a := if rules.replaceBraces then RemoveChar(RemoveChar(s, '{'), '}') else s;
    var b := if rules.replaceSlashes then ReplaceChar(a, '/', '_') else a;
    var c := Squash(b, NotWord(), false);
    var d := if rules.lowercase then ToLower(c) else c;
    var e := if rules.collapseSeparators then Squash(d, Underscore(), false) else d;
    assert Tidy(s, rules) == TrimRight(TrimLeft(e));
    hide *;
    ReplaceSlashStep(a);
    SquashStep(b);
    LowerStep(c);
    CollapseStep(d);
    TrimStep(e, rules);
  }

  lemma ReplaceSlashStep(a: string)
    ensures Settled(a) ==> Settled(ReplaceChar(a, '/', '_'))
  {
    ReplaceCharFacts(a, '/');
  }

  lemma SquashStep(b: string)
    ensures AllIn(Squash(b, NotWord(), false), IsWord)
    ensures Settled(b) ==> Settled(Squash(b, NotWord(), false))
  {
    SquashOutput(b, NotWord(), false);
    if Settled(b) {
      SquashKeepsSettled(b, NotWord(), false);
    }
  }

  lemma LowerStep(c: string)
    requires AllIn(c, IsWord)
    ensures AllIn(ToLower(c), IsWord) && NoUpper(ToLower(c)) && Settled(ToLower(c))
  {
    ToLowerFacts(c);
    LowerSettled(ToLower(c));
  }

  lemma CollapseStep(d: string)
    requires AllIn(d, IsWord)
    ensures var e := Squash(d, Underscore(), false);
            && AllIn(e, IsWord) && NoDouble(e)
            && (NoUpper(d) ==> NoUpper(e)) && (Settled(d) ==> Settled(e))
  {
    SquashOutput(d, Underscore(), false);
    CollapseNoDouble(d, false);
    if Settled(d) {
      SquashKeepsSettled(d, Underscore(), false);
    }
  }

  lemma TrimStep(e: string, rules: SlugRules)
    requires AllIn(e, IsWord) && (rules.lowercase ==> NoUpper(e)) && (rules.collapseSeparators ==> NoDouble(e))
    ensures Clean(TrimRight(TrimLeft(e)), rules)
    ensures Settled(e) ==> Settled(TrimRight(TrimLeft(e)))
  {
    TrimFacts(e);
  }

  lemma TidyIdentity(s: string, rules: SlugRules)
    requires Clean(s, rules)
    ensures Tidy(s, rules) == s
  {
    RemoveIdentity(s, '{');
    RemoveIdentity(s, '}');
    RemoveIdentity(s, '/');
    SquashIdentity(s, NotWord());
    if rules.lowercase {
      LowerIdentity(s);
    }
    if rules.collapseSeparators {
      CollapseIdentity(s, false);
    }
    assert TrimLeft(s) == s && TrimRight(s) == s;
    hide RemoveChar, ReplaceChar, Squash, ToLower, TrimLeft, TrimRight, Clean;
  }

  /** Sanitized names are over letters, digits and underscores, lower-case and without
      double underscores where the rules say so, and have no underscore at either end. */
  lemma SanitizeClean(id: string, rules: SlugRules)
    ensures Clean(SanitizeIdentifier(id, rules), rules)
  {
    TidyClean(if rules.expandCamelCase then ExpandCamel(id) else id, rules);
  }

  ghost predicate Idempotent(rules: SlugRules) {
    forall id :: SanitizeIdentifier(SanitizeIdentifier(id, rules), rules) == SanitizeIdentifier(id, rules)
  }

  /** Sanitizing twice changes nothing, for every identifier, if and only if names are
      lower-cased, or camel case is not expanded, or braces are not deleted: deleting a
      brace can join a lower-case letter to a capital after the expansion is over. */
  lemma IdempotentIff(rules: SlugRules)
    ensures Idempotent(rules) <==> (rules.lowercase || !rules.expandCamelCase || !rules.replaceBraces)
  {
    if rules.lowercase || !rules.expandCamelCase || !rules.replaceBraces {
      forall id ensures SanitizeIdentifier(SanitizeIdentifier(id, rules), rules) == SanitizeIdentifier(id, rules) {
        var t := if rules.expandCamelCase then ExpandCamel(id) else id;
        CamelExpansion(id);
        TidyClean(t, rules);
        var once := SanitizeIdentifier(id, rules);
        if rules.lowercase {
          LowerSettled(once);
        }
        if rules.expandCamelCase {
          CamelIdentity(once);
        }
        TidyIdentity(once, rules);
      }
    } else {
      BraceHidesHump(rules);
    }
  }

  lemma BraceHidesHump(rules: SlugRules)
    requires !rules.lowercase && rules.expandCamelCase && rules.replaceBraces
    ensures SanitizeIdentifier("a{B", rules) == "aB" && SanitizeIdentifier("aB", rules) == "a_B"
  {
    var s := "a{B";
    assert s[1..] == "{B" && "{B"[1..] == "B";
    assert NoHump("{B") && NoHump(s) && NoAcronymEnd("{B") && NoAcronymEnd(s);
    CamelIdentity(s);
    SplitPair();
    hide Tidy, SplitAcronyms, SplitHumps, Clean, NoHump, NoAcronymEnd;
    CleanPair(rules);
    TidyBrace(rules);
  }

  lemma SplitPair()
    ensures SplitAcronyms("aB") == "aB" && SplitHumps("aB") == "a_B"
  {
    assert "aB"[1..] == "B" && SplitAcronyms("B") == "B";
    assert "aB"[2..] == "" && SplitHumps("") == "";
  }

  lemma RemoveBrace()
    ensures RemoveChar("a{B", '{') == "aB"
  {
    assert "a{B"[1..] == "{B" && "{B"[1..] == "B" && "B"[1..] == "";
    assert RemoveChar("B", '{') == "B";
    assert RemoveChar("{B", '{') == "B";
  }

  lemma CleanPair(rules: SlugRules)
    requires !rules.lowercase
    ensures Clean("aB", rules) && Clean("a_B", rules)
    ensures Tidy("aB", rules) == "aB" && Tidy("a_B", rules) == "a_B"
  {
    assert "aB"[1..] == "B" && "a_B"[1..] == "_B" && "_B"[1..] == "B";
    assert NoDouble("aB") && NoDouble("_B") && NoDouble("a_B");
    TidyIdentity("aB", rules);
    TidyIdentity("a_B", rules);
  }

  lemma TidyBrace(rules: SlugRules)
    requires !rules.lowercase && rules.replaceBraces
    ensures Tidy("a{B", rules) == "aB"
  {
    CleanPair(rules);
    RemoveBrace();
    RemoveIdentity("aB", '{');
    hide RemoveChar, ReplaceChar, Squash, TrimLeft, TrimRight, Clean;
  }

  /** A name made from a method and a path is the verb and the path's text, tidied by the
      rules that identifiers are tidied by. */
  lemma SlugifySharesRules(httpMethod: string, path: string, hasPathParams: bool, rules: SlugRules)
    requires path != "" && path[0] == '/'
    ensures Slugify(httpMethod, path, hasPathParams, rules) ==
            SlugVerb(httpMethod, hasPathParams) + "_" + SanitizeIdentifier(path[1..], rules.(expandCamelCase := false))
    ensures Clean(Tidy(path[1..], rules), rules)
  {
    TidyClean(path[1..], rules);
  }
}
