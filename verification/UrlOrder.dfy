/** For which path templates the order of substitution does not matter
    (pkg/upstream/http/executor.go:361-364): exactly the flat ones. */
module UrlOrder {
  import opened GoStrings
  import opened Json
  import opened UrlTemplate

  lemma Assoc(a: string, b: string, c: string)
    ensures a + b + c == a + (b + c)
  {
  }

  lemma RenderAt(pieces: seq<Piece>, i: nat, values: map<string, string>)
    requires i < |pieces|
    ensures Render(pieces[i..], values) == PieceText(pieces[i], values) + Render(pieces[i + 1..], values)
  {
    hide PieceText;
    assert pieces[i..][0] == pieces[i] && pieces[i..][1..] == pieces[i + 1..];
  }

  lemma {:induction false} RenderSplit(pieces: seq<Piece>, i: nat, values: map<string, string>)
    requires i <= |pieces|
    ensures Render(pieces, values) == Render(pieces[..i], values) + Render(pieces[i..], values)
    decreases |pieces|
  {
    hide *;
    if i == 0 {
      RenderNone(values);
      assert pieces[..0] == [] && pieces[0..] == pieces;
    } else {
      var rest, first := pieces[1..], pieces[..i];
      SlicesOf(pieces, i);
      RenderSplit(rest, i - 1, values);
      RenderHead(pieces, values);
      RenderHead(first, values);
      Assoc(PieceText(pieces[0], values), Render(first[1..], values), Render(pieces[i..], values));
    }
  }

  lemma SlicesOf(pieces: seq<Piece>, i: nat)
    requires 0 < i <= |pieces|
    ensures pieces[1..][..i - 1] == pieces[..i][1..] && pieces[1..][i - 1..] == pieces[i..]
    ensures pieces[..i][0] == pieces[0]
  {
  }

  lemma RenderHead(pieces: seq<Piece>, values: map<string, string>)
    requires pieces != []
    ensures Render(pieces, values) == PieceText(pieces[0], values) + Render(pieces[1..], values)
  {
  }

  lemma RenderNone(values: map<string, string>)
    ensures Render([], values) == ""
  {
  }

  lemma {:induction false} PieceWithin(pieces: seq<Piece>, values: map<string, string>, p: Piece)
    requires p in pieces
    ensures |PieceText(p, values)| <= |Render(pieces, values)|
  {
    hide PieceText;
    if p != pieces[0] {
      PieceWithin(pieces[1..], values, p);
    }
  }

  /** No occurrence of a placeholder straddles the beginning of another. */
  lemma {:induction false} SplitAt(a: string, b: string, name: string, with: string)
    requires b != "" && b[0] == '{' && BraceFree(name)
    ensures ReplaceAll(a + b, Placeholder(name), with) ==
            ReplaceAll(a, Placeholder(name), with) + ReplaceAll(b, Placeholder(name), with)
    decreases |a|
  {
    var k, s := Placeholder(name), a + b;
    if a == "" {
      assert s == b;
    } else {
      WithinFirst(a, b, name);
      if k <= s {
        assert s[|k|..] == a[|k|..] + b;
        SplitAt(a[|k|..], b, name, with);
      } else {
        assert s[0] == a[0] && s[1..] == a[1..] + b;
        SplitAt(a[1..], b, name, with);
      }
    }
  }

  lemma WithinFirst(a: string, b: string, name: string)
    requires a != "" && b != "" && b[0] == '{' && BraceFree(name)
    ensures Placeholder(name) <= a + b <==> Placeholder(name) <= a
  {
    var k, s := Placeholder(name), a + b;
    assert s[|a|] == '{';
    assert forall i :: 0 < i < |k| ==> k[i] != '{';
    assert forall i :: 0 <= i < |a| ==> s[i] == a[i];
  }

  /** What begins a filled or partly filled plain text is its name only if it is all of it. */
  lemma {:induction false} WholeName(pieces: seq<Piece>, values: map<string, string>, name: string, tail: string)
    requires IsPlain(pieces) && BraceFree(name) && name + "}" <= Render(pieces, values) + ("}" + tail)
    ensures Render(pieces, values) == name
  {
    if pieces == [] {
      assert (name + "}")[0] == '}';
    } else {
      var text, rest := PieceText(pieces[0], values), Render(pieces[1..], values) + ("}" + tail);
      assert Render(pieces, values) + ("}" + tail) == text + rest;
      if pieces[0].Hole? && pieces[0].name !in values {
        NotAtBrace(name, text + rest);
        assert false;
      } else {
        NoClosing(pieces[0], values);
        hide PieceText;
        RunsOn(name, text, rest);
        WholeName(pieces[1..], values, name[|text|..], tail);
        BeginsWith(name, text, rest);
      }
    }
  }

  lemma BeginsWith(name: string, text: string, rest: string)
    requires name + "}" <= text + rest && |text| <= |name|
    ensures name == text + name[|text|..]
  {
    var k, s := name + "}", text + rest;
    assert forall i :: 0 <= i < |text| ==> name[i] == k[i] && k[i] == s[i] && s[i] == text[i];
  }

  /** A plain text between two stray braces. */
  function Between(before: string, inner: string, after: string): string {
    before + ("{" + (inner + ("}" + after)))
  }

  /** Replacing a placeholder fills the plain text between two stray braces and leaves the
      braces standing, unless the text is the placeholder's name. */
  lemma FillBetween(before: string, seg: seq<Piece>, values: map<string, string>, after: string, name: string,
                    value: string)
    returns (before2: string, after2: string)
    requires IsPlain(seg) && BraceFree(name) && name !in values && Render(seg, values) != name
    ensures ReplaceAll(Between(before, Render(seg, values), after), Placeholder(name), PathEscape(value)) ==
            Between(before2, Render(seg, values[name := value]), after2)
  {
    var with := PathEscape(value);
    var inner := Render(seg, values) + ("}" + after);
    SplitAt(before, "{" + inner, name, with);
    if name + "}" <= inner {
      WholeName(seg, values, name, after);
    }
    NoMatch(name, inner);
    SkipOne(inner, name, with);
    FillInside(seg, values, name, value, "}" + after);
    PassOver("}", after, name, with);
    before2, after2 := ReplaceAll(before, Placeholder(name), with), ReplaceAll(after, Placeholder(name), with);
  }

  lemma {:induction false} FillInside(seg: seq<Piece>, values: map<string, string>, name: string, value: string,
                                      tail: string)
    requires IsPlain(seg) && BraceFree(name) && name !in values
    ensures ReplaceAll(Render(seg, values) + tail, Placeholder(name), PathEscape(value)) ==
            Render(seg, values[name := value]) + ReplaceAll(tail, Placeholder(name), PathEscape(value))
  {
    var with, next := PathEscape(value), values[name := value];
    var after := ReplaceAll(tail, Placeholder(name), with);
    if seg == [] {
      RenderNone(values);
      RenderNone(next);
      assert "" + tail == tail && "" + after == after;
    } else {
      assert IsPlainPiece(seg[0]);
      PlainFirst(seg[0]);
      hide *;
      var rest := Render(seg[1..], values) + tail;
      RenderHead(seg, values);
      RenderHead(seg, next);
      FillInside(seg[1..], values, name, value, tail);
      FillFirst(seg[0], values, name, value, rest);
      Assoc(PieceText(seg[0], values), Render(seg[1..], values), tail);
      Assoc(PieceText(seg[0], next), Render(seg[1..], next), after);
    }
  }

  lemma PlainFirst(p: Piece)
    requires IsPlainPiece(p)
    ensures p != Char('{') && (p.Hole? ==> BraceFree(p.name))
  {
  }

  /** Substituting the names of the holes between two stray braces makes a placeholder. */
  lemma {:induction false} FillAllBetween(before: string, seg: seq<Piece>, after: string, values: map<string, string>,
                                          order: seq<string>)
    returns (before2: string, after2: string)
    requires IsPlain(seg) && forall n :: n in order ==> n in values && Hole(n) in seg
    requires forall i, j :: 0 <= i < j < |order| ==> order[i] != order[j]
    ensures InOrder(Between(before, Render(seg, map[]), after), values, order) ==
            Between(before2, Render(seg, Restrict(values, order)), after2)
  {
    if order == [] {
      assert Restrict(values, order) == map[];
      before2, after2 := before, after;
    } else {
      var init, last := order[..|order| - 1], order[|order| - 1];
      RestrictLast(values, order);
      var b, a := FillAllBetween(before, seg, after, values, init);
      FilledIsBraceFree(seg, Restrict(values, init));
      assert Hole(last) in seg && last in order;
      assert BraceFree(last);
      hide *;
      before2, after2 := FillBetween(b, seg, Restrict(values, init), a, last, values[last]);
      InOrderLast(Between(before, Render(seg, map[]), after), values, order);
    }
  }

  lemma InOrderLast(path: string, values: map<string, string>, order: seq<string>)
    requires order != [] && forall name :: name in order ==> name in values
    ensures var init, last := order[..|order| - 1], order[|order| - 1];
            && (forall name :: name in init ==> name in values)
            && InOrder(path, values, order) ==
               ReplaceAll(InOrder(path, values, init), Placeholder(last), PathEscape(values[last]))
  {
    hide ReplaceAll, PathEscape;
  }

  lemma {:induction false} InOrderFirst(path: string, values: map<string, string>, first: string, order: seq<string>)
    requires first in values && forall name :: name in order ==> name in values
    ensures InOrder(path, values, [first] + order) ==
            InOrder(ReplaceAll(path, Placeholder(first), PathEscape(values[first])), values, order)
  {
    hide ReplaceAll, PathEscape;
    if order == [] {
      assert [first] + order == [first] && [first][..0] == [];
    } else {
      var n := |order| - 1;
      assert ([first] + order)[..n + 1] == [first] + order[..n];
      InOrderFirst(path, values, first, order[..n]);
    }
  }

  /** A name that no placeholder of the template has is nowhere replaced. */
  lemma {:induction false} NothingToReplace(t: string, name: string, with: string)
    requires BraceFree(name) && Hole(name) !in Parse(t)
    ensures ReplaceAll(t, Placeholder(name), with) == t
    decreases |t|
  {
    if t != "" {
      var k := Placeholder(name);
      if LeadingName(t).Some? {
        var m := LeadingName(t).value;
        var rest := t[|m| + 2..];
        LeadingNameFacts(t);
        NothingToReplace(rest, name, with);
        OtherHole(m, rest, name, with);
      } else {
        if k <= t {
          NamedAtStart(t, name);
          assert false;
        }
        NothingToReplace(t[1..], name, with);
        assert [t[0]] + t[1..] == t;
      }
    }
  }

  lemma NamedAtStart(t: string, name: string)
    requires BraceFree(name) && Placeholder(name) <= t
    ensures LeadingName(t) == Some(name)
  {
    var k := Placeholder(name);
    assert t[0] == k[0] && t[|name| + 1] == k[|name| + 1];
    assert forall i :: 0 <= i < |name| ==> t[1..][i] == k[i + 1] == name[i];
    assert t[1..][|name|] == '}';
    RunLength(t[1..], |name|);
    assert t[1..|name| + 1] == name;
  }

  lemma RunLength(s: string, n: nat)
    requires n < |s| && BraceFree(s[..n]) && s[n] == '}'
    ensures BraceFreeRun(s) == n
  {
    var r := BraceFreeRun(s);
    assert forall k :: 0 <= k < n ==> s[..n][k] == s[k];
    assert forall k :: 0 <= k < r ==> s[..r][k] == s[k];
    assert r == n;
  }

  /** Some stretch between stray braces has no stray brace inside. */
  lemma {:induction false} InnermostPair(ps: seq<Piece>, i: nat, j: nat) returns (a: nat, b: nat)
    requires i < j < |ps| && ps[i] == Char('{') && ps[j] == Char('}')
    ensures a < b < |ps| && ps[a] == Char('{') && ps[b] == Char('}')
    ensures forall k :: a < k < b ==> ps[k] != Char('{') && ps[k] != Char('}')
    decreases j - i
  {
    if k :| i < k < j && ps[k] == Char('{') {
      a, b := InnermostPair(ps, k, j);
    } else if k :| i < k < j && ps[k] == Char('}') {
      a, b := InnermostPair(ps, i, k);
    } else {
      a, b := i, j;
    }
  }

  lemma {:induction false} ParseSuffix(t: string, i: nat) returns (s: string)
    requires i <= |Parse(t)|
    ensures Parse(s) == Parse(t)[i..]
    decreases i
  {
    if i == 0 {
      s := t;
    } else {
      var rest := if LeadingName(t).Some? then t[|LeadingName(t).value| + 2..] else t[1..];
      assert Parse(t)[1..] == Parse(rest);
      s := ParseSuffix(rest, i - 1);
    }
  }

  /** Between two stray braces there is a placeholder, or they would be one. */
  lemma HoleBetween(t: string, a: nat, b: nat)
    requires a < b < |Parse(t)| && Parse(t)[a] == Char('{') && Parse(t)[b] == Char('}')
    requires forall k :: a < k < b ==> Parse(t)[k] != Char('{') && Parse(t)[k] != Char('}')
    ensures exists k :: a < k < b && Parse(t)[k].Hole?
  {
    var ps := Parse(t);
    if forall k :: a < k < b ==> !ps[k].Hole? {
      var s := ParseSuffix(t, a);
      ParseFacts(s);
      ParseFacts(t);
      PlainBetween(ps, a, b);
      assert forall p :: p in ps[a + 1..b] ==> !p.Hole?;
      assert ps[a..][0] == ps[a];
      hide *;
      CharsOnly(ps[a + 1..b]);
      SuffixBetween(ps, a, b);
      NamedFirst(s, Render(ps[a + 1..b], map[]), Render(ps[b + 1..], map[]));
      assert false;
    }
  }

  lemma SuffixBetween(ps: seq<Piece>, a: nat, b: nat)
    requires a < b < |ps| && ps[a] == Char('{') && ps[b] == Char('}')
    ensures Render(ps[a..], map[]) == Between("", Render(ps[a + 1..b], map[]), Render(ps[b + 1..], map[]))
  {
    PieceOfChar('{');
    PieceOfChar('}');
    hide *;
    RenderAt(ps, a, map[]);
    RenderMiddle(ps, a + 1, b);
    RenderAt(ps, b, map[]);
    Chain(Render(ps[a..], map[]), Render(ps[a + 1..], map[]), Render(ps[a + 1..b], map[]), Render(ps[b..], map[]),
          Render(ps[b + 1..], map[]));
  }

  lemma RenderMiddle(ps: seq<Piece>, a: nat, b: nat)
    requires a <= b <= |ps|
    ensures Render(ps[a..], map[]) == Render(ps[a..b], map[]) + Render(ps[b..], map[])
  {
    hide *;
    RenderSplit(ps[a..], b - a, map[]);
    assert ps[a..][..b - a] == ps[a..b] && ps[a..][b - a..] == ps[b..];
  }

  lemma Chain(whole: string, fromInner: string, inner: string, fromClose: string, after: string)
    requires whole == ['{'] + fromInner && fromInner == inner + fromClose && fromClose == ['}'] + after
    ensures whole == Between("", inner, after)
  {
  }

  lemma NamedFirst(s: string, x: string, after: string)
    requires s == Between("", x, after) && BraceFree(x)
    ensures s != "" && Parse(s) != [] && Parse(s)[0] == Hole(x)
  {
    assert s == Placeholder(x) + after;
    NamedAtStart(s, x);
  }

  lemma CharsOnly(seg: seq<Piece>)
    requires IsPlain(seg) && forall p :: p in seg ==> !p.Hole?
    ensures BraceFree(Render(seg, map[]))
  {
    FilledIsBraceFree(seg, map[]);
  }

  lemma {:induction false} LongEscape(n: nat) returns (w: string)
    ensures |PathEscape(w)| >= n
  {
    if n == 0 {
      w := "";
    } else {
      var v := LongEscape(n - 1);
      w := "a" + v;
      assert w[0] == 'a' && w[1..] == v;
      assert Utf8(w) == ['a' as int] + Utf8(v);
      assert (['a' as int] + Utf8(v))[1..] == Utf8(v);
    }
  }

  lemma {:induction false} Listing(names: set<string>) returns (order: seq<string>)
    ensures IsOrder(order, names)
    decreases |names|
  {
    if names == {} {
      order := [];
    } else {
      var n :| n in names;
      var rest := Listing(names - {n});
      order := rest + [n];
    }
  }

  lemma {:induction false} NeverLonger(s: string, pattern: string)
    requires pattern != ""
    ensures |ReplaceAll(s, pattern, "")| <= |s|
    decreases |s|
  {
    if s != "" {
      if pattern <= s {
        NeverLonger(s[|pattern|..], pattern);
      } else {
        NeverLonger(s[1..], pattern);
      }
    }
  }

  lemma RemovesBetween(before: string, name: string, after: string)
    requires BraceFree(name)
    ensures ReplaceAll(Between(before, name, after), Placeholder(name), "") != Between(before, name, after)
  {
    var k := Placeholder(name);
    assert "{" + (name + ("}" + after)) == k + after;
    SplitAt(before, k + after, name, "");
    Match(name, after, "");
    NeverLonger(before, k);
    NeverLonger(after, k);
  }

  ghost predicate OrderIrrelevant(template: string) {
    forall values: map<string, string>, a: seq<string>, b: seq<string> ::
      IsOrder(a, values.Keys) && IsOrder(b, values.Keys) && (forall name :: name in values ==> BraceFree(name)) ==>
        InOrder(template, values, a) == InOrder(template, values, b)
  }

  /** Two stray braces, an opening one first, can be made into a placeholder by filling what
      is between them: whether it is filled in turn depends on the order. */
  lemma StrayPairDependsOnOrder(t: string, i: nat, j: nat)
    requires i < j < |Parse(t)| && Parse(t)[i] == Char('{') && Parse(t)[j] == Char('}')
    ensures !OrderIrrelevant(t)
  {
    hide *;
    var before, seg, after, name := PairAround(t, i, j);
    var w := LongEscape(|t| + 1);
    NewName(t, seg, name, w);
    DifferBetween(t, before, seg, after, w);
  }

  /** Between an innermost pair is a stretch without braces of its own, with a placeholder. */
  lemma PairAround(t: string, i: nat, j: nat) returns (before: string, seg: seq<Piece>, after: string, name: string)
    requires i < j < |Parse(t)| && Parse(t)[i] == Char('{') && Parse(t)[j] == Char('}')
    ensures t == Between(before, Render(seg, map[]), after) && IsPlain(seg) && Hole(name) in seg
    ensures forall p :: p in seg ==> p in Parse(t)
  {
    var ps := Parse(t);
    ParseFacts(t);
    hide *;
    var a, b := InnermostPair(ps, i, j);
    HoleBetween(t, a, b);
    SplitAround(ps, a, b);
    PlainBetween(ps, a, b);
    var k :| a < k < b && ps[k].Hole?;
    seg, name := ps[a + 1..b], ps[k].name;
    assert ps[k] == seg[k - a - 1] && ps[k] in seg;
    before, after := Render(ps[..a], map[]), Render(ps[b + 1..], map[]);
  }

  function HoleNames(seg: seq<Piece>): set<string> {
    set p | p in seg && p.Hole? :: p.name
  }

  /** The text of a stretch all of whose holes are filled alike. */
  function FilledText(seg: seq<Piece>, w: string): string {
    Render(seg, map n | n in HoleNames(seg) :: w)
  }

  /** Filled with something long enough, the text is no placeholder's name. */
  lemma NewName(t: string, seg: seq<Piece>, name: string, w: string)
    requires Hole(name) in seg && IsPlain(seg) && (forall p :: p in seg ==> p in Parse(t)) && |PathEscape(w)| > |t|
    ensures BraceFree(FilledText(seg, w)) && Hole(FilledText(seg, w)) !in Parse(t)
    ensures FilledText(seg, w) !in HoleNames(seg)
  {
    var filled := map n | n in HoleNames(seg) :: w;
    var x := FilledText(seg, w);
    ParseFacts(t);
    FilledIsBraceFree(seg, filled);
    PieceWithin(seg, filled, Hole(name));
    hide Parse, Render, PathEscape;
    if Hole(x) in Parse(t) {
      PieceWithin(Parse(t), map[], Hole(x));
      assert false;
    }
  }

  lemma DifferBetween(t: string, before: string, seg: seq<Piece>, after: string, w: string)
    requires t == Between(before, Render(seg, map[]), after) && IsPlain(seg)
    requires BraceFree(FilledText(seg, w)) && Hole(FilledText(seg, w)) !in Parse(t)
    requires FilledText(seg, w) !in HoleNames(seg)
    ensures !OrderIrrelevant(t)
  {
    hide *;
    var names, x := HoleNames(seg), FilledText(seg, w);
    var order := Listing(names);
    var values := (map n | n in names :: w)[x := ""];
    OrderFacts(seg, w, order, values);
    OrdersOf(order, names, x);
    var before2, after2 := FillAllBetween(before, seg, after, values, order);
    FilledTextIs(seg, w);
    RemovesBetween(before2, x, after2);
    InOrderFirst(t, values, x, order);
    NothingToReplace(t, x, "");
    InOrderLast(t, values, order + [x]);
    TwoOrdersDiffer(t, values, order + [x], [x] + order);
  }

  lemma OrderFacts(seg: seq<Piece>, w: string, order: seq<string>, values: map<string, string>)
    requires IsPlain(seg) && IsOrder(order, HoleNames(seg)) && FilledText(seg, w) !in HoleNames(seg)
    requires BraceFree(FilledText(seg, w))
    requires values == (map n | n in HoleNames(seg) :: w)[FilledText(seg, w) := ""]
    ensures var x := FilledText(seg, w);
            && Restrict(values, order) == (map n | n in HoleNames(seg) :: w)
            && (forall n :: n in order ==> n in values && Hole(n) in seg)
            && (forall i, j :: 0 <= i < j < |order| ==> order[i] != order[j])
            && PathEscape("") == "" && values.Keys == HoleNames(seg) + {x} && values[x] == ""
            && (forall n :: n in values ==> BraceFree(n))
            && (order + [x])[..|order + [x]| - 1] == order && (order + [x])[|order + [x]| - 1] == x
            && (forall n :: n in [x] + order ==> n in values) && (forall n :: n in order + [x] ==> n in values)
  {
    NamesOfPlain(seg);
    hide FilledText, IsPlain, BraceFree;
  }

  lemma FilledTextIs(seg: seq<Piece>, w: string)
    ensures FilledText(seg, w) == Render(seg, map n | n in HoleNames(seg) :: w)
  {
  }

  lemma NamesOfPlain(seg: seq<Piece>)
    requires IsPlain(seg)
    ensures forall n :: n in HoleNames(seg) ==> BraceFree(n)
  {
    forall n | n in HoleNames(seg) ensures BraceFree(n) {
      var p :| p in seg && p.Hole? && p.name == n;
      var k :| 0 <= k < |seg| && seg[k] == p;
      assert IsPlainPiece(seg[k]);
    }
  }

  lemma SplitAround(ps: seq<Piece>, a: nat, b: nat)
    requires a < b < |ps| && ps[a] == Char('{') && ps[b] == Char('}')
    ensures Render(ps, map[]) ==
            Between(Render(ps[..a], map[]), Render(ps[a + 1..b], map[]), Render(ps[b + 1..], map[]))
  {
    hide *;
    RenderSplit(ps, a, map[]);
    SuffixBetween(ps, a, b);
    BetweenMoves(Render(ps[..a], map[]), Render(ps[a + 1..b], map[]), Render(ps[b + 1..], map[]));
  }

  lemma BetweenMoves(before: string, inner: string, after: string)
    ensures before + Between("", inner, after) == Between(before, inner, after)
  {
  }

  lemma PieceOfChar(c: char)
    ensures PieceText(Char(c), map[]) == [c]
  {
  }

  lemma PlainBetween(ps: seq<Piece>, a: nat, b: nat)
    requires a < b < |ps| && NamesBraceFree(ps)
    requires forall k :: a < k < b ==> ps[k] != Char('{') && ps[k] != Char('}')
    ensures IsPlain(ps[a + 1..b])
  {
    var seg := ps[a + 1..b];
    forall k | 0 <= k < |seg| ensures IsPlainPiece(seg[k]) {
      assert seg[k] == ps[a + 1 + k];
    }
  }

  lemma OrdersOf(order: seq<string>, names: set<string>, x: string)
    requires IsOrder(order, names) && x !in names
    ensures IsOrder(order + [x], names + {x}) && IsOrder([x] + order, names + {x})
  {
    forall i, j | 0 <= i < j < |[x] + order| ensures ([x] + order)[i] != ([x] + order)[j] {
      assert ([x] + order)[j] == order[j - 1] && order[j - 1] in order;
    }
    forall i, j | 0 <= i < j < |order + [x]| ensures (order + [x])[i] != (order + [x])[j] {
      assert (order + [x])[i] == order[i] && order[i] in order;
    }
  }

  lemma TwoOrdersDiffer(t: string, values: map<string, string>, a: seq<string>, b: seq<string>)
    requires IsOrder(a, values.Keys) && IsOrder(b, values.Keys) && forall name :: name in values ==> BraceFree(name)
    requires InOrder(t, values, a) != InOrder(t, values, b)
    ensures !OrderIrrelevant(t)
  {
    hide InOrder, IsOrder, BraceFree;
  }

  /** The order of substitution is irrelevant, for all values with brace-free names, if and
      only if no stray opening brace of the template has a stray closing brace after it. */
  lemma OrderIrrelevantIff(template: string)
    ensures OrderIrrelevant(template) <==> Flat(Parse(template))
  {
    if Flat(Parse(template)) {
      forall values: map<string, string>, a: seq<string>, b: seq<string> |
        IsOrder(a, values.Keys) && IsOrder(b, values.Keys) && (forall name :: name in values ==> BraceFree(name))
        ensures InOrder(template, values, a) == InOrder(template, values, b)
      {
        hide InOrder, Flat, Parse, Render;
        OrderFree(template, values, a);
        OrderFree(template, values, b);
        assert Restrict(values, a) == Restrict(values, b);
      }
    } else {
      var i, j :| 0 <= i < j < |Parse(template)| && Parse(template)[i] == Char('{') && Parse(template)[j] == Char('}');
      StrayPairDependsOnOrder(template, i, j);
    }
  }
}
