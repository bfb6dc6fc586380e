/** The cache key of a tool call (pkg/cache/cache.go) and why its pre-image can be read in
    only one way. SHA-256 is modelled as the free injective function `Sha256Hex`. */
module CacheKey {
  import opened Json
  import opened CanonicalJson

  /** The arguments of a call: a nil Go map, or an object. */
  datatype Args = NilArgs | Args(fields: map<string, Value>)

  datatype Key = Sha256Hex(preImage: string)

  ghost function ArgsText(args: Args): string {
    match args
    case NilArgs => "null"
    case Args(fields) => Print(Object(fields))
  }

  /** The subject a key carries; an empty one is the same as none. */
  function EffectiveSubject(perUser: bool, subject: string): string {
    if perUser then subject else ""
  }

  function Head(tool: string, subject: string): string {
    if subject == "" then tool else tool + ":" + subject
  }

  ghost function KeyOf(tool: string, args: Args, perUser: bool, subject: string): Key {
    Sha256Hex(Head(tool, EffectiveSubject(perUser, subject)) + ":" + ArgsText(args))
  }

  function Join(parts: seq<string>, sep: string): string {
    if parts == [] then ""
    else if |parts| == 1 then parts[0]
    else parts[0] + sep + Join(parts[1..], sep)
  }

  lemma JoinTwoOrThree(a: string, b: string, c: string)
    ensures Join([a] + [c], ":") == a + ":" + c
    ensures Join([a] + [b] + [c], ":") == (a + ":" + b) + ":" + c
  {
    assert ([a] + [c])[1..] == [c];
    assert ([a] + [b] + [c])[1..] == [b, c] && [b, c][1..] == [c];
    assert a + ":" + (b + ":" + c) == (a + ":" + b) + ":" + c;
  }

  method ComputeKey(tool: string, args: Args, perUser: bool, subject: string) returns (key: Key)
    ensures key == KeyOf(tool, args, perUser, subject)
  {
    var parts := [tool];
    if perUser && subject != "" {
      parts := parts + [subject];
    }
    var canonical := "null";
    if args.Args? {
      canonical := MarshalSorted(Object(args.fields));
    }
    JoinTwoOrThree(tool, subject, canonical);
    parts := parts + [canonical];
    key := Sha256Hex(Join(parts, ":"));
  }

  // ---------- The bracket scanner ----------

  /** Where a reader of JSON text is: outside strings, inside one, just after a backslash
      inside one, or past a backslash that stood outside every string. */
  datatype Mode = Out | In | Escaped | Bad

  function Step(m: Mode, c: char): Mode {
    match m
    case Out => if c == '"' then In else if c == '\\' then Bad else Out
    case In => if c == '"' then Out else if c == '\\' then Escaped else In
    case Escaped => In
    case Bad => Bad
  }

  function Run(m: Mode, s: string): Mode
    decreases s
  {
    if s == "" then m else Run(Step(m, s[0]), s[1..])
  }

  function Change(m: Mode, c: char): int {
    if m == Out && c == '{' then 1 else if m == Out && c == '}' then -1 else 0
  }

  /** Braces opened minus braces closed outside strings. */
  function Depth(m: Mode, s: string): int
    decreases s
  {
    if s == "" then 0
    else Change(m, s[0]) + Depth(Step(m, s[0]), s[1..])
  }

  lemma {:induction false} ScanConcat(m: Mode, a: string, b: string)
    ensures Run(m, a + b) == Run(Run(m, a), b)
    ensures Depth(m, a + b) == Depth(m, a) + Depth(Run(m, a), b)
    decreases a
  {
    if a == "" {
      assert a + b == b;
    } else {
      ScanConcat(Step(m, a[0]), a[1..], b);
      assert (a + b)[1..] == a[1..] + b;
    }
  }

  lemma {:induction false} BadStays(s: string)
    ensures Run(Bad, s) == Bad
  {
    if s != "" {
      BadStays(s[1..]);
    }
  }

  /** The same text cannot end outside strings both for a reader that starts outside
      strings and for one that starts inside a string. */
  lemma {:induction false} QuoteParity(s: string)
    ensures !(Run(Out, s) == Out && Run(In, s) == Out)
  {
    if s != "" {
      QuoteParity(s[1..]);
      BadStays(s[1..]);
    }
  }

  /** Scans from outside to outside, closing every brace it opens and none else. */
  ghost predicate Balanced(s: string) {
    Run(Out, s) == Out && Depth(Out, s) == 0 &&
    forall n :: 0 <= n <= |s| ==> Depth(Out, s[..n]) >= 0
  }

  lemma BalancedConcat(a: string, b: string)
    requires Balanced(a) && Balanced(b)
    ensures Balanced(a + b)
  {
    ScanConcat(Out, a, b);
    forall n | 0 <= n <= |a + b| ensures Depth(Out, (a + b)[..n]) >= 0 {
      if n <= |a| {
        assert (a + b)[..n] == a[..n];
      } else {
        assert (a + b)[..n] == a + b[..n - |a|];
        ScanConcat(Out, a, b[..n - |a|]);
      }
    }
  }

  /** Text with no quote, backslash or brace leaves the scanner alone. */
  lemma {:induction false} PlainScan(m: Mode, s: string)
    requires m == Out || m == In
    requires forall i :: 0 <= i < |s| ==> s[i] != '"' && s[i] != '\\' && s[i] != '{' && s[i] != '}'
    ensures Run(m, s) == m && Depth(m, s) == 0
  {
    if s != "" {
      PlainScan(m, s[1..]);
    }
  }

  lemma PlainBalanced(s: string)
    requires forall i :: 0 <= i < |s| ==> s[i] != '"' && s[i] != '\\' && s[i] != '{' && s[i] != '}'
    ensures Balanced(s)
  {
    PlainScan(Out, s);
    forall n | 0 <= n <= |s| ensures Depth(Out, s[..n]) >= 0 {
      PlainScan(Out, s[..n]);
    }
  }

  lemma HexIsPlain(n: nat)
    requires n < 16
    ensures HexDigit(n) != '"' && HexDigit(n) != '\\'
  {
  }

  /** An escape is one plain character, a backslash and one more, or `\u` and four hex
      digits. */
  lemma EscapeShape(c: char)
    ensures var e := Escape(c);
            || (e == [c] && c != '"' && c != '\\')
            || (|e| == 2 && e[0] == '\\')
            || (|e| == 6 && e[..2] == "\\u" && forall i :: 2 <= i < 6 ==> e[i] != '"' && e[i] != '\\')
  {
    var n := c as int;
    if |Escape(c)| == 6 {
      HexIsPlain(n / 4096);
      HexIsPlain(n / 256 % 16);
      HexIsPlain(n / 16 % 16);
      HexIsPlain(n % 16);
    }
  }

  /** Reading an escape inside a string ends inside it and is never outside on the way. */
  lemma EscapeScan(c: char, n: nat)
    requires n <= |Escape(c)|
    ensures Run(In, Escape(c)) == In
    ensures Run(In, Escape(c)[..n]) != Out && Run(In, Escape(c)[..n]) != Bad
  {
    var e := Escape(c);
    EscapeShape(c);
    RunUpTo(In, e, 1);
    RunUpTo(In, e, n);
    if |e| == 2 {
      RunUpTo(In, e, 2);
    } else if |e| == 6 {
      EscapeDigits(e, n);
      EscapeDigits(e, 6);
    }
    assert e[..|e|] == e;
  }

  lemma RunUpTo(m: Mode, s: string, n: nat)
    requires n <= |s|
    ensures n == 0 ==> Run(m, s[..n]) == m
    ensures n == 1 ==> Run(m, s[..n]) == Step(m, s[0])
    ensures n == 2 ==> Run(m, s[..n]) == Step(Step(m, s[0]), s[1])
  {
    if n == 1 {
      assert s[..1] == [s[0]];
    } else if n == 2 {
      assert s[..2] == [s[0], s[1]];
      ScanConcat(m, [s[0]], [s[1]]);
      assert [s[0]] + [s[1]] == s[..2];
    }
  }

  lemma EscapeDigits(e: string, n: nat)
    requires |e| == 6 && e[..2] == "\\u" && forall i :: 2 <= i < 6 ==> e[i] != '"' && e[i] != '\\'
    requires n <= 6
    ensures n >= 2 ==> Run(In, e[..n]) == In
  {
    if n >= 2 {
      RunUpTo(In, e, 2);
      assert e[..n] == e[..2] + e[2..n];
      ScanConcat(In, e[..2], e[2..n]);
      assert e[0] == e[..2][0] && e[1] == e[..2][1];
      assert forall i :: 0 <= i < n - 2 ==> e[2..n][i] == e[i + 2];
      InStays(e[2..n]);
    }
  }

  lemma {:induction false} EscapeAllStaysIn(s: string)
    ensures Run(In, EscapeAll(s)) == In
  {
    if s != "" {
      EscapeScan(s[0], 0);
      EscapeAllStaysIn(s[1..]);
      ScanConcat(In, Escape(s[0]), EscapeAll(s[1..]));
    }
  }

  /** Inside a string nothing counts, so the depth can only move once the scanner is out. */
  lemma {:induction false} DepthInside(m: Mode, s: string)
    requires m == In || m == Escaped
    requires forall n :: 0 <= n < |s| ==> Run(m, s[..n]) != Out
    ensures Depth(m, s) == 0
    decreases s
  {
    if s != "" {
      var m' := Step(m, s[0]);
      if |s| > 1 {
        assert s[..1][1..] == "" && Run(m, s[..1]) == m';
        forall n | 0 <= n < |s[1..]| ensures Run(m', s[1..][..n]) != Out {
          assert s[..n + 1][1..] == s[1..][..n];
          assert s[..n + 1][0] == s[0];
        }
        DepthInside(m', s[1..]);
      }
    }
  }

  lemma {:induction false} StringBodyNeverOut(s: string, n: nat)
    requires n <= |EscapeAll(s)|
    ensures Run(In, EscapeAll(s)[..n]) != Out && Run(In, EscapeAll(s)[..n]) != Bad
    decreases |s|
  {
    if s != "" {
      var e, t := Escape(s[0]), EscapeAll(s[1..]);
      EscapeScan(s[0], 0);
      if n <= |e| {
        assert (e + t)[..n] == e[..n];
        EscapeScan(s[0], n);
      } else {
        assert (e + t)[..n] == e + t[..n - |e|];
        ScanConcat(In, e, t[..n - |e|]);
        StringBodyNeverOut(s[1..], n - |e|);
      }
    }
  }

  lemma {:induction false} InStays(s: string)
    requires forall i :: 0 <= i < |s| ==> s[i] != '"' && s[i] != '\\'
    ensures Run(In, s) == In
  {
    if s != "" {
      InStays(s[1..]);
    }
  }

  lemma QuotedBalanced(s: string)
    ensures Balanced(Quote(s))
  {
    var body, q := EscapeAll(s), Quote(s);
    EscapeAllStaysIn(s);
    assert q == "\"" + (body + "\"");
    forall n | 0 <= n <= |q| ensures Depth(Out, q[..n]) == 0 {
      if n > 0 {
        var p := q[..n][1..];
        assert p == (body + "\"")[..n - 1];
        forall k | 0 <= k < |p| ensures Run(In, p[..k]) != Out {
          assert p[..k] == body[..k];
          StringBodyNeverOut(s, k);
        }
        DepthInside(In, p);
      }
    }
    assert q[..|q|] == q;
    ScanConcat(Out, "\"" + body, "\"");
    ScanConcat(Out, "\"", body);
    assert Run(Out, "\"") == In && Run(In, "\"") == Out;
  }

  lemma {:induction false} PrintBalanced(v: Value)
    ensures Balanced(Print(v))
    decreases v
  {
    match v {
      case Str(s) => QuotedBalanced(s);
      case Array(items) =>
        ItemsBalanced(v, 0);
        PlainBalanced("[");
        PlainBalanced("]");
        BalancedConcat("[", ItemsFrom(v, 0));
        BalancedConcat("[" + ItemsFrom(v, 0), "]");
      case Object(fields) =>
        var keys := SortedKeys(fields.Keys);
        assert forall k :: k in keys <==> k in Elements(keys);
        FieldsBalanced(v, keys, 0);
        Braced(FieldsFrom(v, keys, 0));
      case _ => PlainBalanced(Print(v));
    }
  }

  lemma {:induction false} ItemsBalanced(v: Value, i: nat)
    requires v.Array? && i <= |v.items|
    ensures Balanced(ItemsFrom(v, i))
    decreases v, |v.items| - i
  {
    PlainBalanced("");
    if i < |v.items| {
      PlainBalanced(Sep(i));
      PrintBalanced(v.items[i]);
      ItemsBalanced(v, i + 1);
      BalancedConcat(Sep(i), Print(v.items[i]));
      BalancedConcat(Sep(i) + Print(v.items[i]), ItemsFrom(v, i + 1));
    }
  }

  lemma {:induction false} FieldsBalanced(v: Value, keys: seq<string>, i: nat)
    requires v.Object? && i <= |keys| && forall k :: k in keys ==> k in v.fields
    ensures Balanced(FieldsFrom(v, keys, i))
    decreases v, |keys| - i
  {
    PlainBalanced("");
    if i < |keys| {
      var q, p := Quote(keys[i]), Print(v.fields[keys[i]]);
      PlainBalanced(Sep(i));
      PlainBalanced(":");
      QuotedBalanced(keys[i]);
      PrintBalanced(v.fields[keys[i]]);
      FieldsBalanced(v, keys, i + 1);
      BalancedConcat(Sep(i), q);
      BalancedConcat(Sep(i) + q, ":");
      BalancedConcat(Sep(i) + q + ":", p);
      BalancedConcat(Sep(i) + q + ":" + p, FieldsFrom(v, keys, i + 1));
    }
  }

  /** A balanced text in braces is balanced, and open until its last character. */
  lemma Braced(body: string)
    requires Balanced(body)
    ensures Balanced("{" + body + "}")
    ensures forall n :: 0 < n <= |body| + 1 ==> Depth(Out, ("{" + body + "}")[..n]) >= 1
  {
    var s := "{" + body + "}";
    assert Run(Out, "{") == Out && Depth(Out, "{") == 1 && Run(Out, "}") == Out && Depth(Out, "}") == -1;
    forall n | 0 < n <= |body| + 1 ensures Depth(Out, s[..n]) >= 1 {
      assert s[..n] == "{" + body[..n - 1];
      ScanConcat(Out, "{", body[..n - 1]);
    }
    ScanConcat(Out, "{", body);
    ScanConcat(Out, "{" + body, "}");
    assert s[..|s|] == s && s[..0] == "";
  }

  // ---------- Unique reading ----------

  /** No canonical argument text is something, a colon, and another canonical argument
      text. */
  lemma NoSplit(a: Args, x: string, b: Args)
    ensures ArgsText(a) != x + ":" + ArgsText(b)
  {
    assert (x + ":" + ArgsText(b))[|x|] == ':';
    assert forall i :: 0 <= i < 4 ==> "null"[i] != ':';
    if a.Args? && ArgsText(a) == x + ":" + ArgsText(b) {
      var v := Object(a.fields);
      var keys := SortedKeys(a.fields.Keys);
      assert forall k :: k in keys <==> k in Elements(keys);
      var body := FieldsFrom(v, keys, 0);
      FieldsBalanced(v, keys, 0);
      Braced(body);
      var s, p, t := Print(v), x + ":", ArgsText(b);
      assert s == p + t && s == "{" + body + "}";
      ScanConcat(Out, p, t);
      assert s[..|p|] == p;
      ArgsTextBalanced(b);
      ColonNotEscaped(x);
      BadStays(t);
      QuoteParity(t);
      assert false;
    }
  }

  lemma ArgsTextBalanced(b: Args)
    ensures Balanced(ArgsText(b)) && ArgsText(b) != ""
  {
    match b {
      case NilArgs => PlainBalanced("null");
      case Args(fields) => PrintBalanced(Object(fields));
    }
  }

  lemma ColonNotEscaped(x: string)
    ensures Run(Out, x + ":") != Escaped
  {
    ScanConcat(Out, x, ":");
    assert Run(Run(Out, x), ":") == Step(Run(Out, x), ':');
  }

  lemma ArgsTextInjective(a: Args, b: Args)
    requires ArgsText(a) == ArgsText(b)
    ensures a == b
  {
    assert ArgsText(a)[0] == (if a.Args? then '{' else 'n');
    assert ArgsText(b)[0] == (if b.Args? then '{' else 'n');
    if a.Args? && b.Args? {
      PrintInjective(Object(a.fields), Object(b.fields));
    }
  }

  /** Whatever stands before the last part, two pre-images are equal exactly when the two
      heads and the two argument maps are. */
  lemma PreImageUnambiguous(h1: string, a1: Args, h2: string, a2: Args)
    ensures h1 + ":" + ArgsText(a1) == h2 + ":" + ArgsText(a2) <==> h1 == h2 && a1 == a2
  {
    if h1 + ":" + ArgsText(a1) == h2 + ":" + ArgsText(a2) {
      if |h1| < |h2| {
        SplitFurther(h1, ArgsText(a1), h2, ArgsText(a2));
        NoSplit(a1, h2[|h1| + 1..], a2);
      } else if |h2| < |h1| {
        SplitFurther(h2, ArgsText(a2), h1, ArgsText(a1));
        NoSplit(a2, h1[|h2| + 1..], a1);
      } else {
        SplitSame(h1, ArgsText(a1), h2, ArgsText(a2));
        ArgsTextInjective(a1, a2);
      }
    }
  }

  lemma SplitFurther(h1: string, t1: string, h2: string, t2: string)
    requires h1 + ":" + t1 == h2 + ":" + t2 && |h1| < |h2|
    ensures t1 == h2[|h1| + 1..] + ":" + t2
  {
    var s := h1 + ":" + t1;
    assert s == h2 + ":" + t2;
    assert s[|h1| + 1..] == t1;
    assert s[|h1| + 1..] == h2[|h1| + 1..] + ":" + t2;
  }

  lemma SplitSame(h1: string, t1: string, h2: string, t2: string)
    requires h1 + ":" + t1 == h2 + ":" + t2 && |h1| == |h2|
    ensures h1 == h2 && t1 == t2
  {
    var s := h1 + ":" + t1;
    assert s[..|h1|] == h1 && s[|h1| + 1..] == t1;
    assert s == h2 + ":" + t2;
    assert s[..|h2|] == h2 && s[|h2| + 1..] == t2;
  }

  predicate ColonFree(s: string) {
    ':' !in s
  }

  /** One name, with a colon behind it, starts the other. */
  predicate Nested(t1: string, t2: string) {
    t1 + ":" <= t2 || t2 + ":" <= t1
  }

  lemma NestedHasColon(t1: string, t2: string)
    requires Nested(t1, t2)
    ensures !ColonFree(t1) || !ColonFree(t2)
  {
    if t1 + ":" <= t2 {
      assert t2[|t1|] == (t1 + ":")[|t1|];
    } else {
      assert t1[|t2|] == (t2 + ":")[|t2|];
    }
  }

  lemma HeadInjective(t1: string, s1: string, t2: string, s2: string)
    requires !Nested(t1, t2)
    ensures Head(t1, s1) == Head(t2, s2) <==> t1 == t2 && s1 == s2
  {
    if Head(t1, s1) == Head(t2, s2) {
      if |t1| < |t2| {
        ShorterNests(t1, s1, t2, s2);
      } else if |t2| < |t1| {
        ShorterNests(t2, s2, t1, s1);
      } else {
        SameLengthSameTool(t1, s1, t2, s2);
        var h := Head(t1, s1);
        assert s1 != "" ==> s1 == h[|t1| + 1..];
        assert s2 != "" ==> s2 == h[|t2| + 1..];
      }
    }
  }

  lemma SameLengthSameTool(t1: string, s1: string, t2: string, s2: string)
    requires Head(t1, s1) == Head(t2, s2) && |t1| == |t2|
    ensures t1 == t2
  {
    assert t1 == Head(t1, s1)[..|t1|] && t2 == Head(t2, s2)[..|t2|];
  }

  /** A shorter tool name with the same head as a longer one has a subject, which starts
      with the rest of the longer name. */
  lemma ShorterNests(t1: string, s1: string, t2: string, s2: string)
    requires Head(t1, s1) == Head(t2, s2) && |t1| < |t2|
    ensures s1 != "" && t1 + ":" <= t2 && (s2 == "" ==> t1 + ":" < t2)
  {
    var h := Head(t1, s1);
    assert h[..|t2|] == t2 && h[..|t1|] == t1;
    assert t1 + ":" == h[..|t1| + 1];
    assert h[..|t1| + 1] == t2[..|t1| + 1];
    assert s2 == "" ==> |t1| + 1 < |h| == |t2|;
  }

  /** Two calls share a key exactly when they share the head text and the arguments; for
      tool names that do not nest, that is the tool, the subject the key carries, and the
      arguments. */
  lemma KeyUnambiguous(t1: string, a1: Args, p1: bool, s1: string, t2: string, a2: Args, p2: bool, s2: string)
    ensures KeyOf(t1, a1, p1, s1) == KeyOf(t2, a2, p2, s2) <==>
            Head(t1, EffectiveSubject(p1, s1)) == Head(t2, EffectiveSubject(p2, s2)) && a1 == a2
    ensures !Nested(t1, t2) ==>
            (KeyOf(t1, a1, p1, s1) == KeyOf(t2, a2, p2, s2) <==>
             t1 == t2 && EffectiveSubject(p1, s1) == EffectiveSubject(p2, s2) && a1 == a2)
  {
    var e1, e2 := EffectiveSubject(p1, s1), EffectiveSubject(p2, s2);
    PreImageUnambiguous(Head(t1, e1), a1, Head(t2, e2), a2);
    if !Nested(t1, t2) {
      HeadInjective(t1, e1, t2, e2);
    }
  }

  /** A call of the first tool by some subject has the head of a call of the second, if the
      first tool's results are kept per user; of the second by somebody, if its results are. */
  predicate ReachesHeadOf(t1: string, p1: bool, t2: string, p2: bool) {
    p1 && (t1 + ":" < t2 || (p2 && t1 + ":" == t2))
  }

  /** Exactly which two tools, each with its own per-user setting, can share a key: one name
      starts the other with a colon behind it, the shorter tool is cached per user, and if
      nothing follows the colon the longer one is too. */
  lemma KeysCollideIff(t1: string, p1: bool, t2: string, p2: bool)
    requires t1 != t2
    ensures (exists a1, s1, a2, s2 :: KeyOf(t1, a1, p1, s1) == KeyOf(t2, a2, p2, s2)) <==>
            ReachesHeadOf(t1, p1, t2, p2) || ReachesHeadOf(t2, p2, t1, p1)
  {
    hide KeyOf, Head;
    if ReachesHeadOf(t1, p1, t2, p2) {
      var subjects := NestedShareKey(t1, t2, p2, NilArgs);
      assert KeyOf(t1, NilArgs, p1, subjects.0) == KeyOf(t2, NilArgs, p2, subjects.1);
    }
    if ReachesHeadOf(t2, p2, t1, p1) {
      var subjects := NestedShareKey(t2, t1, p1, NilArgs);
      assert KeyOf(t1, NilArgs, p1, subjects.1) == KeyOf(t2, NilArgs, p2, subjects.0);
    }
    forall a1, s1, a2, s2 | KeyOf(t1, a1, p1, s1) == KeyOf(t2, a2, p2, s2)
      ensures ReachesHeadOf(t1, p1, t2, p2) || ReachesHeadOf(t2, p2, t1, p1)
    {
      KeyUnambiguous(t1, a1, p1, s1, t2, a2, p2, s2);
      SharedHeadNests(t1, EffectiveSubject(p1, s1), t2, EffectiveSubject(p2, s2));
    }
  }

  lemma SharedHeadNests(t1: string, s1: string, t2: string, s2: string)
    requires Head(t1, s1) == Head(t2, s2) && t1 != t2
    ensures || (s1 != "" && (t1 + ":" < t2 || (s2 != "" && t1 + ":" == t2)))
            || (s2 != "" && (t2 + ":" < t1 || (s1 != "" && t2 + ":" == t1)))
  {
    if |t1| < |t2| {
      ShorterNests(t1, s1, t2, s2);
    } else if |t2| < |t1| {
      ShorterNests(t2, s2, t1, s1);
    } else {
      SameLengthSameTool(t1, s1, t2, s2);
    }
  }

  /** Subjects with which two nested tools share a key, whatever the arguments. */
  ghost function NestedShareKey(t1: string, t2: string, p2: bool, args: Args): (subjects: (string, string))
    requires ReachesHeadOf(t1, true, t2, p2)
    ensures KeyOf(t1, args, true, subjects.0) == KeyOf(t2, args, p2, subjects.1)
  {
    var rest := t2[|t1| + 1..];
    assert t2 == t1 + ":" + rest;
    assert t1 + ":" + (rest + ":x") == t2 + ":x";
    if p2 then (rest + ":" + "x", "x") else (rest, "")
  }
}
