/** Expansion of `${NAME}` references in environment values
    (pkg/upstream/command/command.go:265-307). */
module EnvExpansion {
  import opened Json

  datatype Error = Unbraced | Unclosed | EmptyName | Unset(name: string)

  datatype Result = Expanded(text: string) | Rejected(error: Error)

  function IndexOf(s: string, c: char): (n: Option<nat>)
    ensures n.Some? ==> n.value < |s| && s[n.value] == c && forall i :: 0 <= i < n.value ==> s[i] != c
    ensures n.None? ==> forall i :: 0 <= i < |s| ==> s[i] != c
  {
    if s == "" then None
    else if s[0] == c then Some(0)
    else
      match IndexOf(s[1..], c)
      case None => None
      case Some(k) => Some(k + 1)
  }

  function Prefixed(text: string, r: Result): Result {
    match r
    case Expanded(t) => Expanded(text + t)
    case Rejected(e) => Rejected(e)
  }

  /** The reference that begins a text: its name and its length, or why there is none. */
  function Reference(s: string, env: map<string, string>): Option<Error>
    requires s != "" && s[0] == '$' && |s| > 1
  {
    if s[1] != '{' then Some(Unbraced)
    else
      match IndexOf(s[2..], '}')
      case None => Some(Unclosed)
      case Some(end) =>
        if end == 0 then Some(EmptyName) else if s[2..][..end] !in env then Some(Unset(s[2..][..end])) else None
  }

  function Name(s: string): string
    requires |s| > 2 && IndexOf(s[2..], '}').Some?
  {
    s[2..][..IndexOf(s[2..], '}').value]
  }

  function Expand(s: string, env: map<string, string>): Result
    decreases |s|
  {
    if s == "" then Expanded("")
    else if s[0] != '$' || |s| == 1 then Prefixed([s[0]], Expand(s[1..], env))
    else
      match Reference(s, env)
      case Some(e) => Rejected(e)
      case None => Prefixed(env[Name(s)], Expand(s[|Name(s)| + 3..], env))
  }

  method ExpandBraced(value: string, env: map<string, string>) returns (r: Result)
    ensures r == Expand(value, env)
  {
    if '$' !in value {
      NothingToExpand(value, env);
      return Expanded(value);
    }
    r := ExpandLoop(value, env);
  }

  method ExpandLoop(value: string, env: map<string, string>) returns (r: Result)
    ensures r == Expand(value, env)
  {
    var result := "";
    var i := 0;
    while i < |value|
      invariant i <= |value|
      invariant Expand(value, env) == Prefixed(result, Expand(value[i..], env))
    {
      ghost var s := value[i..];
      ghost var before := result;
      if value[i] != '$' || i + 1 >= |value| {
        result := result + [value[i]];
        DropDrop(value, i, 1);
        i := i + 1;
        PrefixTwice(before, [s[0]], Expand(s[1..], env));
      } else {
        var error, text, next := ExpandReferenceAt(value, i, env);
        if error.Some? {
          return Rejected(error.value);
        }
        DropDrop(value, i, next - i);
        result := result + text;
        i := next;
        PrefixTwice(before, text, Expand(value[i..], env));
      }
    }
    assert value[i..] == "" && result + "" == result;
    return Expanded(result);
  }

  /** The part of the loop for a dollar sign that something follows. */
  method ExpandReferenceAt(value: string, i: nat, env: map<string, string>)
    returns (error: Option<Error>, text: string, next: nat)
    requires i + 1 < |value| && value[i] == '$'
    ensures error == Reference(value[i..], env)
    ensures error.None? ==> text == env[Name(value[i..])] && i < next <= |value| && next - i == |Name(value[i..])| + 3
  {
    text, next := "", i;
    assert value[i..][1] == value[i + 1];
    if value[i + 1] != '{' {
      return Some(Unbraced), text, next;
    }
    var rest := value[i + 2..];
    DropDrop(value, i, 2);
    var end := IndexOf(rest, '}');
    if end.None? {
      return Some(Unclosed), text, next;
    }
    var name := rest[..end.value];
    if name == "" {
      return Some(EmptyName), text, next;
    }
    if name !in env {
      return Some(Unset(name)), text, next;
    }
    return None, env[name], i + 2 + end.value + 1;
  }

  lemma DropDrop(s: string, i: nat, k: nat)
    requires i + k <= |s|
    ensures s[i..][k..] == s[i + k..]
  {
  }

  lemma PrefixTwice(a: string, b: string, r: Result)
    ensures Prefixed(a, Prefixed(b, r)) == Prefixed(a + b, r)
  {
    if r.Expanded? {
      assert a + (b + r.text) == a + b + r.text;
    }
  }

  lemma {:induction false} NothingToExpand(s: string, env: map<string, string>)
    requires '$' !in s
    ensures Expand(s, env) == Expanded(s)
  {
    if s != "" {
      NothingToExpand(s[1..], env);
      assert [s[0]] + s[1..] == s;
    }
  }

  // ---------- Meaning ----------

  /** A value is characters other than a dollar sign, and references. */
  datatype Piece = Char(c: char) | Ref(name: string)

  predicate IsPiece(p: Piece, env: map<string, string>) {
    match p
    case Char(c) => c != '$'
    case Ref(name) => name != "" && '}' !in name && name in env
  }

  predicate ArePieces(ps: seq<Piece>, env: map<string, string>) {
    forall i :: 0 <= i < |ps| ==> IsPiece(ps[i], env)
  }

  function PieceSource(p: Piece): string {
    match p
    case Char(c) => [c]
    case Ref(name) => "${" + name + "}"
  }

  function Source(ps: seq<Piece>, tail: string): string {
    if ps == [] then tail
    else PieceSource(ps[0]) + Source(ps[1..], tail)
  }

  function Substituted(ps: seq<Piece>, env: map<string, string>, tail: string): string
    requires ArePieces(ps, env)
  {
    if ps == [] then tail
    else
      assert IsPiece(ps[0], env);
      (match ps[0] case Char(c) => [c] case Ref(name) => env[name]) + Substituted(ps[1..], env, tail)
  }

  /** Only a dollar sign at the very end stands for itself. */
  predicate IsTail(tail: string) {
    tail == "" || tail == "$"
  }

  lemma TailExpands(tail: string, env: map<string, string>)
    requires IsTail(tail)
    ensures Expand(tail, env) == Expanded(tail)
  {
    if tail == "$" {
      assert tail[1..] == "";
    }
  }

  /** Expansion replaces exactly the references. */
  lemma {:induction false} ExpandSource(ps: seq<Piece>, tail: string, env: map<string, string>)
    requires ArePieces(ps, env) && IsTail(tail)
    ensures Expand(Source(ps, tail), env) == Expanded(Substituted(ps, env, tail))
  {
    if ps == [] {
      TailExpands(tail, env);
    } else {
      assert IsPiece(ps[0], env);
      ExpandSource(ps[1..], tail, env);
      var rest := Source(ps[1..], tail);
      match ps[0] {
        case Char(c) =>
          assert Source(ps, tail)[0] == c && Source(ps, tail)[1..] == rest;
        case Ref(name) => ExpandReference(name, rest, env);
      }
    }
  }

  lemma ExpandReference(name: string, rest: string, env: map<string, string>)
    requires IsPiece(Ref(name), env)
    ensures Expand("${" + name + "}" + rest, env) == Prefixed(env[name], Expand(rest, env))
  {
    var s := "${" + name + "}" + rest;
    var after := name + ("}" + rest);
    assert s[0] == '$' && s[1] == '{' && s[2..] == after;
    assert after[|name|] == '}' && forall i :: 0 <= i < |name| ==> after[i] == name[i] && name[i] in name;
    assert IndexOf(after, '}') == Some(|name|);
    assert after[..|name|] == name;
    assert s[|name| + 3..] == rest;
  }

  /** A value is accepted if and only if it is made of characters, references to set
      variables, and perhaps a final dollar sign. */
  lemma {:induction false} ExpandsIff(s: string, env: map<string, string>)
    ensures Expand(s, env).Expanded? <==> exists ps, tail :: ArePieces(ps, env) && IsTail(tail) && s == Source(ps, tail)
    decreases |s|
  {
    if Expand(s, env).Expanded? {
      var ps, tail := PiecesOf(s, env);
      assert ArePieces(ps, env) && IsTail(tail) && s == Source(ps, tail);
    }
    if ps, tail :| ArePieces(ps, env) && IsTail(tail) && s == Source(ps, tail) {
      ExpandSource(ps, tail, env);
    }
  }

  lemma {:induction false} PiecesOf(s: string, env: map<string, string>) returns (ps: seq<Piece>, tail: string)
    requires Expand(s, env).Expanded?
    ensures ArePieces(ps, env) && IsTail(tail) && s == Source(ps, tail)
    decreases |s|
  {
    if IsTail(s) {
      ps, tail := [], s;
    } else {
      var p, rest := FirstPiece(s, env);
      hide *;
      var more: seq<Piece>;
      more, tail := PiecesOf(rest, env);
      ps := [p] + more;
      ConsPiece(p, more, tail, env);
    }
  }

  lemma ConsPiece(p: Piece, more: seq<Piece>, tail: string, env: map<string, string>)
    requires IsPiece(p, env) && ArePieces(more, env)
    ensures ArePieces([p] + more, env) && Source([p] + more, tail) == PieceSource(p) + Source(more, tail)
  {
    assert ([p] + more)[1..] == more;
  }

  lemma FirstPiece(s: string, env: map<string, string>) returns (p: Piece, rest: string)
    requires Expand(s, env).Expanded? && !IsTail(s)
    ensures IsPiece(p, env) && s == PieceSource(p) + rest && |rest| < |s| && Expand(rest, env).Expanded?
  {
    if s[0] != '$' {
      p, rest := Char(s[0]), s[1..];
    } else {
      assert s != "$";
      var name := Name(s);
      p, rest := Ref(name), s[|name| + 3..];
      assert s[2..][|name|] == '}' && forall i :: 0 <= i < |name| ==> s[2..][i] == name[i];
      assert s == "${" + name + "}" + rest;
    }
  }
}
