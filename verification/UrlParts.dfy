/** What a built upstream URL carries (pkg/upstream/http/executor.go:360-382): the base URL,
    behind it the filled path, and in the query the entries of both, overlaid by those of the
    envelope. */
module UrlParts {
  import opened Json
  import opened GoStrings
  import opened RequestCompiler
  import opened UrlTemplate

  predicate Without(s: string, c: char) {
    forall i :: 0 <= i < |s| ==> s[i] != c
  }

  /** The library splits a text without fragment at its first question mark, if it can parse it
      at all. */
  ghost predicate SplitsAtMark(lib: UrlLibrary) {
    forall a, b :: Without(a, '?') && Without(a, '#') && Without(b, '#') ==>
      && (lib.parse(a).Some? ==> lib.parse(a) == Some(Url(a, "")))
      && (lib.parse(a + "?" + b).Some? ==> lib.parse(a + "?" + b) == Some(Url(a, b)))
  }

  predicate NoneEmpty(query: map<string, seq<string>>) {
    forall k :: k in query ==> query[k] != []
  }

  /** A query without empty lists is read back from its encoding. */
  ghost predicate ReadsBack(lib: UrlLibrary) {
    && (forall raw :: NoneEmpty(lib.query(raw)))
    && (forall query :: NoneEmpty(query) ==> lib.query(lib.encode(query)) == query)
  }

  /** The entries of the envelope that are not empty stand alone under their names; under every
      other name is what was there before. */
  ghost predicate Overlaid(query: map<string, seq<string>>, own: map<string, seq<string>>,
                           entries: map<string, string>) {
    && (forall k :: k in entries && entries[k] != "" ==> k in query && query[k] == [entries[k]])
    && (forall k :: !(k in entries && entries[k] != "") ==>
          (k in query <==> k in own) && (k in own ==> query[k] == own[k]))
  }

  lemma OverlayIs(own: map<string, seq<string>>, entries: map<string, string>)
    ensures Overlaid(Overlay(own, entries), own, entries)
    ensures NoneEmpty(own) ==> NoneEmpty(Overlay(own, entries))
  {
  }

  /** Where `front` is the text before the first question mark and `own` what follows it. */
  lemma UrlOfSplit(lib: UrlLibrary, base: string, path: string, front: string, own: string,
                   entries: map<string, string>)
    requires SplitsAtMark(lib) && ReadsBack(lib)
    requires Without(front, '?') && Without(front, '#') && Without(own, '#')
    requires base + path == front + "?" + own || (base + path == front && own == "" && lib.query("") == map[])
    ensures var r := UrlOf(lib, base, path, entries);
            && (r.None? <==> lib.parse(base + path).None?)
            && (r.Some? ==> r.value.base == front && Overlaid(lib.query(r.value.rawQuery), lib.query(own), entries))
  {
    OverlayIs(lib.query(own), entries);
    hide Overlay, Without;
    var r := UrlOf(lib, base, path, entries);
    if lib.parse(base + path).Some? {
      assert lib.parse(base + path) == Some(Url(front, own));
    }
  }

  // ---------- Filled paths ----------

  /** Neither the template nor its placeholders bring a question mark or a number sign. */
  predicate NoDelimiter(p: Piece) {
    match p
    case Char(c) => c != '?' && c != '#'
    case Hole(name) => Without(name, '?') && Without(name, '#')
  }

  lemma PieceHasNone(p: Piece, values: map<string, string>)
    requires NoDelimiter(p)
    ensures Without(PieceText(p, values), '?') && Without(PieceText(p, values), '#')
  {
    if p.Hole? {
      if p.name in values {
        SegmentFaithful(values[p.name], "");
        hide PathEscape;
      } else {
        hide Without;
        NameHasNone(p.name, '?');
        NameHasNone(p.name, '#');
      }
    }
  }

  lemma NameHasNone(name: string, c: char)
    requires Without(name, c) && c != '{' && c != '}'
    ensures Without(Placeholder(name), c)
  {
  }

  lemma ConcatWithout(s: string, t: string, c: char)
    requires Without(s, c) && Without(t, c)
    ensures Without(s + t, c)
  {
  }

  lemma {:induction false} FilledHasNone(pieces: seq<Piece>, values: map<string, string>)
    requires forall i :: 0 <= i < |pieces| ==> NoDelimiter(pieces[i])
    ensures Without(Render(pieces, values), '?') && Without(Render(pieces, values), '#')
  {
    if pieces != [] {
      PieceHasNone(pieces[0], values);
      FilledHasNone(pieces[1..], values);
      hide Without, NoDelimiter;
      ConcatWithout(PieceText(pieces[0], values), Render(pieces[1..], values), '?');
      ConcatWithout(PieceText(pieces[0], values), Render(pieces[1..], values), '#');
    }
  }

  predicate Plain(s: string) {
    Without(s, '?') && Without(s, '#')
  }

  /** Behind a base URL without a query, a flat template without one leads to exactly the base
      and the filled path, whatever the values; the query has the entries of the envelope that
      are not empty, and nothing else. */
  lemma LeadsToPath(lib: UrlLibrary, base: string, template: string, env: Envelope)
    requires SplitsAtMark(lib) && ReadsBack(lib) && lib.query("") == map[]
    requires Plain(base) && forall i :: 0 <= i < |Parse(template)| ==> NoDelimiter(Parse(template)[i])
    ensures var path := Render(Parse(template), env.path);
            var r := UrlOf(lib, base, path, env.query);
            r.Some? ==>
              && |r.value.base| == |base| + |path| && r.value.base[..|base|] == base && r.value.base[|base|..] == path
              && Overlaid(lib.query(r.value.rawQuery), map[], env.query)
  {
    var path := Render(Parse(template), env.path);
    FilledHasNone(Parse(template), env.path);
    ConcatWithout(base, path, '?');
    ConcatWithout(base, path, '#');
    hide Render, Parse, Without, UrlOf, SplitsAtMark, ReadsBack, NoDelimiter, Overlaid;
    NoNumberSign();
    UrlOfSplit(lib, base, path, base + path, "", env.query);
  }

  lemma NoNumberSign()
    ensures Without("", '#')
  {
  }

  /** The path's own query entries stay unless the envelope has them, too. */
  lemma PathQueryStays(lib: UrlLibrary, base: string, path: string, own: string, entries: map<string, string>)
    requires SplitsAtMark(lib) && ReadsBack(lib) && Plain(base) && Plain(path) && Without(own, '#')
    ensures var r := UrlOf(lib, base, path + "?" + own, entries);
            r.Some? ==>
              && |r.value.base| == |base| + |path| && r.value.base[..|base|] == base && r.value.base[|base|..] == path
              && Overlaid(lib.query(r.value.rawQuery), lib.query(own), entries)
  {
    ConcatWithout(base, path, '?');
    ConcatWithout(base, path, '#');
    assert base + (path + "?" + own) == base + path + "?" + own;
    hide Without, UrlOf, SplitsAtMark, ReadsBack, Overlaid;
    UrlOfSplit(lib, base, path + "?" + own, base + path, own, entries);
  }

  /** A query at the end of the base URL swallows the path: the whole path becomes part of it. */
  lemma BaseQuerySwallowsPath(lib: UrlLibrary, front: string, own: string, path: string, entries: map<string, string>)
    requires SplitsAtMark(lib) && ReadsBack(lib) && Plain(front) && Without(own, '#') && Without(path, '#')
    ensures var r := UrlOf(lib, front + "?" + own, path, entries);
            r.Some? ==> r.value.base == front && Overlaid(lib.query(r.value.rawQuery), lib.query(own + path), entries)
  {
    ConcatWithout(own, path, '#');
    assert (front + "?" + own) + path == front + "?" + (own + path);
    hide Without, UrlOf, SplitsAtMark, ReadsBack, Overlaid;
    UrlOfSplit(lib, front + "?" + own, path, front, own + path, entries);
  }
}
