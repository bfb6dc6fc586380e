/** The writer that keeps the first bytes of a command's output
    (pkg/upstream/command/command.go:418-437). */
module LimitWriter {
  type Byte = n: nat | n < 256

  function Min(a: int, b: int): int { if a < b then a else b }

  function Max(a: int, b: int): int { if a < b then b else a }

  /** What the writer behind does with a write: how many bytes it takes at most, and whether
      it reports an error. */
  datatype Sink = Sink(most: nat, fails: bool)

  /** A write of some bytes, and what the writer behind does with what it gets of them. */
  datatype Piece = Piece(bytes: seq<Byte>, sink: Sink)

  function Joined(chunks: seq<seq<Byte>>): seq<Byte> {
    if chunks == [] then [] else Joined(chunks[..|chunks| - 1]) + chunks[|chunks| - 1]
  }

  /** The first bytes of what was written, as many as the limit allows. */
  function Kept(chunks: seq<seq<Byte>>, limit: int): seq<Byte> {
    var all := Joined(chunks);
    all[..Min(|all|, Max(limit, 0))]
  }

  lemma KeptStep(chunks: seq<seq<Byte>>, p: seq<Byte>, limit: int)
    ensures var kept, left := Kept(chunks, limit), limit - |Kept(chunks, limit)|;
            Kept(chunks + [p], limit) == if left <= 0 then kept else kept + p[..Min(|p|, left)]
  {
    assert (chunks + [p])[..|chunks|] == chunks;
    var all, more := Joined(chunks), Joined(chunks + [p]);
    assert more == all + p;
  }

  /** What reaches the writer behind: of each write the bytes that the limit leaves, and of
      these the ones it takes. */
  function Reached(pieces: seq<Piece>, limit: int): seq<Byte> {
    if pieces == [] then []
    else
      var before, last := Reached(pieces[..|pieces| - 1], limit), pieces[|pieces| - 1];
      var left := limit - |before|;
      if left <= 0 then before
      else before + last.bytes[..Min(Min(|last.bytes|, left), last.sink.most)]
  }

  function Chunks(pieces: seq<Piece>): seq<seq<Byte>> {
    seq(|pieces|, i requires 0 <= i < |pieces| => pieces[i].bytes)
  }

  /** Never more than the limit reaches it; and if it takes what it is given, as a buffer does,
      exactly the first bytes of the output do, however that is cut into writes. */
  lemma {:induction false} ReachedIsKept(pieces: seq<Piece>, limit: int)
    ensures |Reached(pieces, limit)| <= Max(limit, 0)
    ensures (forall i :: 0 <= i < |pieces| ==> pieces[i].sink.most >= |pieces[i].bytes|) ==>
              Reached(pieces, limit) == Kept(Chunks(pieces), limit)
  {
    if pieces != [] {
      var init, last := pieces[..|pieces| - 1], pieces[|pieces| - 1];
      ReachedIsKept(init, limit);
      KeptStep(Chunks(init), last.bytes, limit);
      assert Chunks(pieces) == Chunks(init) + [last.bytes];
      hide Kept;
    }
  }

  /** A limited writer over another writer; `written` records the writes so far. */
  class Writer {
    var out: seq<Byte>
    var remaining: int
    ghost var written: seq<Piece>
    ghost const limit: int

    /** What is left is the limit less what reached the writer behind. */
    ghost predicate Valid()
      reads this
    {
      out == Reached(written, limit) && remaining == limit - |out|
    }

    constructor (limit: int)
      ensures Valid() && this.limit == limit && written == [] && out == []
    {
      out, remaining, written := [], limit, [];
      this.limit := limit;
    }

    /** All bytes are reported as written, so that the command never sees a short write; an
        error of the writer behind is passed on, if it was written to. */
    method Write(p: seq<Byte>, sink: Sink) returns (n: nat, failed: bool)
      requires Valid()
      modifies this
      ensures Valid() && written == old(written) + [Piece(p, sink)] && n == |p|
      ensures out == Reached(old(written) + [Piece(p, sink)], limit)
      ensures failed <==> sink.fails && |Reached(old(written), limit)| < limit
    {
      assert (written + [Piece(p, sink)])[..|written|] == written;
      written := written + [Piece(p, sink)];
      n := |p|;
      if remaining <= 0 {
        return n, false;
      }
      var q := p;
      if |p| > remaining {
        q := p[..remaining];
      }
      var taken := Min(|q|, sink.most);
      out := out + q[..taken];
      remaining := remaining - taken;
      failed := sink.fails;
    }
  }
}
