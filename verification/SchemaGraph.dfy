/** Cycle detection in a graph of schemas (pkg/openapi/synthetic.go:22-29): a walk marks what
    it is inside of, and stops where it meets a mark. */
module SchemaGraph {
  /** A schema's identity: its address in the program. */
  type Id = nat

  /** The schemas that each schema's value is made of. */
  type Links = map<Id, set<Id>>

  lemma FewerUnvisited(all: set<Id>, id: Id, visited: set<Id>)
    requires id in all && id !in visited
    ensures |all - (visited + {id})| < |all - visited|
  {
    assert all - visited == (all - (visited + {id})) + {id};
  }

  /** The schemas at which the walk from a schema stops. */
  function Broken(f: Links, id: Id, visited: set<Id>): set<Id>
    decreases |f.Keys - visited|
  {
    if id !in f then {}
    else if id in visited then {id}
    else
      FewerUnvisited(f.Keys, id, visited);
      set x, w | x in f[id] && w in Broken(f, x, visited + {id}) :: w
  }

  /** A path the walk can take. */
  predicate IsPath(f: Links, p: seq<Id>) {
    && p != []
    && (forall i :: 0 <= i < |p| ==> p[i] in f)
    && (forall i :: 0 < i < |p| ==> p[i] in f[p[i - 1]])
  }

  /** A path that meets nothing visited and no schema twice, until its end does. */
  predicate Returns(f: Links, p: seq<Id>, visited: set<Id>) {
    && IsPath(f, p)
    && (forall i :: 0 <= i < |p| - 1 ==> p[i] !in visited)
    && (forall i, j :: 0 <= i < j < |p| - 1 ==> p[i] != p[j])
    && (p[|p| - 1] in visited || p[|p| - 1] in p[..|p| - 1])
  }

  predicate FromTo(p: seq<Id>, id: Id, w: Id) {
    p != [] && p[0] == id && p[|p| - 1] == w
  }

  /** The walk stops at exactly the schemas where some path from its root first returns. */
  lemma {:induction false} BrokenIffReturns(f: Links, id: Id, visited: set<Id>, w: Id)
    ensures w in Broken(f, id, visited) <==> exists p :: Returns(f, p, visited) && FromTo(p, id, w)
    decreases |f.Keys - visited|
  {
    if id in f && id in visited {
      AtVisited(f, id, visited, w);
    } else if id in f {
      FewerUnvisited(f.Keys, id, visited);
      if w in Broken(f, id, visited) {
        var x :| x in f[id] && w in Broken(f, x, visited + {id});
        BrokenIffReturns(f, x, visited + {id}, w);
        var p :| Returns(f, p, visited + {id}) && FromTo(p, x, w);
        Extend(f, id, visited, p, x, w);
      }
      if p :| Returns(f, p, visited) && FromTo(p, id, w) {
        Shorten(f, id, visited, p, w);
        BrokenIffReturns(f, p[1], visited + {id}, w);
      }
    } else {
      assert forall p :: Returns(f, p, visited) ==> p[0] in f;
    }
  }

  lemma AtVisited(f: Links, id: Id, visited: set<Id>, w: Id)
    requires id in f && id in visited
    ensures w == id <==> exists p :: Returns(f, p, visited) && FromTo(p, id, w)
  {
    if w == id {
      assert Returns(f, [id], visited) && FromTo([id], id, w);
    }
    if p :| Returns(f, p, visited) && FromTo(p, id, w) {
      assert |p| == 1;
    }
  }

  lemma Extend(f: Links, id: Id, visited: set<Id>, p: seq<Id>, x: Id, w: Id)
    requires id in f && id !in visited && x in f[id] && Returns(f, p, visited + {id}) && FromTo(p, x, w)
    ensures Returns(f, [id] + p, visited) && FromTo([id] + p, id, w)
  {
    var q := [id] + p;
    assert q[..|q| - 1] == [id] + p[..|p| - 1];
    assert forall i :: 0 < i < |q| ==> q[i] == p[i - 1];
    assert IsPath(f, q);
  }

  lemma Shorten(f: Links, id: Id, visited: set<Id>, p: seq<Id>, w: Id)
    requires id in f && id !in visited && Returns(f, p, visited) && FromTo(p, id, w)
    ensures |p| > 1 && p[1] in f[id] && Returns(f, p[1..], visited + {id}) && FromTo(p[1..], p[1], w)
  {
    var q := p[1..];
    assert |p| > 1;
    assert forall i :: 0 <= i < |q| ==> q[i] == p[i + 1];
    assert p[..|p| - 1] == [id] + q[..|q| - 1];
    assert IsPath(f, q);
  }

  predicate Repeats(p: seq<Id>) {
    exists i, j :: 0 <= i < j < |p| && p[i] == p[j]
  }

  /** The walk stops early if and only if some path it can take from its root meets a schema
      twice. Sharing a schema is no cycle. */
  lemma BreaksIffCyclic(f: Links, root: Id)
    ensures Broken(f, root, {}) != {} <==> exists p :: IsPath(f, p) && p[0] == root && Repeats(p)
  {
    if Broken(f, root, {}) != {} {
      var w :| w in Broken(f, root, {});
      BrokenIffReturns(f, root, {}, w);
      var p :| Returns(f, p, {}) && FromTo(p, root, w);
      var i :| 0 <= i < |p| - 1 && p[i] == w;
      assert IsPath(f, p) && p[0] == root && Repeats(p);
    }
    if p :| IsPath(f, p) && p[0] == root && Repeats(p) {
      var q := FirstReturn(f, p);
      BrokenIffReturns(f, root, {}, q[|q| - 1]);
      assert FromTo(q, root, q[|q| - 1]);
    }
  }

  lemma {:induction false} FirstReturn(f: Links, p: seq<Id>) returns (q: seq<Id>)
    requires IsPath(f, p) && Repeats(p)
    ensures Returns(f, q, {}) && q[0] == p[0]
    decreases |p|
  {
    var init := p[..|p| - 1];
    if Repeats(init) {
      assert IsPath(f, init);
      q := FirstReturn(f, init);
    } else {
      var i, j :| 0 <= i < j < |p| && p[i] == p[j];
      assert forall a :: 0 <= a < |init| ==> init[a] == p[a];
      assert j == |p| - 1;
      assert init[i] == p[j];
      assert forall a, b :: 0 <= a < b < |init| ==> init[a] != init[b];
      q := p;
    }
  }

  lemma NoneBelow(f: Links, id: Id, visited: set<Id>, x: Id)
    requires id in f && Broken(f, id, visited) == {} && x in f[id]
    ensures id !in visited && Broken(f, x, visited + {id}) == {}
  {
    forall w ensures w !in Broken(f, x, visited + {id}) {
      assert w in Broken(f, x, visited + {id}) ==> w in Broken(f, id, visited);
    }
  }

  lemma {:induction false} StillNone(f: Links, id: Id, less: set<Id>, more: set<Id>)
    requires less <= more && Broken(f, id, more) == {}
    ensures Broken(f, id, less) == {}
    decreases |f.Keys - more|
  {
    if id in f {
      assert id !in more;
      FewerUnvisited(f.Keys, id, more);
      forall x | x in f[id] ensures Broken(f, x, less + {id}) == {} {
        NoneBelow(f, id, more, x);
        StillNone(f, x, less + {id}, more + {id});
      }
    }
  }
}
