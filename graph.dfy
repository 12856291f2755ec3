/**
 * Undirected reachability over a finite set of edges. An edge (u, v) may be
 * walked in either direction.
 */
module Graph {

  ghost predicate Step<T>(edges: set<(T, T)>, u: T, v: T) {
    (u, v) in edges || (v, u) in edges
  }

  /** A non-empty walk whose consecutive nodes are joined by edges. */
  ghost predicate IsPath<T>(edges: set<(T, T)>, p: seq<T>) {
    |p| > 0 && forall k :: 0 <= k < |p| - 1 ==> Step(edges, p[k], p[k + 1])
  }

  ghost predicate Reach<T(!new)>(edges: set<(T, T)>, u: T, v: T) {
    exists p :: IsPath(edges, p) && p[0] == u && p[|p| - 1] == v
  }

  lemma ReachRefl<T(!new)>(edges: set<(T, T)>, u: T)
    ensures Reach(edges, u, u)
  {
    assert IsPath(edges, [u]);
  }

  lemma ReachEdge<T(!new)>(edges: set<(T, T)>, u: T, v: T)
    requires Step(edges, u, v)
    ensures Reach(edges, u, v)
  {
    assert IsPath(edges, [u, v]);
  }

  lemma ReachTrans<T(!new)>(edges: set<(T, T)>, u: T, v: T, w: T)
    requires Reach(edges, u, v) && Reach(edges, v, w)
    ensures Reach(edges, u, w)
  {
    var p :| IsPath(edges, p) && p[0] == u && p[|p| - 1] == v;
    var q :| IsPath(edges, q) && q[0] == v && q[|q| - 1] == w;
    var r := p + q[1..];
    forall k | 0 <= k < |r| - 1
      ensures Step(edges, r[k], r[k + 1])
    {
      if k < |p| - 1 {
        assert r[k] == p[k] && r[k + 1] == p[k + 1];
      } else {
        assert r[k] == q[k - |p| + 1] && r[k + 1] == q[k - |p| + 2];
      }
    }
    assert IsPath(edges, r);
  }

  /** Adding edges never disconnects anything. */
  lemma ReachMono<T(!new)>(edges: set<(T, T)>, more: set<(T, T)>, u: T, v: T)
    requires edges <= more && Reach(edges, u, v)
    ensures Reach(more, u, v)
  {
    var p :| IsPath(edges, p) && p[0] == u && p[|p| - 1] == v;
    assert IsPath(more, p);
  }

  /** A walk between two different nodes leaves its start along an edge. */
  lemma FirstStep<T(!new)>(edges: set<(T, T)>, u: T, v: T) returns (w: T)
    requires Reach(edges, u, v) && u != v
    ensures Step(edges, u, w) && Reach(edges, w, v)
  {
    var p :| IsPath(edges, p) && p[0] == u && p[|p| - 1] == v;
    w := p[1];
    assert IsPath(edges, p[1..]);
  }

  /** A walk between two different nodes enters its end along an edge. */
  lemma LastStep<T(!new)>(edges: set<(T, T)>, u: T, v: T) returns (w: T)
    requires Reach(edges, u, v) && u != v
    ensures Reach(edges, u, w) && Step(edges, w, v)
  {
    var p :| IsPath(edges, p) && p[0] == u && p[|p| - 1] == v;
    w := p[|p| - 2];
    assert IsPath(edges, p[..|p| - 1]);
  }

  /** A set of nodes that no edge leaves holds everything reachable from its members. */
  lemma ClosedReach<T(!new)>(edges: set<(T, T)>, s: set<T>, u: T, v: T)
    requires u in s
    requires forall a, b | a in s && Step(edges, a, b) :: b in s
    requires Reach(edges, u, v)
    ensures v in s
  {
    var p :| IsPath(edges, p) && p[0] == u && p[|p| - 1] == v;
    ClosedPath(edges, s, p, |p| - 1);
  }

  lemma {:induction false} ClosedPath<T>(edges: set<(T, T)>, s: set<T>, p: seq<T>, k: nat)
    requires IsPath(edges, p) && p[0] in s && k < |p|
    requires forall a, b | a in s && Step(edges, a, b) :: b in s
    ensures p[k] in s
  {
    if k > 0 {
      ClosedPath(edges, s, p, k - 1);
      assert Step(edges, p[k - 1], p[k]);
    }
  }
}
