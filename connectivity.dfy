/**
 * What a disjoint-set labelling of the grid's elements means: two nodes
 * share a label exactly when the grid graph joins them by a walk. The
 * initial labelling and every union keep this correspondence.
 */
module Connectivity {
  import opened Graph
  import opened UnionFind
  import opened Grid

  ghost predicate EdgesValid(n: int, withBottom: bool, edges: set<(Node, Node)>) {
    forall e | e in edges :: ValidNode(n, withBottom, e.0) && ValidNode(n, withBottom, e.1)
  }

  ghost predicate Represents(n: int, withBottom: bool, ids: seq<nat>, edges: set<(Node, Node)>) {
    && n > 0
    && |ids| == Size(n, withBottom)
    && EdgesValid(n, withBottom, edges)
    && forall u, v {:trigger Reach(edges, u, v)} | ValidNode(n, withBottom, u) && ValidNode(n, withBottom, v) ::
         ids[Index(n, u)] == ids[Index(n, v)] <==> Reach(edges, u, v)
  }

  /** The empty grid graph joins no two different nodes. */
  lemma EmptyGridReach(n: int, withBottom: bool, u: Node, v: Node)
    ensures Reach(GridEdges(n, {}, withBottom), u, v) <==> u == v
  {
    if u == v {
      ReachRefl(GridEdges(n, {}, withBottom), u);
    } else if Reach(GridEdges(n, {}, withBottom), u, v) {
      var w := FirstStep(GridEdges(n, {}, withBottom), u, v);
      GridEdgesMember(n, {}, withBottom, u, w);
      GridEdgesMember(n, {}, withBottom, w, u);
      assert false;
    }
  }

  /** Singleton components represent the grid with every site blocked. */
  lemma InitialRepresents(n: int, withBottom: bool, ids: seq<nat>)
    requires n > 0 && |ids| == Size(n, withBottom)
    requires forall p, q :: 0 <= p < |ids| && 0 <= q < |ids| ==> (ids[p] == ids[q] <==> p == q)
    ensures Represents(n, withBottom, ids, GridEdges(n, {}, withBottom))
  {
    var edges := GridEdges(n, {}, withBottom);
    forall e | e in edges
      ensures ValidNode(n, withBottom, e.0) && ValidNode(n, withBottom, e.1)
    {
      GridEdgesMember(n, {}, withBottom, e.0, e.1);
    }
    forall u, v | ValidNode(n, withBottom, u) && ValidNode(n, withBottom, v)
      ensures ids[Index(n, u)] == ids[Index(n, v)] <==> Reach(edges, u, v)
    {
      EmptyGridReach(n, withBottom, u, v);
      if Index(n, u) == Index(n, v) {
        IndexInjective(n, u, v);
      }
    }
  }

  /** A labelling that agrees across every edge agrees along every walk. */
  lemma {:induction false} PathKeepsLabel(n: int, withBottom: bool, ids: seq<nat>, edges: set<(Node, Node)>, p: seq<Node>)
    requires n > 0 && |ids| == Size(n, withBottom)
    requires EdgesValid(n, withBottom, edges)
    requires forall e | e in edges :: ids[Index(n, e.0)] == ids[Index(n, e.1)]
    requires IsPath(edges, p) && ValidNode(n, withBottom, p[0])
    ensures ValidNode(n, withBottom, p[|p| - 1])
    ensures ids[Index(n, p[0])] == ids[Index(n, p[|p| - 1])]
  {
    if |p| > 1 {
      var q := p[..|p| - 1];
      assert IsPath(edges, q);
      PathKeepsLabel(n, withBottom, ids, edges, q);
      assert Step(edges, q[|q| - 1], p[|p| - 1]);
    }
  }

  /** Two nodes that the merged labelling puts together are joined once `a`-`b` is an edge. */
  lemma MergedJoined(n: int, withBottom: bool, ids: seq<nat>, edges: set<(Node, Node)>, a: Node, b: Node, u: Node, v: Node)
    requires Represents(n, withBottom, ids, edges)
    requires ValidNode(n, withBottom, a) && ValidNode(n, withBottom, b)
    requires ValidNode(n, withBottom, u) && ValidNode(n, withBottom, v)
    requires Merge(ids, Index(n, a), Index(n, b))[Index(n, u)] == Merge(ids, Index(n, a), Index(n, b))[Index(n, v)]
    ensures Reach(edges + Both(a, b), u, v)
  {
    var pa, pb, pu, pv := Index(n, a), Index(n, b), Index(n, u), Index(n, v);
    var more := edges + Both(a, b);
    if ids[pu] == ids[pv] {
      ReachMono(edges, more, u, v);
    } else if ids[pu] == ids[pa] && ids[pv] == ids[pb] {
      ReachMono(edges, more, u, a);
      ReachMono(edges, more, b, v);
      ReachEdge(more, a, b);
      ReachTrans(more, u, a, b);
      ReachTrans(more, u, b, v);
    } else {
      assert ids[pu] == ids[pb] && ids[pv] == ids[pa];
      ReachMono(edges, more, u, b);
      ReachMono(edges, more, a, v);
      ReachEdge(more, b, a);
      ReachTrans(more, u, b, a);
      ReachTrans(more, u, a, v);
    }
  }

  /** The merged labelling agrees across every old edge and across the new one. */
  lemma MergedRespectsEdges(n: int, withBottom: bool, ids: seq<nat>, edges: set<(Node, Node)>, a: Node, b: Node)
    requires Represents(n, withBottom, ids, edges)
    requires ValidNode(n, withBottom, a) && ValidNode(n, withBottom, b)
    ensures EdgesValid(n, withBottom, edges + Both(a, b))
    ensures forall e | e in edges + Both(a, b) ::
      Merge(ids, Index(n, a), Index(n, b))[Index(n, e.0)] == Merge(ids, Index(n, a), Index(n, b))[Index(n, e.1)]
  {
    var merged := Merge(ids, Index(n, a), Index(n, b));
    forall e | e in edges + Both(a, b)
      ensures merged[Index(n, e.0)] == merged[Index(n, e.1)]
    {
      if e in edges {
        ReachEdge(edges, e.0, e.1);
        assert ids[Index(n, e.0)] == ids[Index(n, e.1)];
      }
    }
  }

  /**
   * Merging the components of `a` and `b` represents the graph with the
   * edge between `a` and `b` added.
   */
  lemma UnionRepresents(n: int, withBottom: bool, ids: seq<nat>, edges: set<(Node, Node)>, a: Node, b: Node)
    requires Represents(n, withBottom, ids, edges)
    requires ValidNode(n, withBottom, a) && ValidNode(n, withBottom, b)
    ensures Index(n, a) < |ids| && Index(n, b) < |ids|
    ensures Represents(n, withBottom, Merge(ids, Index(n, a), Index(n, b)), edges + Both(a, b))
  {
    var merged := Merge(ids, Index(n, a), Index(n, b));
    var more := edges + Both(a, b);
    MergedRespectsEdges(n, withBottom, ids, edges, a, b);
    forall u, v | ValidNode(n, withBottom, u) && ValidNode(n, withBottom, v)
      ensures merged[Index(n, u)] == merged[Index(n, v)] <==> Reach(more, u, v)
    {
      if merged[Index(n, u)] == merged[Index(n, v)] {
        MergedJoined(n, withBottom, ids, edges, a, b, u, v);
      }
      if Reach(more, u, v) {
        var p :| IsPath(more, p) && p[0] == u && p[|p| - 1] == v;
        PathKeepsLabel(n, withBottom, merged, more, p);
      }
    }
  }

  /** Opening a blocked site: representing `AfterOpen` is representing the new grid graph. */
  lemma OpenedRepresents(n: int, withBottom: bool, ids: seq<nat>, open: set<(int, int)>, i: int, j: int,
                          edges: set<(Node, Node)>)
    requires InGrid(n, i, j) && (i, j) !in open
    requires edges == AfterOpen(GridEdges(n, open, withBottom), n, open, withBottom, i, j)
    requires Represents(n, withBottom, ids, edges)
    ensures Represents(n, withBottom, ids, GridEdges(n, open + {(i, j)}, withBottom))
  {
    OpenedEdges(n, open, withBottom, i, j);
  }
}
