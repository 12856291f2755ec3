/**
 * Facts about the grid graphs that the percolation queries answer from:
 * blocked sites are isolated, the top node reaches nothing while row 1 is
 * blocked, an open column joins top to bottom, and the bottom node can
 * join a site to the top only in the graph that has it.
 */
module Properties {
  import opened Graph
  import opened Grid

  /** Every site of the N-by-N grid. */
  ghost function AllSites(n: int): set<(int, int)> {
    set i, j | 1 <= i <= n && 1 <= j <= n :: (i, j)
  }

  /** A blocked site is joined to nothing: no other node reaches it. */
  lemma BlockedIsolated(n: int, open: set<(int, int)>, withBottom: bool, u: Node, r: int, c: int)
    requires (r, c) !in open && u != Site(r, c)
    ensures !Reach(GridEdges(n, open, withBottom), u, Site(r, c))
  {
    var edges := GridEdges(n, open, withBottom);
    if Reach(edges, u, Site(r, c)) {
      var w := LastStep(edges, u, Site(r, c));
      GridEdgesMember(n, open, withBottom, w, Site(r, c));
      GridEdgesMember(n, open, withBottom, Site(r, c), w);
      assert false;
    }
  }

  /** While every site of row 1 is blocked, the top node reaches no other node. */
  lemma TopIsolated(n: int, open: set<(int, int)>, withBottom: bool, v: Node)
    requires forall c :: (1, c) !in open
    requires v != Top
    ensures !Reach(GridEdges(n, open, withBottom), Top, v)
  {
    var edges := GridEdges(n, open, withBottom);
    if Reach(edges, Top, v) {
      var w := FirstStep(edges, Top, v);
      GridEdgesMember(n, open, withBottom, Top, w);
      GridEdgesMember(n, open, withBottom, w, Top);
      assert false;
    }
  }

  /** An open run of rows 1..r in column c joins the top node to site (r, c). */
  lemma {:induction false} ColumnReach(n: int, open: set<(int, int)>, withBottom: bool, r: int, c: int)
    requires InGrid(n, r, c)
    requires forall k | 1 <= k <= r :: (k, c) in open
    ensures Reach(GridEdges(n, open, withBottom), Top, Site(r, c))
  {
    var edges := GridEdges(n, open, withBottom);
    assert (r, c) in open;
    if r == 1 {
      GridEdgesMember(n, open, withBottom, Site(r, c), Top);
      ReachEdge(edges, Top, Site(r, c));
    } else {
      ColumnReach(n, open, withBottom, r - 1, c);
      assert (r - 1, c) in open;
      GridEdgesMember(n, open, withBottom, Site(r, c), Site(r - 1, c));
      ReachEdge(edges, Site(r - 1, c), Site(r, c));
      ReachTrans(edges, Top, Site(r - 1, c), Site(r, c));
    }
  }

  /** A column open from row 1 to row N joins the top node to the bottom node. */
  lemma ColumnPercolates(n: int, open: set<(int, int)>, c: int)
    requires 1 <= c <= n
    requires forall k | 1 <= k <= n :: (k, c) in open
    ensures Reach(GridEdges(n, open, true), Top, Bottom)
  {
    var edges := GridEdges(n, open, true);
    ColumnReach(n, open, true, n, c);
    assert (n, c) in open;
    GridEdgesMember(n, open, true, Site(n, c), Bottom);
    ReachEdge(edges, Site(n, c), Bottom);
    ReachTrans(edges, Top, Site(n, c), Bottom);
  }

  /** A grid with every site open percolates. */
  lemma FullyOpenPercolates(n: int)
    requires n > 0
    ensures Reach(GridEdges(n, AllSites(n), true), Top, Bottom)
  {
    forall k | 1 <= k <= n
      ensures (k, 1) in AllSites(n)
    {
    }
    ColumnPercolates(n, AllSites(n), 1);
  }

  /**
   * With only (N, 1) and (N, 2) open on a grid of at least two rows, the
   * system does not percolate and neither site is full, in either graph.
   */
  lemma BottomRowOnly(n: int, withBottom: bool)
    requires n >= 2
    ensures !Reach(GridEdges(n, {(n, 1), (n, 2)}, withBottom), Top, Bottom)
    ensures !Reach(GridEdges(n, {(n, 1), (n, 2)}, withBottom), Top, Site(n, 1))
    ensures !Reach(GridEdges(n, {(n, 1), (n, 2)}, withBottom), Top, Site(n, 2))
  {
    TopIsolated(n, {(n, 1), (n, 2)}, withBottom, Bottom);
    TopIsolated(n, {(n, 1), (n, 2)}, withBottom, Site(n, 1));
    TopIsolated(n, {(n, 1), (n, 2)}, withBottom, Site(n, 2));
  }

  /** The open sites of the backwash example: column 1 and the corner (3, 3) of a 3-by-3 grid. */
  ghost function BackwashSites(): set<(int, int)> {
    {(1, 1), (2, 1), (3, 1), (3, 3)}
  }

  /**
   * Backwash: on the 3-by-3 grid with column 1 and (3, 3) open, the graph
   * with the bottom node joins (3, 3) to the top through the bottom node,
   * and the graph without it does not.
   */
  lemma Backwash()
    ensures Reach(GridEdges(3, BackwashSites(), true), Top, Bottom)
    ensures Reach(GridEdges(3, BackwashSites(), true), Top, Site(3, 3))
    ensures !Reach(GridEdges(3, BackwashSites(), false), Top, Site(3, 3))
  {
    var open := BackwashSites();
    var edges := GridEdges(3, open, true);
    ColumnPercolates(3, open, 1);
    GridEdgesMember(3, open, true, Site(3, 3), Bottom);
    ReachEdge(edges, Bottom, Site(3, 3));
    ReachTrans(edges, Top, Bottom, Site(3, 3));
    var noBot := GridEdges(3, open, false);
    var component := {Top, Site(1, 1), Site(2, 1), Site(3, 1)};
    forall a, b | a in component && Step(noBot, a, b)
      ensures b in component
    {
      GridEdgesMember(3, open, false, a, b);
      GridEdgesMember(3, open, false, b, a);
    }
    if Reach(noBot, Top, Site(3, 3)) {
      ClosedReach(noBot, component, Top, Site(3, 3));
      assert false;
    }
  }

  /** On the 1-by-1 grid, opening the single site joins top to bottom. */
  lemma SingleSitePercolates()
    ensures Reach(GridEdges(1, {(1, 1)}, true), Top, Bottom)
  {
    ColumnPercolates(1, {(1, 1)}, 1);
  }
}
