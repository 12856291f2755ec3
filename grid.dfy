/**
 * Geometry of the N-by-N site grid and the graph its open sites form.
 * Rows and columns are 1-indexed. The graph has one node per site and two
 * virtual nodes: `Top`, joined to every open site of row 1, and `Bottom`,
 * joined to every open site of row N (only in the graph that has a bottom).
 */
module Grid {
  import opened Graph

  datatype Node = Top | Bottom | Site(row: int, col: int)

  predicate InGrid(n: int, i: int, j: int) {
    1 <= i <= n && 1 <= j <= n
  }

  lemma MulMono(n: int, a: int, b: int)
    requires n >= 0 && a <= b
    ensures n * a <= n * b
  {
    assert n * b - n * a == n * (b - a);
  }

  /** The site's element number in the disjoint-set structures. */
  function To1D(n: int, i: int, j: int): (k: int)
    requires InGrid(n, i, j)
    ensures 1 <= k <= n * n
  {
    MulMono(n, 0, i - 1);
    MulMono(n, i - 1, n - 1);
    n * (i - 1) + j
  }

  /** Distinct sites get distinct element numbers. */
  lemma To1DInjective(n: int, i: int, j: int, i2: int, j2: int)
    requires InGrid(n, i, j) && InGrid(n, i2, j2)
    requires To1D(n, i, j) == To1D(n, i2, j2)
    ensures i == i2 && j == j2
  {
    if i < i2 {
      MulMono(n, i, i2 - 1);
    } else if i2 < i {
      MulMono(n, i2, i - 1);
    }
  }

  /** Every element number 1..N*N belongs to a site. */
  lemma To1DOnto(n: int, k: int) returns (i: int, j: int)
    requires n > 0 && 1 <= k <= n * n
    ensures InGrid(n, i, j) && To1D(n, i, j) == k
  {
    var q, m := (k - 1) / n, (k - 1) % n;
    assert k - 1 == n * q + m && 0 <= m < n;
    if q >= n {
      MulMono(n, n, q);
      assert false;
    }
    i, j := q + 1, m + 1;
  }

  /** Number of elements: N*N sites, the top node and, when present, the bottom node. */
  function Size(n: int, withBottom: bool): int {
    n * n + if withBottom then 2 else 1
  }

  predicate ValidNode(n: int, withBottom: bool, u: Node) {
    match u
    case Top => true
    case Bottom => withBottom
    case Site(r, c) => InGrid(n, r, c)
  }

  /** Element number of a node: top is 0, bottom is N*N+1, a site its `To1D`. */
  function Index(n: int, u: Node): (k: nat)
    requires ValidNode(n, true, u)
    ensures k <= n * n + 1
    ensures u.Site? ==> 1 <= k <= n * n
  {
    match u
    case Top => 0
    case Bottom => n * n + 1
    case Site(r, c) => To1D(n, r, c)
  }

  /** Every element number of a structure belongs to a node of its graph. */
  lemma IndexOnto(n: int, withBottom: bool, k: int) returns (u: Node)
    requires n > 0 && 0 <= k < Size(n, withBottom)
    ensures ValidNode(n, withBottom, u) && Index(n, u) == k
  {
    if k == 0 {
      u := Top;
    } else if k == n * n + 1 {
      u := Bottom;
    } else {
      var i, j := To1DOnto(n, k);
      u := Site(i, j);
    }
  }

  lemma IndexInjective(n: int, u: Node, v: Node)
    requires ValidNode(n, true, u) && ValidNode(n, true, v)
    requires Index(n, u) == Index(n, v)
    ensures u == v
  {
    if u.Site? && v.Site? {
      To1DInjective(n, u.row, u.col, v.row, v.col);
    }
  }

  predicate Adjacent(r: int, c: int, r2: int, c2: int) {
    (r == r2 && (c2 == c + 1 || c == c2 + 1)) || (c == c2 && (r2 == r + 1 || r == r2 + 1))
  }

  ghost predicate IsOpenSite(n: int, open: set<(int, int)>, r: int, c: int) {
    InGrid(n, r, c) && (r, c) in open
  }

  /** One direction of an edge of the grid graph. */
  ghost predicate Joins(n: int, open: set<(int, int)>, withBottom: bool, u: Node, v: Node) {
    match u
    case Site(r, c) =>
      IsOpenSite(n, open, r, c) &&
      (match v
       case Top => r == 1
       case Bottom => withBottom && r == n
       case Site(r2, c2) => IsOpenSite(n, open, r2, c2) && Adjacent(r, c, r2, c2))
    case _ => false
  }

  ghost predicate Linked(n: int, open: set<(int, int)>, withBottom: bool, u: Node, v: Node) {
    Joins(n, open, withBottom, u, v) || Joins(n, open, withBottom, v, u)
  }

  ghost function NodesOf(open: set<(int, int)>): set<Node> {
    {Top, Bottom} + set s | s in open :: Site(s.0, s.1)
  }

  /** The edges of the grid graph, both directions of each. */
  ghost function GridEdges(n: int, open: set<(int, int)>, withBottom: bool): set<(Node, Node)> {
    set u, v | u in NodesOf(open) && v in NodesOf(open) && Linked(n, open, withBottom, u, v) :: (u, v)
  }

  lemma GridEdgesMember(n: int, open: set<(int, int)>, withBottom: bool, u: Node, v: Node)
    ensures (u, v) in GridEdges(n, open, withBottom) <==> Linked(n, open, withBottom, u, v)
  {
    if Linked(n, open, withBottom, u, v) {
      if u.Site? {
        assert (u.row, u.col) in open;
      }
      if v.Site? {
        assert (v.row, v.col) in open;
      }
      assert u in NodesOf(open) && v in NodesOf(open);
    }
  }

  /** The graph without the bottom node is a subgraph of the one with it. */
  lemma NoBottomSubgraph(n: int, open: set<(int, int)>)
    ensures GridEdges(n, open, false) <= GridEdges(n, open, true)
  {
    forall e | e in GridEdges(n, open, false)
      ensures e in GridEdges(n, open, true)
    {
      GridEdgesMember(n, open, false, e.0, e.1);
      GridEdgesMember(n, open, true, e.0, e.1);
    }
  }

  ghost function Both(a: Node, b: Node): set<(Node, Node)> {
    {(a, b), (b, a)}
  }

  /** The edges that opening the blocked site (i, j) adds. */
  ghost function NewEdges(n: int, open: set<(int, int)>, withBottom: bool, i: int, j: int): set<(Node, Node)> {
    var s := Site(i, j);
    (if i == 1 then Both(s, Top) else {})
    + (if withBottom && i == n then Both(s, Bottom) else {})
    + (if j > 1 && (i, j - 1) in open then Both(s, Site(i, j - 1)) else {})
    + (if j < n && (i, j + 1) in open then Both(s, Site(i, j + 1)) else {})
    + (if i > 1 && (i - 1, j) in open then Both(s, Site(i - 1, j)) else {})
    + (if i < n && (i + 1, j) in open then Both(s, Site(i + 1, j)) else {})
  }

  /** `edges` with the edge between `a` and `b` added when `c` holds. */
  ghost function AddIf(edges: set<(Node, Node)>, c: bool, a: Node, b: Node): set<(Node, Node)> {
    if c then edges + Both(a, b) else edges
  }

  /** `edges` with (i, j) joined to the top node from row 1 and to the bottom node from row N. */
  ghost function Caps(edges: set<(Node, Node)>, n: int, withBottom: bool, i: int, j: int): set<(Node, Node)> {
    AddIf(AddIf(edges, i == 1, Site(i, j), Top), withBottom && i == n, Site(i, j), Bottom)
  }

  /** `edges` with (i, j) joined to its neighbour (r, c) when that is in range and open. */
  ghost function JoinIf(edges: set<(Node, Node)>, open: set<(int, int)>, i: int, j: int, r: int, c: int, inRange: bool)
    : set<(Node, Node)>
  {
    AddIf(edges, inRange && (r, c) in open, Site(i, j), Site(r, c))
  }

  /**
   * The grid graph `edges` once the blocked site (i, j) is opened: joined to
   * the caps, then to the left, right, upper and lower neighbour, in that
   * order.
   */
  ghost function AfterOpen(edges: set<(Node, Node)>, n: int, open: set<(int, int)>, withBottom: bool, i: int, j: int): set<(Node, Node)> {
    var e := Caps(edges, n, withBottom, i, j);
    JoinIf(JoinIf(JoinIf(JoinIf(e, open, i, j, i, j - 1, j > 1), open, i, j, i, j + 1, j < n),
      open, i, j, i - 1, j, i > 1), open, i, j, i + 1, j, i < n)
  }

  /** `AfterOpen` taken one test at a time, in `checkNeighbors`' order. */
  lemma AfterOpenSteps(edges: set<(Node, Node)>, n: int, open: set<(int, int)>, withBottom: bool, i: int, j: int,
                       e2: set<(Node, Node)>, e3: set<(Node, Node)>, e4: set<(Node, Node)>, e5: set<(Node, Node)>,
                       e6: set<(Node, Node)>)
    requires e2 == Caps(edges, n, withBottom, i, j)
    requires e3 == JoinIf(e2, open, i, j, i, j - 1, j > 1)
    requires e4 == JoinIf(e3, open, i, j, i, j + 1, j < n)
    requires e5 == JoinIf(e4, open, i, j, i - 1, j, i > 1)
    requires e6 == JoinIf(e5, open, i, j, i + 1, j, i < n)
    ensures e6 == AfterOpen(edges, n, open, withBottom, i, j)
  {
  }

  lemma OpenedLinks(n: int, open: set<(int, int)>, withBottom: bool, i: int, j: int, u: Node, v: Node)
    requires InGrid(n, i, j) && (i, j) !in open
    ensures Linked(n, open + {(i, j)}, withBottom, u, v) <==>
      Linked(n, open, withBottom, u, v) || (u, v) in NewEdges(n, open, withBottom, i, j)
  {
    var s := Site(i, j);
    if u != s && v != s {
      assert (u, v) !in NewEdges(n, open, withBottom, i, j);
      if u.Site? {
        assert (u.row, u.col) in open + {(i, j)} <==> (u.row, u.col) in open;
      }
      if v.Site? {
        assert (v.row, v.col) in open + {(i, j)} <==> (v.row, v.col) in open;
      }
    } else {
      assert !Linked(n, open, withBottom, u, v);
      OpenedSiteLinks(n, open, withBottom, i, j, if u == s then v else u);
    }
  }

  /** The links of the just-opened site are exactly the new edges at it. */
  lemma OpenedSiteLinks(n: int, open: set<(int, int)>, withBottom: bool, i: int, j: int, v: Node)
    requires InGrid(n, i, j) && (i, j) !in open
    ensures Linked(n, open + {(i, j)}, withBottom, Site(i, j), v) <==> (Site(i, j), v) in NewEdges(n, open, withBottom, i, j)
    ensures (Site(i, j), v) in NewEdges(n, open, withBottom, i, j) <==> (v, Site(i, j)) in NewEdges(n, open, withBottom, i, j)
  {
    var s := Site(i, j);
    match v
    case Top =>
    case Bottom =>
    case Site(r, c) =>
      assert (r, c) in open + {(i, j)} <==> (r, c) in open || (r, c) == (i, j);
  }

  /** Opening a blocked site turns the grid graph into `AfterOpen` of it. */
  lemma OpenedEdges(n: int, open: set<(int, int)>, withBottom: bool, i: int, j: int)
    requires InGrid(n, i, j) && (i, j) !in open
    ensures GridEdges(n, open + {(i, j)}, withBottom) ==
      AfterOpen(GridEdges(n, open, withBottom), n, open, withBottom, i, j)
  {
    var after := GridEdges(n, open + {(i, j)}, withBottom);
    var before := AfterOpen(GridEdges(n, open, withBottom), n, open, withBottom, i, j);
    forall e: (Node, Node)
      ensures e in after <==> e in before
    {
      GridEdgesMember(n, open + {(i, j)}, withBottom, e.0, e.1);
      GridEdgesMember(n, open, withBottom, e.0, e.1);
      OpenedLinks(n, open, withBottom, i, j, e.0, e.1);
      assert e in before <==> e in GridEdges(n, open, withBottom) || e in NewEdges(n, open, withBottom, i, j);
    }
  }
}
