/**
 * The percolation grid: an N-by-N matrix of open/blocked sites and two
 * disjoint-set structures over the sites' element numbers. `uf` also holds
 * a virtual top node 0 and a virtual bottom node N*N+1 and answers
 * `Percolates`; `ufNoBot` holds only the top node and answers `IsFull`, so
 * that a site joined to the bottom row is never reported full through the
 * bottom node.
 */
module Percolation {
  import opened Exceptions
  import opened Graph
  import opened UnionFind
  import opened Grid
  import opened Connectivity
  import opened Properties

  class Percolation {
    const top: nat := 0
    const bottom: nat
    const length: int
    const ar: array2<bool>
    const uf: UF
    const ufNoBot: UF

    /** The open sites, as (row, column) pairs. */
    ghost var OpenSites: set<(int, int)>

    /** Sizes, separation of the two structures, and the open sites held by `ar`. */
    ghost predicate Shape()
      reads this, ar
    {
      && length > 0
      && bottom == length * length + 1
      && ar.Length0 == length && ar.Length1 == length
      && uf.id.Length == Size(length, true)
      && ufNoBot.id.Length == Size(length, false)
      && uf.id != ufNoBot.id
      && (forall s | s in OpenSites :: InGrid(length, s.0, s.1))
      && (forall r, c | 0 <= r < length && 0 <= c < length :: ar[r, c] <==> (r + 1, c + 1) in OpenSites)
    }

    /**
     * The object invariant: `uf` partitions the nodes into the components of
     * the grid graph with both virtual nodes, `ufNoBot` into those of the
     * graph without the bottom node.
     */
    ghost predicate Valid()
      reads this, ar, uf.id, ufNoBot.id
    {
      && Shape()
      && Represents(length, true, uf.id[..], GridEdges(length, OpenSites, true))
      && Represents(length, false, ufNoBot.id[..], GridEdges(length, OpenSites, false))
    }

    constructor (N: int)
      requires N > 0
      ensures Valid() && length == N && OpenSites == {}
      ensures bottom == N * N + 1 && uf.id.Length == N * N + 2 && ufNoBot.id.Length == N * N + 1
      ensures forall r, c | 0 <= r < N && 0 <= c < N :: !ar[r, c]
      ensures fresh(ar) && fresh(uf.id) && fresh(ufNoBot.id)
    {
      length := N;
      ar := new bool[N, N]((_, _) => false);
      uf := new UF(N * N + 2);
      ufNoBot := new UF(N * N + 1);
      bottom := N * N + 1;
      OpenSites := {};
      new;
      InitialRepresents(N, true, uf.id[..]);
      InitialRepresents(N, false, ufNoBot.id[..]);
    }

    /** `new Percolation(N)`: throws `IllegalArgumentException` unless N > 0. */
    static method Create(N: int) returns (r: Result<Percolation>)
      ensures r.Err? <==> N <= 0
      ensures r.Err? ==> r.error == IllegalArgument
      ensures r.Ok? ==> fresh(r.value) && fresh(r.value.ar) && fresh(r.value.uf.id) && fresh(r.value.ufNoBot.id)
      ensures r.Ok? ==> r.value.Valid() && r.value.length == N && r.value.OpenSites == {}
    {
      if N <= 0 {
        return Err(IllegalArgument);
      }
      var p := new Percolation(N);
      r := Ok(p);
    }

    function Validate(i: int, j: int): (r: Outcome)
      ensures r.Pass? <==> InGrid(length, i, j)
      ensures r.Fail? ==> r.error == IndexOutOfBounds
    {
      if i < 1 || i > length || j < 1 || j > length then Fail(IndexOutOfBounds) else Pass
    }

    function IsOpen(i: int, j: int): (r: Result<bool>)
      reads this, ar
      requires Shape()
      ensures r.Err? <==> !InGrid(length, i, j)
      ensures r.Err? ==> r.error == IndexOutOfBounds
      ensures r.Ok? ==> (r.value <==> (i, j) in OpenSites)
    {
      match Validate(i, j)
      case Fail(e) => Err(e)
      case Pass => Ok(ar[i - 1, j - 1])
    }

    function IsFull(i: int, j: int): (r: Result<bool>)
      reads this, ar, uf.id, ufNoBot.id
      requires Valid()
      ensures r.Err? <==> !InGrid(length, i, j)
      ensures r.Err? ==> r.error == IndexOutOfBounds
      ensures r.Ok? ==> (r.value <==> Reach(GridEdges(length, OpenSites, false), Top, Site(i, j)))
    {
      match Validate(i, j)
      case Fail(e) => Err(e)
      case Pass =>
        assert Index(length, Site(i, j)) == To1D(length, i, j);
        Ok(ufNoBot.Connected(top, To1D(length, i, j)))
    }

    function Percolates(): (b: bool)
      reads this, ar, uf.id, ufNoBot.id
      requires Valid()
      ensures b <==> Reach(GridEdges(length, OpenSites, true), Top, Bottom)
    {
      assert Index(length, Bottom) == bottom;
      uf.Connected(top, bottom)
    }

    method Open(i: int, j: int) returns (r: Outcome)
      requires Valid()
      modifies this, ar, uf.id, ufNoBot.id
      ensures Valid()
      ensures r.Fail? <==> !InGrid(length, i, j)
      ensures r.Fail? ==> r.error == IndexOutOfBounds
      ensures r.Fail? ==> OpenSites == old(OpenSites) && unchanged(ar, uf.id, ufNoBot.id)
      ensures r.Pass? ==> OpenSites == old(OpenSites) + {(i, j)}
      ensures r.Pass? ==> ar[i - 1, j - 1]
      ensures r.Pass? ==>
        forall a, b | 0 <= a < length && 0 <= b < length && (a, b) != (i - 1, j - 1) :: ar[a, b] == old(ar[a, b])
      ensures r.Pass? && (i, j) in old(OpenSites) ==> unchanged(ar, uf.id, ufNoBot.id)
    {
      r := Validate(i, j);
      if r.Fail? {
        return;
      }
      if !IsOpen(i, j).value {
        ghost var before := OpenSites;
        ar[i - 1, j - 1] := true;
        OpenSites := OpenSites + {(i, j)};
        CheckNeighbors(i, j, before);
      }
    }

    /** Joins the just-opened site (i, j) to the caps and to its open neighbours, in both structures. */
    method CheckNeighbors(i: int, j: int, ghost before: set<(int, int)>)
      requires Shape() && InGrid(length, i, j)
      requires (i, j) !in before && OpenSites == before + {(i, j)}
      requires Represents(length, true, uf.id[..], GridEdges(length, before, true))
      requires Represents(length, false, ufNoBot.id[..], GridEdges(length, before, false))
      modifies uf.id, ufNoBot.id
      ensures Valid()
    {
      ghost var e0, b0 := GridEdges(length, before, true), GridEdges(length, before, false);
      ghost var e2, b2 := JoinCaps(i, j, e0, b0);
      ghost var e3, b3 := UnionIfOpen(i, j, i, j - 1, j > 1, before, e2, b2);
      ghost var e4, b4 := UnionIfOpen(i, j, i, j + 1, j < length, before, e3, b3);
      ghost var e5, b5 := UnionIfOpen(i, j, i - 1, j, i > 1, before, e4, b4);
      ghost var e6, b6 := UnionIfOpen(i, j, i + 1, j, i < length, before, e5, b5);
      AfterOpenSteps(e0, length, before, true, i, j, e2, e3, e4, e5, e6);
      AfterOpenSteps(b0, length, before, false, i, j, b2, b3, b4, b5, b6);
      OpenedRepresents(length, true, uf.id[..], before, i, j, e6);
      OpenedRepresents(length, false, ufNoBot.id[..], before, i, j, b6);
    }

    /** The first two tests of `checkNeighbors`: join (i, j) to the top node from row 1 and to the bottom node from row N. */
    method JoinCaps(i: int, j: int, ghost edges: set<(Node, Node)>, ghost edgesNoBot: set<(Node, Node)>)
      returns (ghost edges': set<(Node, Node)>, ghost edgesNoBot': set<(Node, Node)>)
      requires Shape() && InGrid(length, i, j)
      requires Represents(length, true, uf.id[..], edges)
      requires Represents(length, false, ufNoBot.id[..], edgesNoBot)
      modifies uf.id, ufNoBot.id
      ensures edges' == Caps(edges, length, true, i, j)
      ensures edgesNoBot' == Caps(edgesNoBot, length, false, i, j)
      ensures Represents(length, true, uf.id[..], edges')
      ensures Represents(length, false, ufNoBot.id[..], edgesNoBot')
    {
      var s := Site(i, j);
      edges', edgesNoBot' := edges, edgesNoBot;
      if i == 1 {
        UnionBoth(s, Top, edges, edgesNoBot);
        edges', edgesNoBot' := edges + Both(s, Top), edgesNoBot + Both(s, Top);
      }
      if i == length {
        UnionRepresents(length, true, uf.id[..], edges', s, Bottom);
        uf.Union(To1D(length, i, j), bottom);
        edges' := edges' + Both(s, Bottom);
      }
    }

    /**
     * One neighbour test of `checkNeighbors`: when the neighbour (r, c) is in
     * range and open, join it to (i, j) in both structures.
     */
    method UnionIfOpen(i: int, j: int, r: int, c: int, inRange: bool, ghost before: set<(int, int)>,
                       ghost edges: set<(Node, Node)>, ghost edgesNoBot: set<(Node, Node)>)
      returns (ghost edges': set<(Node, Node)>, ghost edgesNoBot': set<(Node, Node)>)
      requires Shape() && InGrid(length, i, j)
      requires inRange ==> InGrid(length, r, c) && ((r, c) in OpenSites <==> (r, c) in before)
      requires Represents(length, true, uf.id[..], edges)
      requires Represents(length, false, ufNoBot.id[..], edgesNoBot)
      modifies uf.id, ufNoBot.id
      ensures edges' == JoinIf(edges, before, i, j, r, c, inRange)
      ensures edgesNoBot' == JoinIf(edgesNoBot, before, i, j, r, c, inRange)
      ensures Represents(length, true, uf.id[..], edges')
      ensures Represents(length, false, ufNoBot.id[..], edgesNoBot')
    {
      edges', edgesNoBot' := edges, edgesNoBot;
      if inRange && IsOpen(r, c).value {
        UnionBoth(Site(i, j), Site(r, c), edges, edgesNoBot);
        edges', edgesNoBot' := edges + Both(Site(i, j), Site(r, c)), edgesNoBot + Both(Site(i, j), Site(r, c));
      }
    }

    /** The paired `uf.union(a, b); ufNoBot.union(a, b);` for two nodes other than the bottom one. */
    method UnionBoth(a: Node, b: Node, ghost edges: set<(Node, Node)>, ghost edgesNoBot: set<(Node, Node)>)
      requires Shape() && ValidNode(length, false, a) && ValidNode(length, false, b)
      requires Represents(length, true, uf.id[..], edges)
      requires Represents(length, false, ufNoBot.id[..], edgesNoBot)
      modifies uf.id, ufNoBot.id
      ensures Represents(length, true, uf.id[..], edges + Both(a, b))
      ensures Represents(length, false, ufNoBot.id[..], edgesNoBot + Both(a, b))
    {
      UnionRepresents(length, true, uf.id[..], edges, a, b);
      uf.Union(Index(length, a), Index(length, b));
      UnionRepresents(length, false, ufNoBot.id[..], edgesNoBot, a, b);
      ufNoBot.Union(Index(length, a), Index(length, b));
    }
  
    /** `ufNoBot.connected(p, q)` implies `uf.connected(p, q)`: the bottom node only ever adds connections. */
    lemma NoBotConnectedImpliesConnected(p: nat, q: nat)
      requires Valid() && p < ufNoBot.id.Length && q < ufNoBot.id.Length
      ensures p < uf.id.Length && q < uf.id.Length
      ensures ufNoBot.Connected(p, q) ==> uf.Connected(p, q)
    {
      var u := IndexOnto(length, false, p);
      var v := IndexOnto(length, false, q);
      if ufNoBot.Connected(p, q) {
        assert ufNoBot.id[..][Index(length, u)] == ufNoBot.id[..][Index(length, v)];
        NoBottomSubgraph(length, OpenSites);
        ReachMono(GridEdges(length, OpenSites, false), GridEdges(length, OpenSites, true), u, v);
        assert uf.id[..][Index(length, u)] == uf.id[..][Index(length, v)];
      }
    }

    /** A blocked site is never full. */
    lemma BlockedNeverFull(i: int, j: int)
      requires Valid() && InGrid(length, i, j) && (i, j) !in OpenSites
      ensures IsFull(i, j) == Ok(false)
    {
      BlockedIsolated(length, OpenSites, false, Top, i, j);
    }

    /** With every site of row 1 blocked the system does not percolate and no site is full. */
    lemma TopRowBlocked(i: int, j: int)
      requires Valid() && forall c :: (1, c) !in OpenSites
      ensures !Percolates()
      ensures IsFull(i, j).Ok? ==> !IsFull(i, j).value
    {
      TopIsolated(length, OpenSites, true, Bottom);
      TopIsolated(length, OpenSites, false, Site(i, j));
    }

    /** A freshly created grid does not percolate and has no full site. */
    lemma EmptyGrid(i: int, j: int)
      requires Valid() && OpenSites == {}
      ensures !Percolates()
      ensures InGrid(length, i, j) ==> IsFull(i, j) == Ok(false)
    {
      TopRowBlocked(i, j);
    }

    /**
     * No backwash through the bottom row: with only (N, 1) and (N, 2) open
     * on a grid of at least two rows, nothing percolates and (N, 1) is not full.
     */
    lemma BottomRowOpenOnly()
      requires Valid() && length >= 2 && OpenSites == {(length, 1), (length, 2)}
      ensures !Percolates()
      ensures IsFull(length, 1) == Ok(false) && IsFull(length, 2) == Ok(false)
    {
      BottomRowOnly(length, true);
      BottomRowOnly(length, false);
    }

    /** A grid with every site open percolates. */
    lemma AllOpenPercolates()
      requires Valid() && OpenSites == AllSites(length)
      ensures Percolates()
    {
      FullyOpenPercolates(length);
    }
  }
}
