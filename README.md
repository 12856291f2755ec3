# Percolation grid, modelled and proved in Dafny

This project models the `Percolation` class of the percolation-threshold
estimator: an N-by-N grid of sites, each open or blocked, backed by two
disjoint-set (union-find) structures.

- `uf` covers the N² sites plus a virtual top node (element 0) and a virtual
  bottom node (element N²+1). It answers `percolates`.
- `ufNoBot` covers the sites and the top node only. It answers `isFull`, so
  a site linked to the bottom row is never reported full through the
  bottom node ("backwash").

The model is imperative, like the source:

- `Percolation.Percolation` is a class with the Java fields: `ar` as an
  `array2<bool>`, `top`, `bottom`, `length`, and the two structures.
- `open` and `checkNeighbors` are methods that modify them.
- `isOpen`, `isFull`, `percolates`, `validate` and `to1D` are functions.

Java exceptions are values. `Exceptions.Outcome` is the result of a `void`
method, `Exceptions.Result` the result of a value-returning one, and
`Create` is the throwing constructor.

The disjoint-set structure, `UnionFind.UF`, is written as quick-find over
an `array<nat>` of labels. `Union` is proved against the specification
function `Merge`, which states the new partition.

The main invariant, `Percolation.Percolation.Valid`, ties each structure to
a graph. Module `Grid` builds these graphs and module `Connectivity` defines
the link:

- The nodes are the virtual `Top` and `Bottom` and the sites.
- Each open site is joined to its open neighbours and to `Top` when it is
  in row 1. In the graph that has `Bottom`, an open site in row N is also
  joined to `Bottom`.
- `Connectivity.Represents` says two nodes carry the same label in a
  structure exactly when a walk of the matching graph joins them.
- `Valid` uses the graph with `Bottom` for `uf`, and the graph without it
  for `ufNoBot`.

From this invariant:

- `percolates()` is exactly "top reaches bottom in the full graph".
- `isFull(i, j)` is exactly "top reaches (i, j) without using the bottom
  node".

Both are proved, together with the preservation of `Valid` by `open`.

Module `Properties` proves facts about these graphs: blocked sites are
isolated, an open column percolates, the bottom-row case, and a backwash
example. Module `Scenarios` contains methods that make short sequences of calls
whose results the contracts determine.

## Model

| member | source | states |
|---|---|---|
| Percolation.Percolation.constructor | src/com/company/Percolation.java:16-23 | for N > 0, every site is blocked, `bottom` is N²+1, `uf` has N²+2 elements and `ufNoBot` N²+1, and the invariant holds, so both structures represent the all-blocked grid |
| Percolation.Percolation.Create | src/com/company/Percolation.java:16-17 | fails with IllegalArgument exactly when N <= 0; otherwise yields a fresh, valid, all-blocked grid of side N |
| Percolation.Percolation.Validate | src/com/company/Percolation.java:59-63 | passes exactly when 1 <= i <= N and 1 <= j <= N; otherwise fails with IndexOutOfBounds |
| Percolation.Percolation.IsOpen | src/com/company/Percolation.java:44-47 | IndexOutOfBounds exactly when (i, j) is outside the grid; otherwise true exactly when (i, j) is an open site |
| Percolation.Percolation.IsFull | src/com/company/Percolation.java:54-57 | IndexOutOfBounds exactly when (i, j) is outside the grid; otherwise true exactly when (i, j) is reachable from the top node in the grid graph without the bottom node |
| Percolation.Percolation.Percolates | src/com/company/Percolation.java:100-102 | true exactly when the top node reaches the bottom node in the grid graph with both virtual nodes |
| Percolation.Percolation.Open | src/com/company/Percolation.java:31-37 | out of range: IndexOutOfBounds, and no state changes; in range: the site becomes open and every other cell of `ar` keeps its value; on an already open site nothing changes (idempotence); the invariant is preserved |
| Percolation.Percolation.CheckNeighbors | src/com/company/Percolation.java:69-93 | after the site (i, j) is opened, both structures again partition the nodes into the components of their graphs |
| Percolation.Percolation.JoinCaps | src/com/company/Percolation.java:70-76 | row 1 joins the site to the top node in both structures; row N joins it to the bottom node in `uf` only |
| Percolation.Percolation.UnionIfOpen | src/com/company/Percolation.java:77-92 | a neighbour is joined to the site in both structures exactly when it is in range and open |
| Percolation.Percolation.UnionBoth | src/com/company/Percolation.java:71-91 | the paired union of two nodes other than the bottom node keeps both structures in step with their graphs, each gaining that one edge |
| Percolation.Percolation.NoBotConnectedImpliesConnected | src/com/company/Percolation.java:69-92 | any two elements connected in `ufNoBot` are connected in `uf` |
| Percolation.Percolation.BlockedNeverFull | src/com/company/Percolation.java:54-57 | a blocked site is never full |
| Percolation.Percolation.TopRowBlocked | src/com/company/Percolation.java:70-73 | while every site of row 1 is blocked, nothing percolates and no site is full |
| Percolation.Percolation.EmptyGrid | src/com/company/Percolation.java:16-23 | a grid with no open site does not percolate and has no full site |
| Percolation.Percolation.BottomRowOpenOnly | src/com/company/Percolation.java:74-76 | for N >= 2 with only (N, 1) and (N, 2) open, the system does not percolate and neither site is full |
| Percolation.Percolation.AllOpenPercolates | src/com/company/Percolation.java:100-102 | a grid with every site open percolates |
| Grid.To1D | src/com/company/Percolation.java:65-67 | the element number of an in-grid site lies in 1..N², so it is never the top (0) or bottom (N²+1) element |
| Grid.To1DInjective | src/com/company/Percolation.java:65-67 | distinct sites have distinct element numbers |
| Grid.To1DOnto | src/com/company/Percolation.java:65-67 | every element number in 1..N² belongs to some in-grid site |
| Grid.Index | src/com/company/Percolation.java:20-22 | top is element 0, bottom element N²+1, and a site gets an element number in 1..N² |
| Grid.IndexInjective | src/com/company/Percolation.java:20-22 | distinct nodes have distinct element numbers |
| Grid.IndexOnto | src/com/company/Percolation.java:20-22 | every element of either structure belongs to a node of its graph |
| Grid.NoBottomSubgraph | src/com/company/Percolation.java:74-76 | every edge of the graph without the bottom node is an edge of the graph with it |
| Grid.OpenedLinks | src/com/company/Percolation.java:69-93 | after a blocked site opens, two nodes are linked exactly when they were linked before or the link is one of the new site's cap and neighbour links |
| Grid.OpenedEdges | src/com/company/Percolation.java:69-93 | the graph after opening a blocked site is the graph before plus the edges `checkNeighbors` adds, in its order |
| Grid.AfterOpenSteps | src/com/company/Percolation.java:69-93 | chaining the caps test and the four neighbour tests gives exactly those added edges |
| Connectivity.EmptyGridReach | src/com/company/Percolation.java:16-23 | with every site blocked, a node reaches only itself |
| Connectivity.InitialRepresents | src/com/company/Percolation.java:19-21 | all-distinct labels represent the all-blocked grid |
| Connectivity.UnionRepresents | src/com/company/Percolation.java:71-91 | merging the sets of two valid nodes represents the graph with the edge between them added |
| Connectivity.OpenedRepresents | src/com/company/Percolation.java:33-35 | labels representing the graph with the new site's edges added represent the grid with that site open |
| UnionFind.Merge | src/com/company/Percolation.java:71-91 | after union(p, q), x and y share a set exactly when they did before, or one was with p and the other with q |
| UnionFind.UF.constructor | src/com/company/Percolation.java:20-21 | n elements, each alone in its set |
| UnionFind.UF.Connected | src/com/company/Percolation.java:56 | p and q are connected exactly when they carry the same label; every element is connected to itself |
| UnionFind.UF.Union | src/com/company/Percolation.java:71-91 | the labels afterwards are the `Merge` of the labels before |
| Properties.BlockedIsolated | src/com/company/Percolation.java:33-35 | no node other than a blocked site itself reaches that site |
| Properties.TopIsolated | src/com/company/Percolation.java:70-73 | while row 1 is blocked, the top node reaches no other node |
| Properties.ColumnReach | src/com/company/Percolation.java:85-91 | a column open from row 1 down to row r joins the top node to (r, c) |
| Properties.ColumnPercolates | src/com/company/Percolation.java:74-76 | a column open from row 1 to row N joins top to bottom |
| Properties.FullyOpenPercolates | src/com/company/Percolation.java:100-102 | the fully open grid percolates |
| Properties.BottomRowOnly | src/com/company/Percolation.java:74-76 | for N >= 2 with only (N, 1) and (N, 2) open, the top node reaches neither the bottom node nor those sites, in either graph |
| Properties.Backwash | src/com/company/Percolation.java:54-57 | on the 3-by-3 grid with column 1 and (3, 3) open, the graph with the bottom node joins (3, 3) to the top node and the graph without it does not |
| Properties.SingleSitePercolates | src/com/company/Percolation.java:100-102 | on the 1-by-1 grid, opening the only site joins top to bottom |
| Scenarios.SingleSite | src/com/company/Percolation.java:100-102 | `new Percolation(1)` does not percolate, and after `open(1, 1)` it does |
| Scenarios.NoBackwash | src/com/company/Percolation.java:54-57 | after opening (1,1), (2,1), (3,1) and (3,3) on a 3-by-3 grid, the system percolates and `isFull(3, 3)` is false |

## Left out

- `PercolationStats`, the Monte Carlo driver, is not part of this model. It
  depends on a random source, floating-point statistics (mean, standard
  deviation, confidence bounds) and console output.
- The internals of `WeightedQuickUnionUF` (union by size, path handling) are
  not modelled: the source of `WeightedQuickUnionUF` is not among the files
  modelled here.
  - `UnionFind.UF` keeps only its operational contract: `connected`, `union`
    and `n` singleton sets at creation, implemented as quick-find.
  - Its `find` and `count` are not used by `Percolation` and are left out.
- UnionFind.UF.Union: out-of-range element numbers, which the structure
  rejects with an exception, become a precondition. Every call from
  `Percolation` is proved in range, so that error path cannot occur.
- Java's 32-bit `int` arithmetic is modelled with unbounded integers. For
  N > 46340, the source's `N * N + 2` overflows; the model does not.
- The ghost field `OpenSites` mirrors `ar` as a set of (row, column) pairs so
  contracts can speak of the open sites. The invariant ties the two together.
