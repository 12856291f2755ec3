/**
 * Short runs of the percolation API whose answers the model determines:
 * the 1-by-1 grid before and after its only site opens, and the 3-by-3
 * grid in which the bottom node would wrongly fill a site without the
 * second structure.
 */
module Scenarios {
  import opened Exceptions
  import opened Properties
  import opened Percolation

  /** `new Percolation(1)` does not percolate; after `open(1, 1)` it does. */
  method SingleSite() returns (before: bool, after: bool)
    ensures !before && after
  {
    var p := new Percolation(1);
    p.EmptyGrid(1, 1);
    before := p.Percolates();
    var r := p.Open(1, 1);
    assert p.OpenSites == {(1, 1)};
    SingleSitePercolates();
    after := p.Percolates();
  }

  /**
   * On the 3-by-3 grid, open column 1 and then (3, 3): the system
   * percolates, yet (3, 3) is not full, although it is joined to the top
   * node through the bottom node in `uf`.
   */
  method NoBackwash() returns (percolates: bool, full: Result<bool>)
    ensures percolates
    ensures full == Ok(false)
  {
    var p := new Percolation(3);
    var r1 := p.Open(1, 1);
    var r2 := p.Open(2, 1);
    var r3 := p.Open(3, 1);
    var r4 := p.Open(3, 3);
    assert p.OpenSites == BackwashSites();
    Backwash();
    percolates := p.Percolates();
    full := p.IsFull(3, 3);
  }
}
