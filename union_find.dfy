/**
 * The disjoint-set structure the grid delegates connectivity to. Only its
 * contract is modelled: `n` elements labelled by component, `Union` merging
 * exactly the two components of its arguments, `Connected` comparing
 * labels. The labelling is kept in the quick-find style: one label per
 * element, relabelled by a loop on union.
 */
module UnionFind {

  /** The labelling after merging the component of `p` into that of `q`. */
  function Merge(ids: seq<nat>, p: nat, q: nat): (r: seq<nat>)
    requires p < |ids| && q < |ids|
    ensures |r| == |ids|
    ensures forall x, y :: 0 <= x < |ids| && 0 <= y < |ids| ==>
      (r[x] == r[y] <==>
        ids[x] == ids[y] ||
        (ids[x] == ids[p] && ids[y] == ids[q]) ||
        (ids[x] == ids[q] && ids[y] == ids[p]))
  {
    seq(|ids|, k requires 0 <= k < |ids| => if ids[k] == ids[p] then ids[q] else ids[k])
  }

  class UF {
    /** `id[x]` names the component of element `x`. */
    const id: array<nat>

    /** `n` singleton components `0 .. n-1`. */
    constructor (n: nat)
      ensures fresh(id) && id.Length == n
      ensures forall p, q :: 0 <= p < n && 0 <= q < n ==> (id[p] == id[q] <==> p == q)
    {
      id := new nat[n](k => k);
    }

    /** `p` and `q` are in the same component: they carry the same label. */
    function Connected(p: nat, q: nat): (b: bool)
      reads id
      requires p < id.Length && q < id.Length
      ensures b <==> id[p] == id[q]
      ensures p == q ==> b
    {
      id[p] == id[q]
    }

    /** Relabels every element of `p`'s component with `q`'s label. */
    method Union(p: nat, q: nat)
      requires p < id.Length && q < id.Length
      modifies id
      ensures id[..] == Merge(old(id[..]), p, q)
    {
      var pid := id[p];
      var qid := id[q];
      if pid == qid {
        return;
      }
      var i := 0;
      while i < id.Length
        invariant 0 <= i <= id.Length
        invariant forall k :: 0 <= k < i ==> id[k] == if old(id[k]) == pid then qid else old(id[k])
        invariant forall k :: i <= k < id.Length ==> id[k] == old(id[k])
      {
        if id[i] == pid {
          id[i] := qid;
        }
        i := i + 1;
      }
    }
  }
}
