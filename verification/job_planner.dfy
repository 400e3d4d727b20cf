/**
 * The job creator's planning loop: every height from the network height
 * down to 1 whose block or parameters are not cached is queued for processing.
 */
module JobPlanner {

  /** The queued heights: strictly descending, each between 1 and the network height. */
  predicate Descending(q: seq<int>, height: int) {
    (forall i :: 0 <= i < |q| ==> 1 <= q[i] <= height)
    && (forall i, j :: 0 <= i < j < |q| ==> q[i] > q[j])
  }

  /**
   * `for h := height; h > 0; h--`: a height goes to `blocksToProcess` iff no
   * block is cached for it, and to `paramsToProcess` iff no parameters are.
   */
  method Plan(height: int, cachedBlocks: set<int>, cachedParams: set<int>) returns (blocks: seq<int>, params: seq<int>)
    ensures Descending(blocks, height) && Descending(params, height)
    ensures forall h :: h in blocks <==> 1 <= h <= height && h !in cachedBlocks
    ensures forall h :: h in params <==> 1 <= h <= height && h !in cachedParams
  {
    blocks, params := [], [];
    var h := height;
    while h > 0
      invariant h <= height
      invariant h >= 0 || h == height
      invariant forall i :: 0 <= i < |blocks| ==> h < blocks[i] <= height
      invariant forall i :: 0 <= i < |params| ==> h < params[i] <= height
      invariant forall i, j :: 0 <= i < j < |blocks| ==> blocks[i] > blocks[j]
      invariant forall i, j :: 0 <= i < j < |params| ==> params[i] > params[j]
      invariant forall x :: x in blocks <==> h < x <= height && x !in cachedBlocks
      invariant forall x :: x in params <==> h < x <= height && x !in cachedParams
    {
      if h !in cachedBlocks {
        blocks := blocks + [h];
      }
      if h !in cachedParams {
        params := params + [h];
      }
      h := h - 1;
    }
  }
}
