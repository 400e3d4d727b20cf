/** The indexing service's in-memory block repository: a map from height to block. */
module BlockStore {
  import opened Wrappers
  import opened Text
  import opened IndexingPocket

  type Store = map<int, Block>

  /** `NewBlocksRepo`: no height holds a block. */
  function NewStore(): (s: Store)
    ensures forall h :: FetchBlock(s, h) == (ZeroBlock, false)
  {
    map[]
  }

  /** `CreateSchema` never fails and leaves the store as it is. */
  function CreateSchema(s: Store): (r: (Store, Option<string>))
    ensures r.1.None? && forall h :: FetchBlock(r.0, h) == FetchBlock(s, h)
  {
    (s, None)
  }

  /** `DropSchemaIfExists` never fails and leaves the store as it is. */
  function DropSchemaIfExists(s: Store): (r: (Store, Option<string>))
    ensures r.1.None? && forall h :: FetchBlock(r.0, h) == FetchBlock(s, h)
  {
    (s, None)
  }

  /** `FetchAllBlocks`: every stored block under its height. */
  function FetchAllBlocks(s: Store): (r: map<int, Block>)
    ensures forall h :: (h in r <==> FetchBlock(s, h).1)
    ensures forall h :: h in r ==> r[h] == FetchBlock(s, h).0
  {
    s
  }

  /** `FetchBlock(height)`: the block and true, or the zero block and false. */
  function FetchBlock(s: Store, h: int): (r: (Block, bool))
    ensures r.1 <==> h in s
    ensures r.1 ==> r.0 == s[h]
    ensures !r.1 ==> r.0 == ZeroBlock
  {
    if h in s then (s[h], true) else (ZeroBlock, false)
  }

  /** `InsertBlock`: fails on an occupied height and leaves the store unchanged; otherwise adds only that block. */
  function InsertBlock(s: Store, b: Block): (r: Result<Store>)
    ensures r.Err? <==> FetchBlock(s, b.height).1
    ensures r.Ok? ==> FetchBlock(r.value, b.height) == (b, true)
    ensures r.Ok? ==> forall h :: h != b.height ==> FetchBlock(r.value, h) == FetchBlock(s, h)
  {
    if b.height in s then Err("Block already exists for height " + IntString(b.height))
    else Ok(s[b.height := b])
  }

  /**
   * `FetchBlocks(heights)`: walks the requested heights and keeps those that
   * are stored, each under its height with its block.
   */
  method FetchBlocks(s: Store, heights: seq<int>) returns (r: map<int, Block>)
    ensures forall h :: h in r <==> h in heights && FetchBlock(s, h).1
    ensures forall h :: h in r ==> r[h] == FetchBlock(s, h).0
  {
    r := map[];
    var i := 0;
    while i < |heights|
      invariant 0 <= i <= |heights|
      invariant forall h :: h in r <==> h in heights[..i] && h in s
      invariant forall h :: h in r ==> r[h] == s[h]
    {
      var h := heights[i];
      if h in s {
        r := r[h := s[h]];
      }
      assert heights[..i + 1] == heights[..i] + [h];
      i := i + 1;
    }
    assert heights[..i] == heights;
  }

  /** Inserting twice at the same height: the second insert fails and the first block stays. */
  lemma InsertTwice(s: Store, a: Block, b: Block)
    requires InsertBlock(s, a).Ok? && b.height == a.height
    ensures InsertBlock(InsertBlock(s, a).value, b).Err?
    ensures FetchBlock(InsertBlock(s, a).value, a.height) == (a, true)
  {
  }
}
