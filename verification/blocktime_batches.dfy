/**
 * The batch planning of the block-time fetcher: heights 1 up to the chain
 * height are requested in batches of at most 25 consecutive heights.
 */
module BlockTimeBatches {

  const BatchSize: nat := 25

  /** The consecutive heights a, a+1, …, b-1 (empty when b <= a). */
  function Range(a: int, b: int): (r: seq<int>)
    ensures |r| == if a < b then b - a else 0
    ensures forall k :: 0 <= k < |r| ==> r[k] == a + k
  {
    if a < b then seq(b - a, k => a + k) else []
  }

  function Flatten(bs: seq<seq<int>>): seq<int> {
    if |bs| == 0 then [] else bs[0] + Flatten(bs[1..])
  }

  function Min(a: int, b: int): int {
    if a < b then a else b
  }

  /** The size of the batch starting at i, as written: min(25, maxHeight - i). */
  function BatchSizeAt(i: int, maxHeight: int): (k: int)
    ensures k <= BatchSize && k <= maxHeight - i
    ensures k == BatchSize || k == maxHeight - i
  {
    Min(BatchSize, maxHeight - i)
  }

  /**
   * The batches the loop requests from height i on, as written: each starts
   * 25 after the previous one while the start does not exceed maxHeight.
   */
  function Batches(i: int, maxHeight: int): (bs: seq<seq<int>>)
    requires 1 <= i
    ensures forall j :: 0 <= j < |bs| ==> bs[j] == Range(i + j * BatchSize, i + j * BatchSize + BatchSizeAt(i + j * BatchSize, maxHeight))
    decreases maxHeight - i + 1
  {
    if i > maxHeight then []
    else
      var rest := Batches(i + BatchSize, maxHeight);
      assert forall j :: 1 <= j < |rest| + 1 ==> i + j * BatchSize == (i + BatchSize) + (j - 1) * BatchSize;
      [Range(i, i + BatchSizeAt(i, maxHeight))] + rest
  }

  /** The loop's plan: batches starting at height 1. */
  function Plan(maxHeight: int): seq<seq<int>> {
    Batches(1, maxHeight)
  }

  lemma FlattenCons(b: seq<int>, rest: seq<seq<int>>)
    ensures Flatten([b] + rest) == b + Flatten(rest)
  {
    assert ([b] + rest)[1..] == rest;
  }

  lemma RangeSplit(a: int, b: int, c: int)
    requires a <= b <= c
    ensures Range(a, b) + Range(b, c) == Range(a, c)
  {
  }

  /** The first batch followed by the heights from the next start on: the heights from i on. */
  lemma CoverStep(i: int, maxHeight: int)
    requires i <= maxHeight
    ensures Range(i, i + BatchSizeAt(i, maxHeight)) + Range(i + BatchSize, maxHeight) == Range(i, maxHeight)
  {
    var k := BatchSizeAt(i, maxHeight);
    if k == BatchSize {
      RangeSplit(i, i + k, maxHeight);
    } else {
      assert Range(i + BatchSize, maxHeight) == [];
      assert Range(i, i + k) + [] == Range(i, maxHeight);
    }
  }

  /** All batches together request exactly the heights i … maxHeight - 1, in order. */
  lemma {:induction false} BatchesCover(i: int, maxHeight: int)
    requires 1 <= i
    ensures Flatten(Batches(i, maxHeight)) == Range(i, maxHeight)
    decreases maxHeight - i + 1
  {
    if i <= maxHeight {
      BatchesCover(i + BatchSize, maxHeight);
      var k := BatchSizeAt(i, maxHeight);
      var rest := Batches(i + BatchSize, maxHeight);
      assert Batches(i, maxHeight) == [Range(i, i + k)] + rest;
      FlattenCons(Range(i, i + k), rest);
      CoverStep(i, maxHeight);
    }
  }

  /** The plan covers 1 … maxHeight - 1: the chain's own height is never requested. */
  lemma PlanMissesMaxHeight(maxHeight: int)
    ensures Flatten(Plan(maxHeight)) == Range(1, maxHeight)
    ensures maxHeight !in Flatten(Plan(maxHeight))
  {
    BatchesCover(1, maxHeight);
  }

  /** At height 26 the second batch starts at 26 and is empty, and height 26 is missed. */
  lemma PlanAt26()
    ensures Plan(26) == [Range(1, 26), []]
    ensures 26 !in Flatten(Plan(26))
  {
    PlanMissesMaxHeight(26);
    var bs := Plan(26);
    assert bs[0] == Range(1, 26);
    assert Batches(26, 26) == [Range(26, 26)] + Batches(51, 26);
  }

  /** The size of the batch starting at i with the count of remaining heights including maxHeight. */
  function CorrectedBatchSizeAt(i: int, maxHeight: int): (k: int)
    ensures k <= BatchSize && k <= maxHeight - i + 1
    ensures k == BatchSize || k == maxHeight - i + 1
  {
    Min(BatchSize, maxHeight - i + 1)
  }

  function CorrectedBatches(i: int, maxHeight: int): (bs: seq<seq<int>>)
    requires 1 <= i
    ensures forall j :: 0 <= j < |bs| ==> bs[j] == Range(i + j * BatchSize, i + j * BatchSize + CorrectedBatchSizeAt(i + j * BatchSize, maxHeight))
    decreases maxHeight - i + 1
  {
    if i > maxHeight then []
    else
      var rest := CorrectedBatches(i + BatchSize, maxHeight);
      assert forall j :: 1 <= j < |rest| + 1 ==> i + j * BatchSize == (i + BatchSize) + (j - 1) * BatchSize;
      [Range(i, i + CorrectedBatchSizeAt(i, maxHeight))] + rest
  }

  function CorrectedPlan(maxHeight: int): seq<seq<int>> {
    CorrectedBatches(1, maxHeight)
  }

  lemma CorrectedCoverStep(i: int, maxHeight: int)
    requires i <= maxHeight
    ensures Range(i, i + CorrectedBatchSizeAt(i, maxHeight)) + Range(i + BatchSize, maxHeight + 1) == Range(i, maxHeight + 1)
  {
    var k := CorrectedBatchSizeAt(i, maxHeight);
    if k == BatchSize {
      RangeSplit(i, i + k, maxHeight + 1);
    } else {
      assert Range(i + BatchSize, maxHeight + 1) == [];
      assert Range(i, i + k) + [] == Range(i, maxHeight + 1);
    }
  }

  /** The corrected batches request exactly i … maxHeight, in order, and none of them is empty. */
  lemma CorrectedBatchesCover(i: int, maxHeight: int)
    requires 1 <= i
    ensures Flatten(CorrectedBatches(i, maxHeight)) == Range(i, maxHeight + 1)
    ensures forall j :: 0 <= j < |CorrectedBatches(i, maxHeight)| ==> |CorrectedBatches(i, maxHeight)[j]| > 0
  {
    CorrectedBatchesFlatten(i, maxHeight);
    CorrectedBatchesNonEmpty(i, maxHeight);
  }

  lemma {:induction false} CorrectedBatchesFlatten(i: int, maxHeight: int)
    requires 1 <= i
    ensures Flatten(CorrectedBatches(i, maxHeight)) == Range(i, maxHeight + 1)
    decreases maxHeight - i + 1
  {
    if i <= maxHeight {
      CorrectedBatchesFlatten(i + BatchSize, maxHeight);
      var k := CorrectedBatchSizeAt(i, maxHeight);
      var rest := CorrectedBatches(i + BatchSize, maxHeight);
      assert CorrectedBatches(i, maxHeight) == [Range(i, i + k)] + rest;
      FlattenCons(Range(i, i + k), rest);
      CorrectedCoverStep(i, maxHeight);
    }
  }

  lemma {:induction false} CorrectedBatchesNonEmpty(i: int, maxHeight: int)
    requires 1 <= i
    ensures forall j :: 0 <= j < |CorrectedBatches(i, maxHeight)| ==> |CorrectedBatches(i, maxHeight)[j]| > 0
    decreases maxHeight - i + 1
  {
    if i <= maxHeight {
      CorrectedBatchesNonEmpty(i + BatchSize, maxHeight);
      var bs := CorrectedBatches(i, maxHeight);
      var rest := CorrectedBatches(i + BatchSize, maxHeight);
      assert bs == [Range(i, i + CorrectedBatchSizeAt(i, maxHeight))] + rest;
      forall j | 0 < j < |bs| ensures |bs[j]| > 0 {
        assert bs[j] == rest[j - 1];
      }
    }
  }

  /** The corrected plan requests every height 1 … maxHeight exactly once. */
  lemma CorrectedPlanCovers(maxHeight: int)
    ensures Flatten(CorrectedPlan(maxHeight)) == Range(1, maxHeight + 1)
    ensures forall h :: 1 <= h <= maxHeight ==> h in Flatten(CorrectedPlan(maxHeight))
  {
    CorrectedBatchesCover(1, maxHeight);
    var f := Flatten(CorrectedPlan(maxHeight));
    forall h | 1 <= h <= maxHeight ensures h in f {
      assert f[h - 1] == h;
    }
  }
}
