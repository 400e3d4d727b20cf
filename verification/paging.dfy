/**
 * The paged loops of the indexer, in one generic shape: round k asks for page
 * `pages(k)`, reads it together with the number of items collected so far,
 * and either fails, stops after it, or goes on to the next round.
 */
module Paging {
  import opened Wrappers

  /**
   * How a walk ended: with its items, with the first error, or out of fuel
   * (the provider kept answering in a way that does not stop the loop).
   */
  datatype Status<T> = Done(items: seq<T>) | Failed(msg: string) | OutOfFuel

  datatype Walk<T> = Walk(requested: seq<int>, status: Status<T>)

  /** One page as the loop sees it: the items read from it, and whether the loop stops after it. */
  datatype Page<T> = Page(items: seq<T>, stop: bool)

  /** Reference: the items of the given pages, read in order with the running count, or the first error. */
  function ItemsOf<T>(read: (int, nat) -> Result<Page<T>>, pages: seq<int>, have: nat): Result<seq<T>>
    decreases |pages|
  {
    if |pages| == 0 then Ok([])
    else match read(pages[0], have)
      case Err(e) => Err(e)
      case Ok(pg) =>
        match ItemsOf(read, pages[1..], have + |pg.items|)
        case Err(e) => Err(e)
        case Ok(rest) => Ok(pg.items + rest)
  }

  /** Every page of `pages` reads without error and asks the loop to go on. */
  predicate Continues<T>(read: (int, nat) -> Result<Page<T>>, pages: seq<int>, have: nat)
    decreases |pages|
  {
    |pages| == 0 || (read(pages[0], have).Ok? && !read(pages[0], have).value.stop
      && Continues(read, pages[1..], have + |read(pages[0], have).value.items|))
  }

  /** The pages before the last continue, and the last one reads without error and stops the loop. */
  predicate StopsAtLast<T>(read: (int, nat) -> Result<Page<T>>, pages: seq<int>, have: nat)
    decreases |pages|
  {
    |pages| > 0 && read(pages[0], have).Ok?
    && (if |pages| == 1 then read(pages[0], have).value.stop
        else !read(pages[0], have).value.stop && StopsAtLast(read, pages[1..], have + |read(pages[0], have).value.items|))
  }

  /** Pages 1, 2, 3, …: round k asks for page k + 1. */
  function Consecutive(k: nat): int {
    k + 1
  }

  /** The loop from round k on, with `have` items collected so far. */
  function Run<T>(read: (int, nat) -> Result<Page<T>>, pages: nat -> int, k: nat, have: nat, fuel: nat): (w: Walk<T>)
    ensures |w.requested| <= fuel
    ensures forall j :: 0 <= j < |w.requested| ==> w.requested[j] == pages(k + j)
    ensures w.status.OutOfFuel? ==> |w.requested| == fuel && Continues(read, w.requested, have)
    ensures !w.status.OutOfFuel? ==> 0 < |w.requested|
    ensures w.status.Done? ==> StopsAtLast(read, w.requested, have) && ItemsOf(read, w.requested, have) == Ok(w.status.items)
    ensures w.status.Failed? ==> ItemsOf(read, w.requested, have) == Err(w.status.msg)
    decreases fuel
  {
    if fuel == 0 then Walk([], OutOfFuel)
    else
      var p := pages(k);
      match read(p, have)
      case Err(e) => Walk([p], Failed(e))
      case Ok(pg) =>
        if pg.stop then
          assert [p][1..] == [] && pg.items + [] == pg.items;
          Walk([p], Done(pg.items))
        else
          var rest := Run(read, pages, k + 1, have + |pg.items|, fuel - 1);
          var status := match rest.status
            case Done(more) => Done(pg.items + more)
            case Failed(e) => Failed(e)
            case OutOfFuel => OutOfFuel;
          var w := Walk([p] + rest.requested, status);
          assert w.requested[1..] == rest.requested;
          w
  }

  /** The number of items collected before the last of `pages` is read. */
  function CountBeforeLast<T>(read: (int, nat) -> Result<Page<T>>, pages: seq<int>, have: nat): nat
    requires StopsAtLast(read, pages, have)
    decreases |pages|
  {
    if |pages| == 1 then have
    else CountBeforeLast(read, pages[1..], have + |read(pages[0], have).value.items|)
  }

  /**
   * A walk that stopped at its last page: the count before that page plus
   * the page's own items is the total collected, and that page stopped the loop.
   */
  lemma {:induction false} LastPage<T>(read: (int, nat) -> Result<Page<T>>, pages: seq<int>, have: nat, items: seq<T>)
    requires StopsAtLast(read, pages, have) && ItemsOf(read, pages, have) == Ok(items)
    ensures var c := CountBeforeLast(read, pages, have);
      && read(pages[|pages| - 1], c).Ok? && read(pages[|pages| - 1], c).value.stop
      && c + |read(pages[|pages| - 1], c).value.items| == have + |items|
    decreases |pages|
  {
    var pg := read(pages[0], have).value;
    if |pages| == 1 {
      assert pages[1..] == [] && pg.items + [] == pg.items;
      assert items == pg.items;
    } else {
      var more := ItemsOf(read, pages[1..], have + |pg.items|).value;
      LastPage(read, pages[1..], have + |pg.items|, more);
      assert pages[1..][|pages[1..]| - 1] == pages[|pages| - 1];
    }
  }
}
