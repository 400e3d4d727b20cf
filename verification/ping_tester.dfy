/**
 * The ping tester's result colour. The ratio num_ok / num_sent is compared
 * with 1 and 0.8; when nothing was sent the ratio is NaN or Infinity, both
 * comparisons fail and the colour stays green.
 */
module PingTester {
  import opened Wrappers

  datatype PingResult = PingResult(numSent: nat, numOk: nat)
  datatype PingColor = Green | Orange | Red

  /** Green, then orange below a ratio of 1, then red below 0.8. */
  function ColorOf(r: PingResult): (c: PingColor)
    ensures c == Red <==> r.numSent > 0 && 5 * r.numOk < 4 * r.numSent
    ensures c == Orange <==> r.numSent > 0 && 4 * r.numSent <= 5 * r.numOk && r.numOk < r.numSent
    ensures c == Green <==> r.numSent == 0 || r.numOk >= r.numSent
  {
    if r.numSent == 0 then Green
    else
      RatioCompare(r.numOk, r.numSent);
      var percentOk := r.numOk as real / r.numSent as real;
      var color := if percentOk < 1.0 then Orange else Green;
      if percentOk < 0.8 then Red else color
  }

  /** Dividing by a positive number: a / n < k exactly when a < k * n. */
  lemma DivBelow(a: real, n: real, k: real)
    requires n > 0.0
    ensures a / n < k <==> a < k * n
  {
    var x := a / n;
    assert x * n == a;
    if x < k {
      assert (k - x) * n > 0.0;
    } else {
      assert (x - k) * n >= 0.0;
    }
  }

  /** The ratio's comparisons with 1 and 0.8, on integers. */
  lemma RatioCompare(ok: nat, sent: nat)
    requires sent > 0
    ensures ok as real / sent as real < 1.0 <==> ok < sent
    ensures ok as real / sent as real < 0.8 <==> 5 * ok < 4 * sent
  {
    DivBelow(ok as real, sent as real, 1.0);
    DivBelow(ok as real, sent as real, 0.8);
  }

  /** The effect on a new test result: a result recolours, an absent one leaves the colour as it was. */
  function NextColor(previous: Option<PingColor>, result: Option<PingResult>): (c: Option<PingColor>)
    ensures result.None? ==> c == previous
    ensures result.Some? ==> c == Some(ColorOf(result.value))
  {
    match result
    case None => previous
    case Some(r) => Some(ColorOf(r))
  }

  /** Ten pings sent: all ten answered is green, eight or nine orange, fewer red. */
  lemma TenPings(ok: nat)
    requires ok <= 10
    ensures ColorOf(PingResult(10, ok)) == (if ok == 10 then Green else if ok >= 8 then Orange else Red)
  {
  }

  /** More answers never make the colour worse. */
  lemma MoreAnswersNoWorse(sent: nat, ok1: nat, ok2: nat)
    requires ok1 <= ok2
    ensures ColorOf(PingResult(sent, ok1)) == Green ==> ColorOf(PingResult(sent, ok2)) == Green
    ensures ColorOf(PingResult(sent, ok2)) == Red ==> ColorOf(PingResult(sent, ok1)) == Red
  {
  }
}
