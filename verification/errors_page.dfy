/**
 * The node's error log page: which page of logs it fetches, the pager's
 * buttons, and how runs of equal log lines are collapsed into one row. The
 * equality test on log lines is a parameter: the page imports it from the
 * error type, which does not define it.
 */
module ErrorsPage {
  import opened Wrappers

  const ResultsPerPage: int := 100

  /** The page number and the chain whose logs are shown. */
  datatype Pager = Pager(page: int, chain: string)

  /** The initial pager: page 1, no chain chosen. */
  const Initial: Pager := Pager(1, "")

  /** The fetch for the current pager: none while no chain is chosen. */
  datatype Query = Query(chain: string, limit: int, offset: int)

  function Request(p: Pager): (q: Option<Query>)
    ensures q.None? <==> p.chain == ""
    ensures q.Some? ==> q.value.chain == p.chain && q.value.limit == ResultsPerPage
    ensures q.Some? ==> q.value.offset == (p.page - 1) * ResultsPerPage
  {
    if p.chain == "" then None
    else Some(Query(p.chain, ResultsPerPage, p.page * ResultsPerPage - ResultsPerPage))
  }

  /** Choosing a chain starts again from page 1. */
  function SwitchChain(p: Pager, chain: string): (r: Pager)
    ensures r.page == 1 && r.chain == chain
  {
    Pager(1, chain)
  }

  predicate BackDisabled(p: Pager) {
    p.page <= 1
  }

  /** Next stays disabled until a full page of logs came back. */
  predicate NextDisabled(logsShown: nat) {
    logsShown < ResultsPerPage
  }

  datatype Click = Back | Next | Choose(chain: string)

  /** The pager after a click on an enabled control. */
  function Apply(p: Pager, c: Click, logsShown: nat): (r: Pager)
    ensures c.Back? && !BackDisabled(p) ==> r == p.(page := p.page - 1)
    ensures c.Next? && !NextDisabled(logsShown) ==> r == p.(page := p.page + 1)
    ensures c.Choose? ==> r == SwitchChain(p, c.chain)
    ensures (c.Back? && BackDisabled(p)) || (c.Next? && NextDisabled(logsShown)) ==> r == p
  {
    match c
    case Back => if BackDisabled(p) then p else p.(page := p.page - 1)
    case Next => if NextDisabled(logsShown) then p else p.(page := p.page + 1)
    case Choose(ch) => SwitchChain(p, ch)
  }

  /** The pager state after a sequence of clicks from the initial state. */
  function AfterClicks(clicks: seq<Click>, logsShown: nat): Pager
    decreases |clicks|
  {
    if |clicks| == 0 then Initial
    else Apply(AfterClicks(clicks[..|clicks| - 1], logsShown), clicks[|clicks| - 1], logsShown)
  }

  /** Whatever the user clicks, the page stays at least 1, so every fetch starts at a multiple of 100 from 0. */
  lemma {:induction false} PageStaysPositive(clicks: seq<Click>, logsShown: nat)
    ensures AfterClicks(clicks, logsShown).page >= 1
    ensures var q := Request(AfterClicks(clicks, logsShown));
            q.Some? ==> q.value.offset >= 0 && q.value.offset % ResultsPerPage == 0
    decreases |clicks|
  {
    if |clicks| != 0 {
      PageStaysPositive(clicks[..|clicks| - 1], logsShown);
    }
  }

  /** Distinct pages fetch disjoint windows of the log. */
  lemma WindowsDisjoint(p: Pager, q: Pager)
    requires p.chain != "" && q.chain != "" && p.page != q.page
    ensures Request(p).value.offset + ResultsPerPage <= Request(q).value.offset
         || Request(q).value.offset + ResultsPerPage <= Request(p).value.offset
  {
  }

  /** How a row renders: hidden, plainly, or with a note of how many times a log repeated. */
  datatype Row = Hidden | Plain | Repeated(times: nat)

  /** The two variables the row loop carries: the current repeat count and whether the run has ended. */
  datatype RowState = RowState(repeats: nat, done: bool)

  /** The update the row loop makes at row i before deciding how row i renders. */
  function Step<L>(logs: seq<L>, equal: (L, L) -> bool, i: nat, st: RowState): RowState
    requires i < |logs|
  {
    if i == 0 then st
    else
      var r0 := if st.repeats > 0 && st.done then 0 else st.repeats;
      var st1 := if equal(logs[i], logs[i - 1]) then RowState(r0 + 1, false)
                 else RowState(r0, if r0 > 0 then true else st.done);
      if i == |logs| - 1 then st1.(done := true) else st1
  }

  function Render(st: RowState): Row {
    if st.repeats > 0 then (if !st.done then Hidden else Repeated(st.repeats)) else Plain
  }

  /** The number of rows ending at j that each equal the row before them. */
  function Run<L>(logs: seq<L>, equal: (L, L) -> bool, j: int): nat
    requires j < |logs|
    decreases j
  {
    if j <= 0 then 0 else if equal(logs[j], logs[j - 1]) then Run(logs, equal, j - 1) + 1 else 0
  }

  /**
   * What row i shows, stated without the loop: a row equal to its predecessor
   * is hidden, except the last row, which carries the run's count; a row that
   * differs from its predecessor carries the count of the run that ended just
   * before it, if there was one.
   */
  function ExpectedRow<L>(logs: seq<L>, equal: (L, L) -> bool, i: nat): Row
    requires i < |logs|
  {
    if 0 < i && equal(logs[i], logs[i - 1]) then
      (if i < |logs| - 1 then Hidden else Repeated(Run(logs, equal, i)))
    else if Run(logs, equal, i - 1) > 0 then Repeated(Run(logs, equal, i - 1))
    else Plain
  }

  /** What the loop variables hold after row j. */
  ghost predicate After<L>(logs: seq<L>, equal: (L, L) -> bool, j: nat, st: RowState)
    requires j < |logs|
  {
    if 0 < j && equal(logs[j], logs[j - 1]) then
      st.repeats == Run(logs, equal, j) && st.done == (j == |logs| - 1)
    else
      st.repeats == Run(logs, equal, j - 1) && (st.repeats > 0 ==> st.done)
  }

  lemma StepKeepsAfter<L>(logs: seq<L>, equal: (L, L) -> bool, i: nat, st: RowState)
    requires i < |logs|
    requires i == 0 ==> st == RowState(0, true)
    requires 0 < i ==> After(logs, equal, i - 1, st)
    ensures After(logs, equal, i, Step(logs, equal, i, st))
    ensures Render(Step(logs, equal, i, st)) == ExpectedRow(logs, equal, i)
  {
  }

  /** The rows from i on, given the loop variables as they stand before row i. */
  function RowsFrom<L>(logs: seq<L>, equal: (L, L) -> bool, i: nat, st: RowState): (rows: seq<Row>)
    requires i <= |logs|
    requires i == 0 ==> st == RowState(0, true)
    requires 0 < i < |logs| ==> After(logs, equal, i - 1, st)
    ensures |rows| == |logs| - i
    ensures forall k :: i <= k < |logs| ==> rows[k - i] == ExpectedRow(logs, equal, k)
    decreases |logs| - i
  {
    if i == |logs| then []
    else
      var st' := Step(logs, equal, i, st);
      StepKeepsAfter(logs, equal, i, st);
      [Render(st')] + RowsFrom(logs, equal, i + 1, st')
  }

  /** The table body: one rendering per log, in order. */
  function Rows<L>(logs: seq<L>, equal: (L, L) -> bool): (rows: seq<Row>)
    ensures |rows| == |logs|
    ensures forall i :: 0 <= i < |logs| ==> rows[i] == ExpectedRow(logs, equal, i)
  {
    RowsFrom(logs, equal, 0, RowState(0, true))
  }

  /** A row is hidden exactly when it is neither first nor last and equals the row before it. */
  lemma HiddenIff<L>(logs: seq<L>, equal: (L, L) -> bool, i: nat)
    requires i < |logs|
    ensures Rows(logs, equal)[i] == Hidden <==> 0 < i < |logs| - 1 && equal(logs[i], logs[i - 1])
  {
  }

  /** The first and the last row are always shown. */
  lemma EndsAlwaysShown<L>(logs: seq<L>, equal: (L, L) -> bool)
    requires 0 < |logs|
    ensures Rows(logs, equal)[0] != Hidden
    ensures Rows(logs, equal)[|logs| - 1] != Hidden
  {
  }

  /** Without two equal neighbours every row renders plainly. */
  lemma NoRepeatsAllPlain<L>(logs: seq<L>, equal: (L, L) -> bool)
    requires forall i :: 0 < i < |logs| ==> !equal(logs[i], logs[i - 1])
    ensures forall i :: 0 <= i < |logs| ==> Rows(logs, equal)[i] == Plain
  {
    forall i | 0 <= i < |logs|
      ensures Rows(logs, equal)[i] == Plain
    {
      if i > 1 {
        assert !equal(logs[i - 1], logs[i - 2]);
      }
    }
  }

  /**
   * After a run, the repeat note goes on the next, different log: for three
   * equal logs followed by another, the fourth row says the log repeated twice.
   */
  lemma NoteOnFollowingLog<L>(a: L, b: L, equal: (L, L) -> bool)
    requires equal(a, a) && !equal(b, a)
    ensures Rows([a, a, a, b], equal) == [Plain, Hidden, Hidden, Repeated(2)]
  {
    var logs := [a, a, a, b];
    assert Run(logs, equal, 2) == 2;
    assert ExpectedRow(logs, equal, 3) == Repeated(2);
    assert ExpectedRow(logs, equal, 1) == Hidden;
    assert ExpectedRow(logs, equal, 2) == Hidden;
    assert ExpectedRow(logs, equal, 0) == Plain;
  }
}
