/** The event table and the incremental aggregate agree over whole runs. */
module LedgerRuns {
  import Base
  import Text
  import Timestamp
  import opened Ledger
  import opened Quota

  // ----- Aggregates are sums of accepted events -----

  function DropCell(rows: seq<EventRow>, cell: Cell): seq<EventRow> {
    if rows == [] then []
    else DropCell(rows[..|rows| - 1], cell) + (if CellOf(rows[|rows| - 1]) == cell then [] else [rows[|rows| - 1]])
  }

  /** The events accepted for each cell since its last reset; pruning and key deletion do not touch it. */
  function HistoryStep(cfg: Config, sys: Sys, history: seq<EventRow>, t: Call): seq<EventRow> {
    match t.op
    case RecordUsage(_) =>
      var row := DeliveredRow(cfg, sys, t);
      if Duplicate(sys.led.events, row) then history else history + [row]
    case ResetUsage(k) =>
      if k in sys.led.keys then DropCell(history, Cell(k, PeriodAt(cfg, sys.cycle, t.at))) else history
    case _ => history
  }

  function History(cfg: Config, sys: Sys, history: seq<EventRow>, run: seq<Call>): seq<EventRow>
    decreases |run|
  {
    if run == [] then history
    else History(cfg, Do(cfg, sys, run[0]), HistoryStep(cfg, sys, history, run[0]), run[1..])
  }

  /** The columns of a cell, summed event by event. */
  function Sum(rows: seq<EventRow>, cell: Cell): Totals {
    if rows == [] then ZERO
    else Plus(Sum(rows[..|rows| - 1], cell), Share(rows[|rows| - 1], cell))
  }

  function Share(row: EventRow, cell: Cell): Totals {
    if CellOf(row) == cell then Charge(row) else ZERO
  }

  lemma {:induction false} SumShape(rows: seq<EventRow>, cell: Cell)
    ensures Sum(rows, cell).requests >= 0
    ensures Sum(rows, cell).requests == 0 ==> Sum(rows, cell) == ZERO
  {
    hide Share, Plus;
    if rows != [] {
      var a, b := Sum(rows[..|rows| - 1], cell), Share(rows[|rows| - 1], cell);
      SumShape(rows[..|rows| - 1], cell);
      ShareShape(rows[|rows| - 1], cell);
      PlusRequests(a, b);
      PlusLaws(ZERO, ZERO, ZERO);
    }
  }

  lemma {:induction false} ShareShape(row: EventRow, cell: Cell)
    ensures Share(row, cell).requests == if CellOf(row) == cell then 1 else 0
    ensures CellOf(row) != cell ==> Share(row, cell) == ZERO
  {
    hide Base.Wrap64;
  }

  lemma {:induction false} SumSnoc(rows: seq<EventRow>, row: EventRow, cell: Cell)
    ensures Sum(rows + [row], cell) == Plus(Sum(rows, cell), Share(row, cell))
  {
    hide Share, Plus;
    assert (rows + [row])[..|rows|] == rows;
  }

  lemma {:induction false} PlusLaws(a: Totals, b: Totals, c: Totals)
    ensures Plus(a, ZERO) == Plus(ZERO, a) == a
    ensures Plus(a, b) == Plus(b, a)
    ensures Plus(Plus(a, b), c) == Plus(a, Plus(b, c))
    ensures Plus(Plus(a, b), c) == Plus(Plus(a, c), b)
  {
  }

  /** A cell has a row exactly when some accepted event is charged to it, and the row is their sum. */
  ghost predicate Agrees(usage: map<Cell, Totals>, rows: seq<EventRow>) {
    && (forall cell :: cell in usage <==> Sum(rows, cell).requests > 0)
    && (forall cell :: cell in usage ==> usage[cell] == Sum(rows, cell))
  }

  lemma {:induction false} SumAfterDrop(rows: seq<EventRow>, cell: Cell, other: Cell)
    ensures Sum(DropCell(rows, cell), other) == if other == cell then ZERO else Sum(rows, other)
  {
    hide Plus, Share;
    if rows != [] {
      var init, last := rows[..|rows| - 1], rows[|rows| - 1];
      SumAfterDrop(init, cell, other);
      ShareShape(last, other);
      PlusLaws(Sum(init, other), ZERO, ZERO);
      PlusLaws(ZERO, ZERO, ZERO);
      SumSnoc(DropCell(init, cell), last, other);
      if CellOf(last) == cell {
        assert DropCell(rows, cell) == DropCell(init, cell);
      }
    }
  }

  lemma {:induction false} PostAgrees(led: Books, rows: seq<EventRow>, row: EventRow)
    requires Agrees(led.usage, rows) && !Duplicate(led.events, row)
    ensures Agrees(Post(led, row).usage, rows + [row])
  {
    hide Share, Sum, Charge, Plus;
    var usage := AddUsage(led.usage, row);
    forall cell
      ensures cell in usage <==> Sum(rows + [row], cell).requests > 0
      ensures cell in usage ==> usage[cell] == Sum(rows + [row], cell)
    {
      SumSnoc(rows, row, cell);
      SumShape(rows, cell);
      ShareShape(row, cell);
      PlusRequests(Sum(rows, cell), Share(row, cell));
      PlusLaws(Sum(rows, cell), ZERO, ZERO);
      PlusLaws(Share(row, cell), ZERO, ZERO);
      ShareOwn(row);
    }
  }

  lemma {:induction false} PlusRequests(a: Totals, b: Totals)
    ensures Plus(a, b).requests == a.requests + b.requests
  {
  }

  lemma {:induction false} ShareOwn(row: EventRow)
    ensures Share(row, CellOf(row)) == Charge(row)
  {
    hide Charge;
  }

  lemma {:induction false} StepAgrees(cfg: Config, sys: Sys, rows: seq<EventRow>, t: Call)
    requires Agrees(sys.led.usage, rows)
    ensures Agrees(Do(cfg, sys, t).led.usage, HistoryStep(cfg, sys, rows, t))
  {
    hide PeriodAt, Move, Sum, Charge, Plus, Duplicate, RowOf;
    match t.op
    case RecordUsage(event) =>
      var row := DeliveredRow(cfg, sys, t);
      if !Duplicate(sys.led.events, row) { PostAgrees(sys.led, rows, row); }
    case ResetUsage(k) =>
      var cell := Cell(k, PeriodAt(cfg, sys.cycle, t.at));
      forall other
        ensures Sum(DropCell(rows, cell), other) == if other == cell then ZERO else Sum(rows, other)
      {
        SumAfterDrop(rows, cell, other);
      }
    case _ =>
  }

  /** Over any run of calls, each aggregate equals the sum and count of the events accepted for it
      since its last reset. */
  lemma {:induction false} LedgerAgreement(cfg: Config, sys: Sys, rows: seq<EventRow>, run: seq<Call>)
    requires Agrees(sys.led.usage, rows)
    ensures Agrees(RunCalls(cfg, sys, run).led.usage, History(cfg, sys, rows, run))
    decreases |run|
  {
    if run != [] {
      StepAgrees(cfg, sys, rows, run[0]);
      LedgerAgreement(cfg, Do(cfg, sys, run[0]), HistoryStep(cfg, sys, rows, run[0]), run[1..]);
    }
  }

  ghost predicate NothingReset(run: seq<Call>) { forall i :: 0 <= i < |run| ==> !run[i].op.ResetUsage? }

  /** No prune of the run deletes a row. */
  ghost predicate KeepsRows(cfg: Config, sys: Sys, run: seq<Call>)
    decreases |run|
  {
    run == [] ||
    (&& (run[0].op.Prune? ==> PruneRows(sys.led.events, Timestamp.Ts(run[0].op.before)) == sys.led.events)
     && KeepsRows(cfg, Do(cfg, sys, run[0]), run[1..]))
  }

  lemma {:induction false} PruneShrinks(events: seq<EventRow>, before: string)
    ensures |PruneRows(events, before)| <= |events|
    ensures |PruneRows(events, before)| == |events| <==> PruneRows(events, before) == events
  {
    hide Text.Less;
    if events != [] {
      PruneShrinks(events[1..], before);
      if !Text.Less(events[0].ts, before) { assert events == [events[0]] + events[1..]; }
    }
  }

  lemma {:induction false} NothingResetAfter(run: seq<Call>)
    requires NothingReset(run) && run != []
    ensures !run[0].op.ResetUsage? && NothingReset(run[1..])
  {
    assert forall i :: 0 <= i < |run[1..]| ==> run[1..][i] == run[i + 1];
  }

  /** The table never outgrows the history, and falls behind as soon as a prune deletes a row. */
  lemma {:induction false} HistoryAhead(cfg: Config, sys: Sys, history: seq<EventRow>, run: seq<Call>)
    requires NothingReset(run) && |history| >= |sys.led.events|
    ensures |History(cfg, sys, history, run)| >= |RunCalls(cfg, sys, run).led.events|
    ensures |history| > |sys.led.events| || !KeepsRows(cfg, sys, run) ==>
              |History(cfg, sys, history, run)| > |RunCalls(cfg, sys, run).led.events|
    decreases |run|
  {
    hide Charge, Duplicate, RowOf, PeriodAt, Move, PruneRows, NothingReset;
    if run != [] {
      var t := run[0];
      NothingResetAfter(run);
      if t.op.Prune? { PruneShrinks(sys.led.events, Timestamp.Ts(t.op.before)); }
      HistoryAhead(cfg, Do(cfg, sys, t), HistoryStep(cfg, sys, history, t), run[1..]);
    }
  }

  /** Over a run without resets, the aggregates are the sums over the event table itself exactly as long
      as no prune has deleted a row. */
  lemma {:induction false} TableIsHistory(cfg: Config, sys: Sys, run: seq<Call>)
    requires NothingReset(run)
    ensures History(cfg, sys, sys.led.events, run) == RunCalls(cfg, sys, run).led.events <==> KeepsRows(cfg, sys, run)
    decreases |run|
  {
    hide Charge, Duplicate, RowOf, PeriodAt, Move, PruneRows, NothingReset;
    if run != [] {
      HistoryAhead(cfg, sys, sys.led.events, run);
      NothingResetAfter(run);
      var t := run[0];
      if !t.op.Prune? || PruneRows(sys.led.events, Timestamp.Ts(t.op.before)) == sys.led.events {
        TableIsHistory(cfg, Do(cfg, sys, t), run[1..]);
      }
    }
  }

  function RawInputSum(rows: seq<EventRow>, cell: Cell): int {
    if rows == [] then 0
    else
      var row := rows[|rows| - 1];
      RawInputSum(rows[..|rows| - 1], cell) + (if CellOf(row) == cell then RawInput(row.tokens) else 0)
  }

  /** The input and cache-read columns of a cell together conserve raw input plus raw cache reads. */
  lemma {:induction false} ColumnsConserveInput(rows: seq<EventRow>, cell: Cell)
    requires forall i :: 0 <= i < |rows| && CellOf(rows[i]) == cell ==> !Miscounts(rows[i].tokens)
    ensures Sum(rows, cell).input + Sum(rows, cell).cacheRead == RawInputSum(rows, cell)
  {
    hide Charge, Miscounts;
    if rows != [] {
      var init := rows[..|rows| - 1];
      assert forall i :: 0 <= i < |init| ==> init[i] == rows[i];
      ColumnsConserveInput(init, cell);
      ChargeConserves(rows[|rows| - 1]);
    }
  }

  // ----- What the columns mean -----

  /** The columns of an aggregate row. */
  datatype Column = Input | Output | CacheRead | CacheWrite | Total | Requests | Errors

  function Shown(t: Totals, column: Column): int {
    match column
    case Input => t.input
    case Output => t.output
    case CacheRead => t.cacheRead
    case CacheWrite => t.cacheWrite
    case Total => t.total
    case Requests => t.requests
    case Errors => t.errors
  }

  /** The response reported its cache reads and writes apart from the input. */
  predicate CachesApart(t: Tokens) { t.cacheRead != 0 || t.cacheCreation != 0 }

  /** What an event reports for a column. Cached tokens that are a part of the input are cache reads. */
  function Meant(row: EventRow, column: Column): int {
    var t := row.tokens;
    match column
    case Input => if CachesApart(t) then t.input else t.input - t.cached
    case Output => t.output
    case CacheRead => if CachesApart(t) then t.cacheRead else t.cached
    case CacheWrite => t.cacheCreation
    case Total => t.total
    case Requests => 1
    case Errors => if row.failed then 1 else 0
  }

  function MeantSum(rows: seq<EventRow>, cell: Cell, column: Column): int {
    if rows == [] then 0
    else
      var row := rows[|rows| - 1];
      MeantSum(rows[..|rows| - 1], cell, column) + (if CellOf(row) == cell then Meant(row, column) else 0)
  }

  /** Each column of a cell is the plain sum of what its events report for it; for the input column no
      event may count more cached tokens than input. */
  lemma {:induction false} ColumnsAreSums(rows: seq<EventRow>, cell: Cell, column: Column)
    requires column.Input? ==> forall row :: row in rows && CellOf(row) == cell ==>
              0 <= row.tokens.cached <= row.tokens.input
    ensures Shown(Sum(rows, cell), column) == MeantSum(rows, cell, column)
  {
    hide Share, Meant, Plus, Shown;
    if rows == [] {
      ShownLaws(ZERO, ZERO, column);
    } else {
      var init, row := rows[..|rows| - 1], rows[|rows| - 1];
      assert forall r :: r in init ==> r in rows;
      ColumnsAreSums(init, cell, column);
      ShownLaws(Sum(init, cell), Share(row, cell), column);
      ShareShape(row, cell);
      if CellOf(row) == cell {
        ShareOwn(row);
        ChargeMeans(row, column);
      }
    }
  }

  lemma {:induction false} ShownLaws(a: Totals, b: Totals, column: Column)
    ensures Shown(Plus(a, b), column) == Shown(a, column) + Shown(b, column) && Shown(ZERO, column) == 0
  {
  }

  lemma {:induction false} ChargeMeans(row: EventRow, column: Column)
    requires column.Input? ==> 0 <= row.tokens.cached <= row.tokens.input
    ensures Shown(Charge(row), column) == Meant(row, column)
  {
    hide Base.Wrap64;
    var d: int := row.tokens.input - row.tokens.cached;
    if column.Input? { assert Base.Wrap64(d) == d; }
  }

  /** The column that limits are compared with. */
  function Metric(cfg: Config): Column { if cfg.outputMetric then Output else Total }

  /** Over any run of calls, what a limit is compared with is the sum of the output or total tokens of the
      events accepted for the key and period since the last reset. */
  lemma {:induction false} MetricIsSum(
    cfg: Config, sys: Sys, rows: seq<EventRow>, run: seq<Call>, keyHash: string, period: string)
    requires Agrees(sys.led.usage, rows)
    ensures ByMetric(cfg, PeriodTotals(RunCalls(cfg, sys, run).led, keyHash, period)) ==
              MeantSum(History(cfg, sys, rows, run), Cell(keyHash, period), Metric(cfg))
  {
    hide Sum, RunCalls, History, MeantSum;
    var history, cell := History(cfg, sys, rows, run), Cell(keyHash, period);
    LedgerAgreement(cfg, sys, rows, run);
    ColumnsAreSums(history, cell, Metric(cfg));
    SumShape(history, cell);
    SumOfNone(history, cell);
  }

  lemma {:induction false} SumOfNone(rows: seq<EventRow>, cell: Cell)
    ensures Sum(rows, cell).requests == 0 ==> Sum(rows, cell).output == 0 && Sum(rows, cell).total == 0
  {
    hide Sum;
    SumShape(rows, cell);
  }

  /** So after any run authentication lets a registered active key in exactly when it has no limit or the
      output or total tokens accepted for it in the period are below the limit. */
  lemma {:induction false} AdmissionCountsHistory(
    cfg: Config, sys: Sys, rows: seq<EventRow>, run: seq<Call>, rawKey: string, period: string)
    requires Agrees(sys.led.usage, rows) && NeedsPeriod(cfg, RunCalls(cfg, sys, run).led, rawKey)
    ensures var led, h := RunCalls(cfg, sys, run).led, HashKey(cfg, Text.Trim(rawKey));
            AuthAnswer(cfg, led, rawKey, period).allowed <==>
              led.keys[h].limit.None?
              || MeantSum(History(cfg, sys, rows, run), Cell(h, period), Metric(cfg)) < led.keys[h].limit.value
  {
    hide RunCalls, History, MeantSum, PeriodTotals, Metric, ByMetric, Text.Trim;
    MetricIsSum(cfg, sys, rows, run, HashKey(cfg, Text.Trim(rawKey)), period);
  }

  /** After any run the view of a key shows its settings and the sums of what its accepted events report. */
  lemma {:induction false} ViewShowsHistory(
    cfg: Config, sys: Sys, rows: seq<EventRow>, run: seq<Call>, keyHash: string, period: string)
    requires Agrees(sys.led.usage, rows) && keyHash in RunCalls(cfg, sys, run).led.keys
    requires var cell := Cell(keyHash, period);
             forall row :: row in History(cfg, sys, rows, run) && CellOf(row) == cell ==>
               0 <= row.tokens.cached <= row.tokens.input
    ensures var led, history, cell := RunCalls(cfg, sys, run).led, History(cfg, sys, rows, run), Cell(keyHash, period);
            var view := GetKey(cfg, led, keyHash, period).value;
            && (view.keyHash, view.displayName, view.limit, view.status) ==
               (keyHash, led.keys[keyHash].displayName, led.keys[keyHash].limit, led.keys[keyHash].status)
            && view.input == MeantSum(history, cell, Input) && view.output == MeantSum(history, cell, Output)
            && view.cached == MeantSum(history, cell, CacheRead) + MeantSum(history, cell, CacheWrite)
            && view.used == MeantSum(history, cell, Metric(cfg))
  {
    hide Sum, RunCalls, History, MeantSum, Base.Wrap64;
    var history, cell := History(cfg, sys, rows, run), Cell(keyHash, period);
    LedgerAgreement(cfg, sys, rows, run);
    ColumnsAreSums(history, cell, Input);
    ColumnsAreSums(history, cell, Output);
    ColumnsAreSums(history, cell, CacheRead);
    ColumnsAreSums(history, cell, CacheWrite);
    MetricIsSum(cfg, sys, rows, run, keyHash, period);
    SumShape(history, cell);
  }
}
