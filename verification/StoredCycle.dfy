/** The quota cycle as the store keeps it: a row whose instants are text columns. */
module StoredCycle {
  import opened Base
  import opened Timestamp
  import opened QuotaCycle

  /** The row of quota_cycle_state; absent optional columns are NULL. */
  datatype Row = Row(period: string, nextResetAt: Option<string>, previousPeriod: Option<string>,
                     periodStartedAt: Option<string>)

  type Table = Option<Row>

  /** CurrentPeriod in weekly mode: the row it leaves and the label or parse error it returns. */
  function ResolveRow(labels: Labels, table: Table, now: Instant): (Table, Result<string>) {
    match table
    case None => (table, Ok(labels(now)))
    case Some(row) =>
      if row.nextResetAt.None? then (table, RowLabel(row, now))
      else match ParseTs(row.nextResetAt.value)
        case None => (table, Err("parse quota reset time"))
        case Some(resetAt) =>
          var rolled := if resetAt <= now
                        then Row(UpstreamLabel(resetAt), None, Some(row.period), Some(Ts(resetAt)))
                        else row;
          (Some(rolled), RowLabel(rolled, now))
  }

  function RowLabel(row: Row, now: Instant): Result<string> {
    if row.previousPeriod.Some? && row.periodStartedAt.Some? then
      match ParseTs(row.periodStartedAt.value)
      case None => Err("parse quota period start")
      case Some(start) => Ok(if now < start then row.previousPeriod.value else row.period)
    else Ok(row.period)
  }

  /** ObserveUpstreamWeeklyReset in weekly mode. */
  function ObserveRow(labels: Labels, table: Table, resetAt: Instant, now: Instant): (Table, Result<()>) {
    if resetAt == ZERO_TIME || resetAt <= now then (table, Ok(()))
    else match table
      case None => (Some(Row(labels(now), Some(Ts(resetAt)), None, None)), Ok(()))
      case Some(row) =>
        if row.nextResetAt.None? then (Some(row.(nextResetAt := Some(Ts(resetAt)))), Ok(()))
        else match ParseTs(row.nextResetAt.value)
          case None => (table, Err("parse quota reset time"))
          case Some(previous) =>
            if resetAt <= previous then (table, Ok(()))
            else if previous <= now then
              (Some(Row(UpstreamLabel(previous), Some(Ts(resetAt)), Some(row.period), Some(Ts(previous)))), Ok(()))
            else (Some(row.(nextResetAt := Some(Ts(resetAt)))), Ok(()))
  }

  function TsOption(t: Option<Instant>): Option<string> { if t.None? then None else Some(Ts(t.value)) }

  function Encode(st: State): Table {
    match st
    case None => None
    case Some(c) => Some(Row(c.period, TsOption(c.next), c.prev, TsOption(c.start)))
  }

  predicate Storable(st: State) {
    st.Some? ==>
      && (st.value.next.Some? ==> Printable(st.value.next.value))
      && (st.value.start.Some? ==> Printable(st.value.start.value))
  }

  /** On stored texts the machine does exactly what it does on instants. */
  lemma {:induction false} ResolveRefines(labels: Labels, st: State, now: Instant)
    requires Storable(st)
    ensures ResolveRow(labels, Encode(st), now) == (Encode(Settle(st, now)), Ok(Resolve(labels, st, now)))
    ensures Storable(Settle(st, now))
  {
    hide Ts, ParseTs, Printable, UpstreamLabel;
    if st.Some? {
      if st.value.next.Some? { ParseUndoesPrint(st.value.next.value); }
      if st.value.start.Some? { ParseUndoesPrint(st.value.start.value); }
    }
  }

  lemma {:induction false} ObserveRefines(labels: Labels, st: State, resetAt: Instant, now: Instant)
    requires Storable(st)
    ensures ObserveRow(labels, Encode(st), resetAt, now) == (Encode(Observe(labels, st, resetAt, now)), Ok(()))
  {
    hide Ts, ParseTs, Printable, UpstreamLabel;
    if st.Some? && st.value.next.Some? { ParseUndoesPrint(st.value.next.value); }
  }

  lemma {:induction false} ObserveStorable(labels: Labels, st: State, resetAt: Instant, now: Instant)
    requires Storable(st) && Printable(resetAt)
    ensures Storable(Observe(labels, st, resetAt, now))
  {
    hide Ts, ParseTs, Printable, UpstreamLabel;
  }

  // ----- Runs over the stored row, and reopening -----

  function ApplyRow(labels: Labels, table: Table, s: Timed): Table {
    match s.step
    case Read(now) => ResolveRow(labels, table, now).0
    case Learn(resetAt) => ObserveRow(labels, table, resetAt, s.at).0
  }

  function RunRow(labels: Labels, table: Table, run: seq<Timed>): Table
    decreases |run|
  {
    if run == [] then table else RunRow(labels, ApplyRow(labels, table, run[0]), run[1..])
  }

  function DecodeText(t: Option<string>): Result<Option<Instant>> {
    if t.None? then Ok(None)
    else match ParseTs(t.value)
      case None => Err("malformed")
      case Some(i) => Ok(Some(i))
  }

  /** What a process that opens the database can read back from the row. */
  function Decode(table: Table): Result<State> {
    match table
    case None => Ok(None)
    case Some(row) =>
      match (DecodeText(row.nextResetAt), DecodeText(row.periodStartedAt))
      case (Ok(next), Ok(start)) => Ok(Some(Cycle(row.period, next, row.previousPeriod, start)))
      case _ => Err("malformed")
  }

  lemma {:induction false} DecodeUndoesEncode(st: State)
    ensures Decode(Encode(st)) == Ok(st) <==> Storable(st)
    ensures Decode(Encode(st)).Err? <==> !Storable(st)
  {
    hide Ts, ParseTs, Printable, UpstreamLabel;
    if st.Some? {
      if st.value.next.Some? { ParseUndoesPrint(st.value.next.value); }
      if st.value.start.Some? { ParseUndoesPrint(st.value.start.value); }
    }
  }

  ghost predicate PrintableBoundaries(run: seq<Timed>) {
    forall i :: 0 <= i < |run| && run[i].step.Learn? ==> Printable(run[i].step.resetAt)
  }

  /** Any run on the stored row can stop anywhere, be reopened from the text alone, and lose nothing. */
  lemma {:induction false} RunSurvivesReopening(labels: Labels, st: State, run: seq<Timed>)
    requires Storable(st) && PrintableBoundaries(run)
    ensures RunRow(labels, Encode(st), run) == Encode(Run(labels, st, run))
    ensures Decode(RunRow(labels, Encode(st), run)) == Ok(Run(labels, st, run))
    decreases |run|
  {
    hide Ts, ParseTs, Printable, UpstreamLabel;
    if run == [] {
      DecodeUndoesEncode(st);
    } else {
      match run[0].step {
        case Read(now) => ResolveRefines(labels, st, now);
        case Learn(resetAt) =>
          ObserveRefines(labels, st, resetAt, run[0].at);
          ObserveStorable(labels, st, resetAt, run[0].at);
      }
      assert forall i :: 0 <= i < |run[1..]| ==> run[1..][i] == run[i + 1];
      RunSurvivesReopening(labels, Apply(labels, st, run[0]), run[1..]);
    }
  }

  /** A boundary the store wrote can be read back exactly when its year has four digits; beyond
      that every later read fails, and every later observation of a further boundary too. */
  lemma {:induction false} UnprintableBoundaryBlocksReads(
    labels: Labels, c: Cycle, boundary: Instant, now: Instant, later: Instant)
    requires c.next == Some(boundary) && (c.start.Some? ==> Printable(c.start.value))
    ensures ResolveRow(labels, Encode(Some(c)), now).1.Err? <==> !Printable(boundary)
    ensures later != ZERO_TIME && now < later ==>
              (ObserveRow(labels, Encode(Some(c)), later, now).1.Err? <==> !Printable(boundary))
  {
    hide Ts, ParseTs, Printable, UpstreamLabel;
    ParseUndoesPrint(boundary);
    if c.start.Some? { ParseUndoesPrint(c.start.value); }
  }
}
