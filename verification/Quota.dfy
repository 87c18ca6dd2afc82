/** Whole store calls as steps: each first moves the cycle, then changes the ledger under the
    label it resolved. `Do` is on instants; `StoredDo` is on the stored text row. */
module Quota {
  import opened Base
  import Text
  import Timestamp
  import opened Ledger
  import QuotaCycle
  import StoredCycle

  datatype Op =
    | ReadPeriod(now: Instant)
    | ObserveReset(resetAt: Instant)
    | RecordUsage(event: UsageEvent)
    | Authenticate(rawKey: string)
    | ResetUsage(keyHash: string)
    | Prune(before: Instant)
    | AddKey(rawKey: string, displayName: string, limit: Option<int64>, status: string)
    | UpdateKey(keyHash: string, displayName: string, limit: Option<int64>, status: string)
    | DeleteKey(keyHash: string)

  /** The cycle step a call makes, if it reaches one. */
  function CycleStep(cfg: Config, led: Books, at: Instant, op: Op): Option<QuotaCycle.Step> {
    match op
    case ReadPeriod(now) => Some(QuotaCycle.Read(now))
    case ObserveReset(resetAt) => Some(QuotaCycle.Learn(resetAt))
    case RecordUsage(event) => Some(QuotaCycle.Read(Stamp(event, at)))
    case Authenticate(rawKey) => if NeedsPeriod(cfg, led, rawKey) then Some(QuotaCycle.Read(at)) else None
    case ResetUsage(keyHash) => if keyHash in led.keys then Some(QuotaCycle.Read(at)) else None
    case AddKey(rawKey, _, _, _) => if HashKey(cfg, rawKey) in led.keys then None else Some(QuotaCycle.Read(at))
    case UpdateKey(_, _, _, _) => Some(QuotaCycle.Read(at))
    case Prune(_) => None
    case DeleteKey(_) => None
  }

  /** The part of a call that happens whether or not the period can be resolved. */
  function Before(cfg: Config, led: Books, op: Op): Books {
    match op
    case Authenticate(rawKey) => RegisterUnknown(cfg, led, rawKey)
    case Prune(before) => led.(events := PruneRows(led.events, Timestamp.Ts(before)))
    case AddKey(rawKey, displayName, limit, status) =>
      var h := HashKey(cfg, rawKey);
      if h in led.keys then led else led.(keys := led.keys[h := NewKey(displayName, limit, status)])
    case UpdateKey(h, displayName, limit, status) => led.(keys := UpdateKeys(led.keys, h, displayName, limit, status))
    case DeleteKey(h) => led.(keys := led.keys - {h})
    case _ => led
  }

  /** The part of a call that uses the resolved label. */
  function After(led: Books, at: Instant, op: Op, period: string): Books {
    match op
    case RecordUsage(event) => Post(led, RowOf(event, at, period))
    case ResetUsage(keyHash) => if keyHash in led.keys then led.(usage := led.usage - {Cell(keyHash, period)}) else led
    case _ => led
  }

  lemma {:induction false} BeforeKeepsUsage(cfg: Config, led: Books, op: Op)
    ensures Before(cfg, led, op).usage == led.usage
    ensures !op.Prune? ==> Before(cfg, led, op).events == led.events
  {
  }

  lemma {:induction false} AfterUsesPeriod(led: Books, at: Instant, op: Op, period: string)
    ensures forall cell :: cell in After(led, at, op, period).usage ==> cell in led.usage || cell.period == period
    ensures !op.RecordUsage? && !op.ResetUsage? ==> After(led, at, op, period) == led
  {
    hide Charge, Duplicate;
  }

  datatype Call = Call(at: Instant, op: Op)

  // ----- On instants -----

  datatype Sys = Sys(cycle: QuotaCycle.State, led: Books)

  /** The label a call resolves for an instant: the cycle's in weekly mode, the month's otherwise. */
  function PeriodAt(cfg: Config, cycle: QuotaCycle.State, t: Instant): string {
    if cfg.weekly then QuotaCycle.Resolve(cfg.labels, cycle, t) else cfg.labels(t)
  }

  /** The row a record call would insert. */
  function DeliveredRow(cfg: Config, sys: Sys, t: Call): EventRow
    requires t.op.RecordUsage?
  {
    RowOf(t.op.event, t.at, PeriodAt(cfg, sys.cycle, Stamp(t.op.event, t.at)))
  }

  function Move(cfg: Config, cycle: QuotaCycle.State, at: Instant, s: QuotaCycle.Step): QuotaCycle.State {
    if cfg.weekly then QuotaCycle.Apply(cfg.labels, cycle, QuotaCycle.Timed(at, s)) else cycle
  }

  function Do(cfg: Config, sys: Sys, t: Call): Sys {
    match CycleStep(cfg, sys.led, t.at, t.op)
    case None => sys.(led := Before(cfg, sys.led, t.op))
    case Some(Learn(resetAt)) => sys.(cycle := Move(cfg, sys.cycle, t.at, QuotaCycle.Learn(resetAt)))
    case Some(Read(now)) =>
      Sys(Move(cfg, sys.cycle, t.at, QuotaCycle.Read(now)),
          After(Before(cfg, sys.led, t.op), t.at, t.op, PeriodAt(cfg, sys.cycle, now)))
  }

  function RunCalls(cfg: Config, sys: Sys, run: seq<Call>): Sys
    decreases |run|
  {
    if run == [] then sys else RunCalls(cfg, Do(cfg, sys, run[0]), run[1..])
  }

  lemma {:induction false} RunAppends(cfg: Config, sys: Sys, a: seq<Call>, b: seq<Call>)
    ensures RunCalls(cfg, sys, a + b) == RunCalls(cfg, RunCalls(cfg, sys, a), b)
    decreases |a|
  {
    hide Do;
    if a == [] {
      assert a + b == b;
    } else {
      assert (a + b)[1..] == a[1..] + b;
      RunAppends(cfg, Do(cfg, sys, a[0]), a[1..], b);
    }
  }

  /** A newly added non-blank key is the one authentication looks up afterwards, whatever white space
      surrounds it in either call, and it is active unless another status was asked for. */
  lemma {:induction false} AddedKeyIsRecognised(
    cfg: Config, sys: Sys, at: Instant, rawKey: string, name: string, limit: Option<int64>, status: string,
    presented: string)
    requires HashKey(cfg, rawKey) !in sys.led.keys && Text.Trim(rawKey) != ""
    requires Text.Trim(presented) == Text.Trim(rawKey)
    ensures var after := Do(cfg, sys, Call(at, AddKey(rawKey, name, limit, status))).led;
            NeedsPeriod(cfg, after, presented) <==> status == "" || status == ACTIVE
  {
    hide Text.TrimLeft, Text.TrimRight, PeriodAt, Move;
    Text.TrimIdempotent(rawKey);
  }

  // ----- On the stored row -----

  function ReadRow(cfg: Config, row: StoredCycle.Table, now: Instant): (StoredCycle.Table, Result<string>) {
    if cfg.weekly then StoredCycle.ResolveRow(cfg.labels, row, now) else (row, Ok(cfg.labels(now)))
  }

  function LearnRow(
    cfg: Config, row: StoredCycle.Table, resetAt: Instant, now: Instant): (StoredCycle.Table, Result<()>)
  {
    if cfg.weekly then StoredCycle.ObserveRow(cfg.labels, row, resetAt, now) else (row, Ok(()))
  }

  datatype Stored = Stored(row: StoredCycle.Table, led: Books)

  /** A call on the stored tables: what it leaves, and the label it resolved or its storage error. */
  function StoredDo(cfg: Config, s: Stored, t: Call): (Stored, Result<string>) {
    match CycleStep(cfg, s.led, t.at, t.op)
    case None => (s.(led := Before(cfg, s.led, t.op)), Ok(""))
    case Some(Learn(resetAt)) =>
      var (row, r) := LearnRow(cfg, s.row, resetAt, t.at);
      (s.(row := row), if r.Ok? then Ok("") else Err(r.error))
    case Some(Read(now)) =>
      var (row, r) := ReadRow(cfg, s.row, now);
      var led := Before(cfg, s.led, t.op);
      if r.Ok? then (Stored(row, After(led, t.at, t.op, r.value)), r) else (Stored(row, led), r)
  }

  function StoredCalls(cfg: Config, s: Stored, run: seq<Call>): Stored
    decreases |run|
  {
    if run == [] then s else StoredCalls(cfg, StoredDo(cfg, s, run[0]).0, run[1..])
  }

  /** The stored boundary does not parse. */
  predicate Unreadable(row: StoredCycle.Table) {
    row.Some? && row.value.nextResetAt.Some? && Timestamp.ParseTs(row.value.nextResetAt.value).None?
  }

  lemma {:induction false} UnreadableStep(cfg: Config, s: Stored, t: Call)
    requires cfg.weekly && Unreadable(s.row)
    ensures var (next, r) := StoredDo(cfg, s, t);
            && next.row == s.row && next.led.usage == s.led.usage
            && (t.op.RecordUsage? ==> r.Err? && next == s)
            && ReadRow(cfg, s.row, t.at).1.Err?
  {
    hide Timestamp.ParseTs, Timestamp.Ts, QuotaCycle.UpstreamLabel, NeedsPeriod, PruneRows, RegisterUnknown;
    hide UpdateKeys, NewKey;
    BeforeKeepsUsage(cfg, s.led, t.op);
  }

  /** An unreadable boundary blocks the store for good: whatever calls follow, the row stays, no record is
      accepted, no aggregate changes and every later period lookup fails. */
  lemma {:induction false} UnreadableBlocksForGood(cfg: Config, s: Stored, run: seq<Call>, at: Instant)
    requires cfg.weekly && Unreadable(s.row)
    ensures var end := StoredCalls(cfg, s, run);
            && end.row == s.row && end.led.usage == s.led.usage
            && (forall row :: row in end.led.events ==> row in s.led.events)
            && ReadRow(cfg, end.row, at).1.Err?
    decreases |run|
  {
    hide StoredDo, ReadRow, Unreadable;
    if run == [] {
      UnreadableStep(cfg, s, Call(at, ReadPeriod(at)));
    } else {
      UnreadableStep(cfg, s, run[0]);
      UnreadableEvents(cfg, s, run[0]);
      UnreadableBlocksForGood(cfg, StoredDo(cfg, s, run[0]).0, run[1..], at);
    }
  }

  lemma {:induction false} UnreadableEvents(cfg: Config, s: Stored, t: Call)
    requires cfg.weekly && Unreadable(s.row)
    ensures forall row :: row in StoredDo(cfg, s, t).0.led.events ==> row in s.led.events
  {
    hide ReadRow, LearnRow, Timestamp.Ts, Unreadable;
    if t.op.RecordUsage? {
      UnreadableStep(cfg, s, t);
    } else {
      BeforeEvents(cfg, s.led, t.op);
    }
  }

  lemma {:induction false} BeforeEvents(cfg: Config, led: Books, op: Op)
    ensures forall row :: row in Before(cfg, led, op).events ==> row in led.events
  {
    hide Timestamp.Ts;
  }

  ghost predicate PrintableBoundaries(run: seq<Call>) {
    forall i :: 0 <= i < |run| && run[i].op.ObserveReset? ==> Timestamp.Printable(run[i].op.resetAt)
  }

  lemma {:induction false} StoredDoRefines(cfg: Config, sys: Sys, t: Call)
    requires StoredCycle.Storable(sys.cycle)
    requires t.op.ObserveReset? ==> Timestamp.Printable(t.op.resetAt)
    ensures var (s, r) := StoredDo(cfg, Stored(StoredCycle.Encode(sys.cycle), sys.led), t);
            var next := Do(cfg, sys, t);
            && s == Stored(StoredCycle.Encode(next.cycle), next.led) && r.Ok?
            && StoredCycle.Storable(next.cycle)
  {
    match CycleStep(cfg, sys.led, t.at, t.op)
    case None =>
    case Some(Learn(resetAt)) =>
      StoredCycle.ObserveRefines(cfg.labels, sys.cycle, resetAt, t.at);
      StoredCycle.ObserveStorable(cfg.labels, sys.cycle, resetAt, t.at);
    case Some(Read(now)) =>
      StoredCycle.ResolveRefines(cfg.labels, sys.cycle, now);
  }

  /** Every run of store calls on the text columns is the run on instants, and never fails, as long
      as observed boundaries have four-digit years. */
  lemma {:induction false} StoredCallsRefine(cfg: Config, sys: Sys, run: seq<Call>)
    requires StoredCycle.Storable(sys.cycle) && PrintableBoundaries(run)
    ensures var end := RunCalls(cfg, sys, run);
            && StoredCalls(cfg, Stored(StoredCycle.Encode(sys.cycle), sys.led), run) ==
              Stored(StoredCycle.Encode(end.cycle), end.led)
            && StoredCycle.Storable(end.cycle)
    decreases |run|
  {
    if run != [] {
      StoredDoRefines(cfg, sys, run[0]);
      assert forall i :: 0 <= i < |run[1..]| ==> run[1..][i] == run[i + 1];
      StoredCallsRefine(cfg, Do(cfg, sys, run[0]), run[1..]);
    }
  }
}
