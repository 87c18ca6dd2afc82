/** Whole runs in weekly mode: the call that crosses an upstream boundary gives every key a fresh
    allowance. */
module QuotaRuns {
  import opened Base
  import Text
  import opened Ledger
  import opened Quota
  import opened QuotaCycle
  import StoredCycle
  import Timestamp

  /** The configured fallback labels never look like upstream cycle labels. */
  ghost predicate PlainLabels(cfg: Config) {
    forall t: Instant :: !IsUpstream(cfg.labels(t))
  }

  /** The times a call may ask about: observations, authentication and management use the current
      clock, usage callbacks and plain reads may refer to an earlier instant. */
  predicate Timely(t: Call) {
    match t.op
    case ReadPeriod(now) => now <= t.at
    case RecordUsage(event) => Stamp(event, t.at) <= t.at
    case _ => true
  }

  ghost predicate Orderly(clock: Instant, run: seq<Call>)
    decreases |run|
  {
    run == [] || (clock <= run[0].at && Timely(run[0]) && Orderly(run[0].at, run[1..]))
  }

  function ClockAfter(clock: Instant, run: seq<Call>): Instant {
    if run == [] then clock else run[|run| - 1].at
  }

  // ----- Calls act on the cycle as reads and observations -----

  /** The cycle steps a run of calls makes. */
  function CycleSteps(cfg: Config, sys: Sys, run: seq<Call>): seq<QuotaCycle.Timed>
    decreases |run|
  {
    if run == [] then []
    else
      var rest := CycleSteps(cfg, Do(cfg, sys, run[0]), run[1..]);
      match CycleStep(cfg, sys.led, run[0].at, run[0].op)
      case None => rest
      case Some(s) => [QuotaCycle.Timed(run[0].at, s)] + rest
  }

  lemma {:induction false} MonotoneFromEarlier(clock: Instant, later: Instant, steps: seq<QuotaCycle.Timed>)
    requires clock <= later && Monotone(later, steps)
    ensures Monotone(clock, steps)
  {
  }

  /** So every theorem about runs of the cycle holds of runs of calls. */
  lemma {:induction false} CallsRunTheCycle(cfg: Config, sys: Sys, clock: Instant, run: seq<Call>)
    requires cfg.weekly && Orderly(clock, run)
    ensures RunCalls(cfg, sys, run).cycle == Run(cfg.labels, sys.cycle, CycleSteps(cfg, sys, run))
    ensures Monotone(clock, CycleSteps(cfg, sys, run))
    decreases |run|
  {
    hide Before, After, PeriodAt, Apply;
    if run != [] {
      var t, next := run[0], Do(cfg, sys, run[0]);
      CallsRunTheCycle(cfg, next, t.at, run[1..]);
      MonotoneFromEarlier(clock, t.at, CycleSteps(cfg, next, run[1..]));
    }
  }

  // ----- No aggregate row carries a cycle label before that cycle starts -----

  ghost predicate StartedBy(tag: string, second: int) {
    !IsUpstream(tag) || exists n: int :: n <= second && tag == UpstreamText(n)
  }

  /** A plain label, or the label of a cycle that started in or before the recorded start's second. */
  ghost predicate Started(st: State, tag: string) {
    match StartOf(st)
    case None => !IsUpstream(tag)
    case Some(start) => StartedBy(tag, UnixSecond(start))
  }

  ghost predicate NoEarlyRows(sys: Sys) {
    forall cell :: cell in sys.led.usage ==> Started(sys.cycle, cell.period)
  }

  ghost predicate LabelsStarted(st: State) {
    st.Some? ==> Started(st, st.value.period) && (st.value.prev.Some? ==> Started(st, st.value.prev.value))
  }

  ghost predicate Inv(sys: Sys, clock: Instant) {
    Sound(sys.cycle, clock) && LabelsStarted(sys.cycle) && NoEarlyRows(sys)
  }

  /** The start is kept or moves to a later boundary. */
  predicate StartGrows(a: State, b: State) {
    StartOf(a).Some? ==> StartOf(b).Some? && StartOf(a).value <= StartOf(b).value
  }

  lemma {:induction false} StartedStays(a: State, b: State, tag: string)
    requires Started(a, tag) && StartGrows(a, b)
    ensures Started(b, tag)
  {
    hide UpstreamText;
    if IsUpstream(tag) {
      var n: int :| n <= UnixSecond(StartOf(a).value) && tag == UpstreamText(n);
      assert n <= UnixSecond(StartOf(b).value);
    }
  }

  lemma {:induction false} StepGrows(labels: Labels, st: State, clock: Instant, s: QuotaCycle.Timed)
    requires Sound(st, clock) && Monotone(clock, [s])
    ensures StartGrows(st, Apply(labels, st, s))
  {
    hide UpstreamLabel;
  }

  lemma {:induction false} ApplyKeepsLabels(cfg: Config, st: State, clock: Instant, s: QuotaCycle.Timed)
    requires PlainLabels(cfg) && Sound(st, clock) && LabelsStarted(st) && Monotone(clock, [s])
    ensures LabelsStarted(Apply(cfg.labels, st, s))
  {
    hide Started, UpstreamLabel;
    var d := Apply(cfg.labels, st, s);
    StepGrows(cfg.labels, st, clock, s);
    if st.Some? {
      StartedStays(st, d, st.value.period);
      if st.value.prev.Some? { StartedStays(st, d, st.value.prev.value); }
    }
    if StartOf(d).Some? { OwnLabelStarted(d, StartOf(d).value); }
    if StartOf(d).None? && d.Some? && st.None? { PlainStarted(d, d.value.period); }
  }

  lemma {:induction false} OwnLabelStarted(st: State, start: Instant)
    requires StartOf(st) == Some(start)
    ensures Started(st, UpstreamLabel(start))
  {
    hide UpstreamText;
    assert UpstreamLabel(start) == UpstreamText(UnixSecond(start));
  }

  lemma {:induction false} PlainStarted(st: State, tag: string)
    requires !IsUpstream(tag)
    ensures Started(st, tag)
  {
  }

  /** A label resolved for an instant has started in the state the read leaves. */
  lemma {:induction false} ResolvedStarted(cfg: Config, st: State, clock: Instant, now: Instant, at: Instant)
    requires cfg.weekly && PlainLabels(cfg) && Sound(st, clock) && LabelsStarted(st) && now <= at && clock <= at
    ensures Started(Settle(st, now), PeriodAt(cfg, st, now))
  {
    hide Started, UpstreamLabel;
    ApplyKeepsLabels(cfg, st, clock, QuotaCycle.Timed(at, Read(now)));
    if st.None? { PlainStarted(st, cfg.labels(now)); }
  }

  lemma {:induction false} StepInv(cfg: Config, sys: Sys, clock: Instant, t: Call)
    requires cfg.weekly && PlainLabels(cfg) && Inv(sys, clock) && clock <= t.at && Timely(t)
    ensures Inv(Do(cfg, sys, t), t.at)
  {
    hide Started, PlainLabels, Before, After, UpstreamLabel;
    var next := Do(cfg, sys, t);
    BeforeKeepsUsage(cfg, sys.led, t.op);
    match CycleStep(cfg, sys.led, t.at, t.op)
    case None =>
      assert next.led.usage == sys.led.usage;
      SoundLater(sys.cycle, clock, t.at);
    case Some(s) =>
      var timed := QuotaCycle.Timed(t.at, s);
      assert Monotone(clock, [timed]);
      assert next.cycle == Apply(cfg.labels, sys.cycle, timed);
      ApplySound(cfg.labels, sys.cycle, clock, timed);
      ApplyKeepsLabels(cfg, sys.cycle, clock, timed);
      StepGrows(cfg.labels, sys.cycle, clock, timed);
      if s.Read? {
        ResolvedStarted(cfg, sys.cycle, clock, s.now, t.at);
        AfterUsesPeriod(Before(cfg, sys.led, t.op), t.at, t.op, PeriodAt(cfg, sys.cycle, s.now));
      }
      forall cell | cell in next.led.usage
        ensures Started(next.cycle, cell.period)
      {
        if cell in sys.led.usage { StartedStays(sys.cycle, next.cycle, cell.period); }
      }
  }

  lemma {:induction false} SoundLater(st: State, clock: Instant, at: Instant)
    requires Sound(st, clock) && clock <= at
    ensures Sound(st, at)
  {
  }

  /** Over every orderly run no aggregate row carries a cycle label before that cycle starts. */
  lemma {:induction false} NoRowBeforeItsCycle(cfg: Config, sys: Sys, clock: Instant, run: seq<Call>)
    requires cfg.weekly && PlainLabels(cfg) && Inv(sys, clock) && Orderly(clock, run)
    ensures Inv(RunCalls(cfg, sys, run), ClockAfter(clock, run))
    decreases |run|
  {
    hide Inv, Do;
    if run != [] {
      StepInv(cfg, sys, clock, run[0]);
      NoRowBeforeItsCycle(cfg, Do(cfg, sys, run[0]), run[0].at, run[1..]);
    }
  }

  // ----- The crossing step -----

  /** The call finds a boundary that is due, by reading or by a newer observation. */
  predicate Crosses(cfg: Config, sys: Sys, t: Call) {
    match CycleStep(cfg, sys.led, t.at, t.op)
    case None => false
    case Some(s) => Rolled(sys.cycle, QuotaCycle.Timed(t.at, s)) != []
  }

  /** Before a due boundary is applied, its cycle's label has no rows, unless the boundary falls in
      the same second as the current start, where the two cycles share one label. */
  lemma {:induction false} NewLabelUnused(cfg: Config, sys: Sys, clock: Instant, boundary: Instant, keyHash: string)
    requires Inv(sys, clock) && sys.cycle.Some? && sys.cycle.value.next == Some(boundary)
    ensures var start := sys.cycle.value.start;
            PeriodTotals(sys.led, keyHash, UpstreamLabel(boundary)) ==
              if start.Some? && UnixSecond(start.value) == UnixSecond(boundary)
              then PeriodTotals(sys.led, keyHash, sys.cycle.value.period) else ZERO
  {
    hide UpstreamText;
    var start := sys.cycle.value.start;
    var tag := UpstreamLabel(boundary);
    assert tag == UpstreamText(UnixSecond(boundary));
    UpstreamTextInjective(UnixSecond(boundary), UnixSecond(boundary));
    if Cell(keyHash, tag) in sys.led.usage {
      assert Started(sys.cycle, tag);
      var n: int :| n <= UnixSecond(start.value) && tag == UpstreamText(n);
      UpstreamTextInjective(n, UnixSecond(boundary));
    }
  }

  /** Boundaries at 10 s and 10.7 s observed one after the other, with an event recorded between them. */
  function SharedSecond(event: UsageEvent): seq<Call> {
    [Call(9 * SECOND, ObserveReset(10 * SECOND)), Call(10 * SECOND, RecordUsage(event)),
     Call(10 * SECOND, ObserveReset(107 * SECOND / 10))]
  }

  /** When the second of them passes, the key starts its new period with the usage of the old one. */
  lemma {:induction false} SharedSecondCarriesUsage(cfg: Config, event: UsageEvent)
    requires cfg.weekly && event.timestamp == 10 * SECOND
    ensures var before := RunCalls(cfg, Sys(None, Books(map[], [], map[])), SharedSecond(event));
            var t := Call(11 * SECOND, ReadPeriod(11 * SECOND));
            var after := Do(cfg, before, t);
            && Crosses(cfg, before, t)
            && PeriodTotals(after.led, event.keyHash, PeriodAt(cfg, after.cycle, t.at)).requests == 1
  {
    hide UpstreamLabel, Do, Crosses, PeriodAt, RowOf, Charge;
    var run := SharedSecond(event);
    var sys := Sys(None, Books(map[], [], map[]));
    assert run[1..][0] == run[1] && run[1..][1..] == [run[2]] && [run[2]][1..] == [];
    var a := Do(cfg, sys, run[0]);
    var b := Do(cfg, a, run[1]);
    assert RunCalls(cfg, b, [run[2]]) == Do(cfg, b, run[2]);
    assert RunCalls(cfg, a, run[1..]) == RunCalls(cfg, b, run[1..][1..]);
    assert RunCalls(cfg, sys, run) == Do(cfg, b, run[2]);
    SharedSecondSteps(cfg, event);
    var row := RowOf(event, 10 * SECOND, UpstreamLabel(10 * SECOND));
    SharedSecondLast(cfg, Books(map[], [row], map[Cell(event.keyHash, UpstreamLabel(10 * SECOND)) := Charge(row)]));
    assert Charge(row).requests == 1 by { OneRequest(row); }
  }

  lemma {:induction false} OneRequest(row: EventRow)
    ensures Charge(row).requests == 1
  {
  }

  lemma {:induction false} SharedSecondSteps(cfg: Config, event: UsageEvent)
    requires cfg.weekly && event.timestamp == 10 * SECOND
    ensures var run := SharedSecond(event);
            var tag := UpstreamLabel(10 * SECOND);
            var row := RowOf(event, 10 * SECOND, tag);
            Do(cfg, Do(cfg, Do(cfg, Sys(None, Books(map[], [], map[])), run[0]), run[1]), run[2]) ==
              Sys(Some(Cycle(tag, Some(107 * SECOND / 10), Some(cfg.labels(9 * SECOND)), Some(10 * SECOND))),
                  Books(map[], [row], map[Cell(event.keyHash, tag) := Charge(row)]))
  {
    hide UpstreamLabel, Duplicate, Charge;
    var tag := UpstreamLabel(10 * SECOND);
    var row := RowOf(event, 10 * SECOND, tag);
    NothingRecorded(event);
    assert [] + [row] == [row];
  }

  lemma {:induction false} SharedSecondLast(cfg: Config, led: Books)
    requires cfg.weekly
    ensures var sys :=
              Sys(Some(Cycle(UpstreamLabel(10 * SECOND), Some(107 * SECOND / 10), Some(cfg.labels(9 * SECOND)),
                             Some(10 * SECOND))), led);
            var t := Call(11 * SECOND, ReadPeriod(11 * SECOND));
            && Crosses(cfg, sys, t) && Do(cfg, sys, t).led == led
            && PeriodAt(cfg, Do(cfg, sys, t).cycle, t.at) == UpstreamLabel(10 * SECOND)
  {
    hide UpstreamText;
    assert UpstreamLabel(10 * SECOND) == UpstreamText(10) == UpstreamLabel(107 * SECOND / 10);
  }

  lemma {:induction false} NothingRecorded(event: UsageEvent)
    ensures forall row: EventRow :: !Duplicate([], row)
  {
  }

  /** The usage the crossing call itself adds, if it is an accepted delivery for the key. */
  function OwnCharge(cfg: Config, sys: Sys, t: Call, keyHash: string): Totals {
    if t.op.RecordUsage? then
      var row := DeliveredRow(cfg, sys, t);
      if row.keyHash == keyHash && !Duplicate(sys.led.events, row) then Charge(row) else ZERO
    else ZERO
  }

  /** The call that crosses a due boundary leaves every key with nothing used in the new period but
      what that very call records. The only other case is a boundary in the current start's second. */
  lemma {:induction false} CrossingGivesFreshAllowance(cfg: Config, sys: Sys, clock: Instant, t: Call, keyHash: string)
    requires cfg.weekly && PlainLabels(cfg) && Inv(sys, clock) && clock <= t.at && Timely(t)
    requires Crosses(cfg, sys, t)
    requires StartOf(sys.cycle).Some? ==> UnixSecond(StartOf(sys.cycle).value) != UnixSecond(sys.cycle.value.next.value)
    ensures var next := Do(cfg, sys, t);
            var active := PeriodAt(cfg, next.cycle, t.at);
            && active == UpstreamLabel(sys.cycle.value.next.value)
            && PeriodTotals(next.led, keyHash, active) == OwnCharge(cfg, sys, t, keyHash)
  {
    hide Charge, Duplicate, UpstreamLabel, PruneRows, RegisterUnknown, Inv, PeriodTotals, After, Before, RowOf;
    var boundary := sys.cycle.value.next.value;
    var next := Do(cfg, sys, t);
    NewLabelUnused(cfg, sys, clock, boundary, keyHash);
    assert next.cycle.value.period == UpstreamLabel(boundary);
    match CycleStep(cfg, sys.led, t.at, t.op)
    case Some(Read(now)) =>
      assert PeriodAt(cfg, sys.cycle, now) == UpstreamLabel(boundary);
      AddsOwnCharge(Before(cfg, sys.led, t.op), cfg, sys, t, UpstreamLabel(boundary), keyHash);
    case _ => KeepsTotals(cfg, sys.led, t.op, keyHash, UpstreamLabel(boundary));
  }

  lemma {:induction false} KeepsTotals(cfg: Config, led: Books, op: Op, keyHash: string, period: string)
    ensures PeriodTotals(Before(cfg, led, op), keyHash, period) == PeriodTotals(led, keyHash, period)
  {
    hide Before;
    BeforeKeepsUsage(cfg, led, op);
  }

  /** A call that resolved a label without usage leaves under it what the call itself records. */
  lemma {:induction false} AddsOwnCharge(
    led: Books, cfg: Config, sys: Sys, t: Call, period: string, keyHash: string)
    requires led == Before(cfg, sys.led, t.op) && PeriodTotals(sys.led, keyHash, period) == ZERO
    requires t.op.RecordUsage? ==> PeriodAt(cfg, sys.cycle, Stamp(t.op.event, t.at)) == period
    ensures PeriodTotals(After(led, t.at, t.op, period), keyHash, period) == OwnCharge(cfg, sys, t, keyHash)
  {
    hide Charge, Duplicate, PruneRows, RegisterUnknown, UpdateKeys, FillTotal, PeriodAt;
    BeforeKeepsUsage(cfg, sys.led, t.op);
  }

  // ----- From an empty cycle, with boundaries a second apart -----

  ghost predicate ObservesOnly(boundaries: set<Instant>, run: seq<Call>) {
    forall i :: 0 <= i < |run| && run[i].op.ObserveReset? ==> run[i].op.resetAt in boundaries
  }

  ghost predicate SecondsApart(boundaries: set<Instant>) {
    forall a, b :: a in boundaries && b in boundaries && a < b ==> a + SECOND <= b
  }

  ghost predicate FromBoundaries(st: State, boundaries: set<Instant>) {
    st.Some? ==>
      && (st.value.next.Some? ==> st.value.next.value in boundaries)
      && (st.value.start.Some? ==> st.value.start.value in boundaries)
  }

  lemma {:induction false} CycleFromBoundaries(cfg: Config, sys: Sys, boundaries: set<Instant>, run: seq<Call>)
    requires ObservesOnly(boundaries, run) && FromBoundaries(sys.cycle, boundaries)
    ensures FromBoundaries(RunCalls(cfg, sys, run).cycle, boundaries)
    decreases |run|
  {
    hide Before, After, PeriodAt, UpstreamLabel;
    if run != [] {
      assert run[0].op.ObserveReset? ==> run[0].op.resetAt in boundaries;
      assert forall i :: 0 <= i < |run[1..]| ==> run[1..][i] == run[i + 1];
      CycleFromBoundaries(cfg, Do(cfg, sys, run[0]), boundaries, run[1..]);
    }
  }

  /** After any orderly run from a database without a cycle, if all boundaries observed lie at least
      a second apart, the call that crosses a due boundary leaves every key with a fresh allowance. */
  lemma {:induction false} FreshAllowance(
    cfg: Config, sys: Sys, clock: Instant, run: seq<Call>, t: Call, boundaries: set<Instant>, keyHash: string)
    requires cfg.weekly && PlainLabels(cfg)
    requires sys.cycle.None? && forall cell :: cell in sys.led.usage ==> !IsUpstream(cell.period)
    requires Orderly(clock, run) && ClockAfter(clock, run) <= t.at && Timely(t)
    requires ObservesOnly(boundaries, run) && SecondsApart(boundaries)
    requires Crosses(cfg, RunCalls(cfg, sys, run), t)
    ensures var before := RunCalls(cfg, sys, run);
            var after := Do(cfg, before, t);
            PeriodTotals(after.led, keyHash, PeriodAt(cfg, after.cycle, t.at)) == OwnCharge(cfg, before, t, keyHash)
  {
    hide RunCalls, Do, Orderly;
    NoRowBeforeItsCycle(cfg, sys, clock, run);
    CycleFromBoundaries(cfg, sys, boundaries, run);
    CrossingGivesFreshAllowance(cfg, RunCalls(cfg, sys, run), ClockAfter(clock, run), t, keyHash);
  }

  /** The same on the stored text columns: what the store itself resolves and sums after the crossing. */
  lemma {:induction false} StoredFreshAllowance(
    cfg: Config, led: Books, clock: Instant, run: seq<Call>, t: Call, boundaries: set<Instant>, keyHash: string)
    requires cfg.weekly && PlainLabels(cfg) && forall cell :: cell in led.usage ==> !IsUpstream(cell.period)
    requires Orderly(clock, run) && ClockAfter(clock, run) <= t.at && Timely(t)
    requires ObservesOnly(boundaries, run) && SecondsApart(boundaries)
    requires PrintableBoundaries(run) && (t.op.ObserveReset? ==> Timestamp.Printable(t.op.resetAt))
    requires Crosses(cfg, RunCalls(cfg, Sys(None, led), run), t)
    ensures var s := StoredDo(cfg, StoredCalls(cfg, Stored(None, led), run), t).0;
            var active := ReadRow(cfg, s.row, t.at).1;
            && active.Ok?
            && PeriodTotals(s.led, keyHash, active.value) ==
              OwnCharge(cfg, RunCalls(cfg, Sys(None, led), run), t, keyHash)
  {
    hide RunCalls, StoredCalls, Do, StoredDo, Orderly, Crosses, OwnCharge, StoredCycle.ResolveRow, Resolve;
    hide Timestamp.Printable;
    var sys := Sys(None, led);
    var before := RunCalls(cfg, sys, run);
    StoredCallsRefine(cfg, sys, run);
    StoredDoRefines(cfg, before, t);
    FreshAllowance(cfg, sys, clock, run, t, boundaries, keyHash);
    StoredCycle.ResolveRefines(cfg.labels, Do(cfg, before, t).cycle, t.at);
  }

  /** An active key is let in at a due boundary, with no upstream traffic needed, exactly when it has
      no limit or a limit of at least one. */
  lemma {:induction false} AdmittedAtBoundary(cfg: Config, sys: Sys, clock: Instant, at: Instant, rawKey: string)
    requires cfg.weekly && PlainLabels(cfg) && Inv(sys, clock) && clock <= at
    requires Due(sys.cycle, at) && NeedsPeriod(cfg, sys.led, rawKey)
    requires StartOf(sys.cycle).Some? ==> UnixSecond(StartOf(sys.cycle).value) != UnixSecond(sys.cycle.value.next.value)
    ensures var row := sys.led.keys[HashKey(cfg, Text.Trim(rawKey))];
            AuthAnswer(cfg, sys.led, rawKey, PeriodAt(cfg, sys.cycle, at)).allowed <==>
              row.limit.None? || row.limit.value >= 1
  {
    hide UpstreamLabel, Inv;
    NewLabelUnused(cfg, sys, clock, sys.cycle.value.next.value, HashKey(cfg, Text.Trim(rawKey)));
  }

  /** The calls that apply a due boundary: reads and records that ask about an instant from it on,
      authentication of a registered active key, a reset of a registered key, adding a new key, changing a
      key, and a later observation. Pruning and deleting do not. */
  lemma {:induction false} CrossesExactly(cfg: Config, sys: Sys, t: Call, boundary: Instant)
    requires sys.cycle.Some? && sys.cycle.value.next == Some(boundary) && boundary <= t.at
    ensures Crosses(cfg, sys, t) <==>
            match t.op
            case ReadPeriod(now) => boundary <= now
            case RecordUsage(event) => boundary <= if event.timestamp == ZERO_TIME then t.at else event.timestamp
            case Authenticate(rawKey) => (
              var h := HashKey(cfg, Text.Trim(rawKey));
              Text.Trim(rawKey) != "" && h in sys.led.keys && sys.led.keys[h].status == "active")
            case ResetUsage(h) => h in sys.led.keys
            case AddKey(rawKey, _, _, _) => HashKey(cfg, rawKey) !in sys.led.keys
            case UpdateKey(_, _, _, _) => true
            case ObserveReset(resetAt) => t.at < resetAt && resetAt != ZERO_TIME
            case Prune(_) => false
            case DeleteKey(_) => false
  {
    hide Text.Trim;
  }
}
