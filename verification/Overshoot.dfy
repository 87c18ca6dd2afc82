/** A key's usage can exceed its limit only by what was admitted and not yet recorded. */
module Overshoot {
  import opened Base
  import Timestamp
  import opened Text
  import opened Ledger
  import opened Quota
  import opened QuotaCycle
  import opened QuotaRuns

  /** Once the fallback label of a clock has changed it does not come back. */
  ghost predicate LabelsAdvance(cfg: Config) {
    forall a: Instant, b: Instant, c: Instant :: a <= b <= c && cfg.labels(a) == cfg.labels(c) ==>
      cfg.labels(b) == cfg.labels(c)
  }

  /** A fallback label of some instant so far, or the label of a cycle that has started. */
  ghost predicate Seen(cfg: Config, st: State, clock: Instant, tag: string) {
    || (exists u: Instant :: u <= clock && tag == cfg.labels(u))
    || (&& cfg.weekly && StartOf(st).Some?
        && exists n: int :: n <= UnixSecond(StartOf(st).value) && tag == UpstreamText(n))
  }

  ghost predicate CycleSeen(cfg: Config, st: State, clock: Instant) {
    cfg.weekly ==>
      && Sound(st, clock)
      && (st.Some? ==>
            Seen(cfg, st, clock, st.value.period)
              && (st.value.prev.Some? ==> Seen(cfg, st, clock, st.value.prev.value)))
  }

  ghost predicate RowsSeen(cfg: Config, sys: Sys, clock: Instant) {
    forall cell :: cell in sys.led.usage ==> Seen(cfg, sys.cycle, clock, cell.period)
  }

  ghost predicate Ready(cfg: Config, sys: Sys, clock: Instant) {
    CycleSeen(cfg, sys.cycle, clock) && RowsSeen(cfg, sys, clock)
  }

  lemma {:induction false} SeenLater(cfg: Config, a: State, b: State, clock: Instant, at: Instant, tag: string)
    requires Seen(cfg, a, clock, tag) && clock <= at
    requires cfg.weekly ==> StartGrows(a, b)
    ensures Seen(cfg, b, at, tag)
  {
    hide UpstreamText;
    if exists u: Instant :: u <= clock && tag == cfg.labels(u) {
      var u: Instant :| u <= clock && tag == cfg.labels(u);
      assert u <= at;
    } else {
      var n: int :| n <= UnixSecond(StartOf(a).value) && tag == UpstreamText(n);
      assert n <= UnixSecond(StartOf(b).value);
    }
  }

  lemma {:induction false} OwnLabelSeen(cfg: Config, st: State, clock: Instant, start: Instant)
    requires cfg.weekly && StartOf(st) == Some(start)
    ensures Seen(cfg, st, clock, UpstreamLabel(start))
  {
    hide UpstreamText;
    assert UpstreamLabel(start) == UpstreamText(UnixSecond(start));
  }

  lemma {:induction false} FallbackSeen(cfg: Config, st: State, clock: Instant, u: Instant)
    requires u <= clock
    ensures Seen(cfg, st, clock, cfg.labels(u))
  {
  }

  lemma {:induction false} MoveSeen(cfg: Config, st: State, clock: Instant, at: Instant, s: QuotaCycle.Step)
    requires CycleSeen(cfg, st, clock) && Monotone(clock, [QuotaCycle.Timed(at, s)])
    ensures CycleSeen(cfg, Move(cfg, st, at, s), at)
    ensures cfg.weekly ==> StartGrows(st, Move(cfg, st, at, s))
  {
    hide Seen, UpstreamLabel;
    if cfg.weekly {
      var timed := QuotaCycle.Timed(at, s);
      var d := Apply(cfg.labels, st, timed);
      ApplySound(cfg.labels, st, clock, timed);
      StepGrows(cfg.labels, st, clock, timed);
      if st.Some? {
        SeenLater(cfg, st, d, clock, at, st.value.period);
        if st.value.prev.Some? { SeenLater(cfg, st, d, clock, at, st.value.prev.value); }
      }
      if StartOf(d).Some? { OwnLabelSeen(cfg, d, at, StartOf(d).value); }
      FallbackSeen(cfg, d, at, at);
    }
  }

  lemma {:induction false} ResolvedSeen(cfg: Config, st: State, clock: Instant, now: Instant, at: Instant)
    requires CycleSeen(cfg, st, clock) && now <= at && clock <= at
    ensures Seen(cfg, Move(cfg, st, at, Read(now)), at, PeriodAt(cfg, st, now))
  {
    hide Seen, UpstreamLabel;
    MoveSeen(cfg, st, clock, at, Read(now));
    FallbackSeen(cfg, Move(cfg, st, at, Read(now)), at, now);
  }

  lemma {:induction false} DoReady(cfg: Config, sys: Sys, clock: Instant, t: Call)
    requires Ready(cfg, sys, clock) && clock <= t.at && Timely(t)
    ensures Ready(cfg, Do(cfg, sys, t), t.at)
  {
    hide Seen, Before, After, Move, PeriodAt;
    var next := Do(cfg, sys, t);
    BeforeKeepsUsage(cfg, sys.led, t.op);
    match CycleStep(cfg, sys.led, t.at, t.op)
    case None => LaterReady(cfg, sys, clock, t.at);
    case Some(s) =>
      assert Monotone(clock, [QuotaCycle.Timed(t.at, s)]);
      MoveSeen(cfg, sys.cycle, clock, t.at, s);
      if s.Read? {
        ResolvedSeen(cfg, sys.cycle, clock, s.now, t.at);
        AfterUsesPeriod(Before(cfg, sys.led, t.op), t.at, t.op, PeriodAt(cfg, sys.cycle, s.now));
      }
      forall cell | cell in next.led.usage
        ensures Seen(cfg, next.cycle, t.at, cell.period)
      {
        if cell in sys.led.usage { SeenLater(cfg, sys.cycle, next.cycle, clock, t.at, cell.period); }
      }
  }

  lemma {:induction false} LaterReady(cfg: Config, sys: Sys, clock: Instant, at: Instant)
    requires Ready(cfg, sys, clock) && clock <= at
    ensures Ready(cfg, sys, at)
  {
    hide Seen;
    if cfg.weekly && sys.cycle.Some? {
      SeenLater(cfg, sys.cycle, sys.cycle, clock, at, sys.cycle.value.period);
      if sys.cycle.value.prev.Some? { SeenLater(cfg, sys.cycle, sys.cycle, clock, at, sys.cycle.value.prev.value); }
    }
    forall cell | cell in sys.led.usage
      ensures Seen(cfg, sys.cycle, at, cell.period)
    {
      SeenLater(cfg, sys.cycle, sys.cycle, clock, at, cell.period);
    }
  }

  // ----- The active period moves only to unused labels -----

  lemma {:induction false} NotSeenBefore(cfg: Config, st: State, clock: Instant, at: Instant)
    requires PlainLabels(cfg) && LabelsAdvance(cfg) && clock <= at && cfg.labels(at) != cfg.labels(clock)
    requires cfg.weekly ==> st.None?
    ensures !Seen(cfg, st, clock, cfg.labels(at))
  {
    forall u: Instant | u <= clock
      ensures cfg.labels(u) != cfg.labels(at)
    {
    }
  }

  lemma {:induction false} PlainActiveShift(cfg: Config, sys: Sys, clock: Instant, at: Instant, keyHash: string)
    requires Ready(cfg, sys, clock) && PlainLabels(cfg) && LabelsAdvance(cfg) && clock <= at
    requires cfg.weekly ==> sys.cycle.None?
    ensures cfg.labels(at) != cfg.labels(clock) ==> PeriodTotals(sys.led, keyHash, cfg.labels(at)) == ZERO
  {
    hide UpstreamText;
    var tag := cfg.labels(at);
    if tag != cfg.labels(clock) && Cell(keyHash, tag) in sys.led.usage {
      NotSeenBefore(cfg, sys.cycle, clock, at);
      assert false;
    }
  }

  lemma {:induction false} RollActiveShift(cfg: Config, sys: Sys, clock: Instant, boundary: Instant, keyHash: string)
    requires Ready(cfg, sys, clock) && PlainLabels(cfg) && cfg.weekly
    requires sys.cycle.Some? && sys.cycle.value.next == Some(boundary)
    ensures UpstreamLabel(boundary) != sys.cycle.value.period ==>
              PeriodTotals(sys.led, keyHash, UpstreamLabel(boundary)) == ZERO
  {
    hide UpstreamText;
    var tag := UpstreamLabel(boundary);
    assert tag == UpstreamText(UnixSecond(boundary));
    UpstreamTextInjective(UnixSecond(boundary), 0);
    if tag != sys.cycle.value.period && Cell(keyHash, tag) in sys.led.usage {
      assert Seen(cfg, sys.cycle, clock, tag);
      var start := StartOf(sys.cycle).value;
      var n: int :| n <= UnixSecond(start) && tag == UpstreamText(n);
      UpstreamTextInjective(n, UnixSecond(boundary));
    }
  }

  /** As the clock advances, the active label is kept or moves to one without usage. */
  lemma {:induction false} ActiveShift(cfg: Config, sys: Sys, clock: Instant, at: Instant, keyHash: string)
    requires Ready(cfg, sys, clock) && PlainLabels(cfg) && LabelsAdvance(cfg) && clock <= at
    ensures var was, now := PeriodAt(cfg, sys.cycle, clock), PeriodAt(cfg, sys.cycle, at);
            now == was || PeriodTotals(sys.led, keyHash, now) == ZERO
  {
    hide UpstreamLabel, LabelsAdvance, PlainLabels, Seen, RowsSeen, PeriodTotals;
    if cfg.weekly && sys.cycle.Some? {
      if sys.cycle.value.next.Some? { RollActiveShift(cfg, sys, clock, sys.cycle.value.next.value, keyHash); }
    } else {
      PlainActiveShift(cfg, sys, clock, at, keyHash);
    }
  }

  /** No call changes which label is active at its own clock. */
  lemma {:induction false} MoveKeepsActive(cfg: Config, st: State, clock: Instant, at: Instant, s: QuotaCycle.Step)
    requires cfg.weekly ==> Sound(st, clock)
    requires Monotone(clock, [QuotaCycle.Timed(at, s)])
    ensures PeriodAt(cfg, Move(cfg, st, at, s), at) == PeriodAt(cfg, st, at)
  {
    hide UpstreamLabel;
  }

  // ----- Metered runs -----

  /** What the key has used of the active period, by the configured metric. */
  function Used(cfg: Config, sys: Sys, keyHash: string, clock: Instant): int {
    ByMetric(cfg, PeriodTotals(sys.led, keyHash, PeriodAt(cfg, sys.cycle, clock)))
  }

  predicate HasLimit(led: Books, keyHash: string, limit: int64) {
    keyHash in led.keys && led.keys[keyHash].limit == Some(limit)
  }

  /** The call lets the key in. */
  predicate Admits(cfg: Config, sys: Sys, t: Call, keyHash: string) {
    && t.op.Authenticate?
    && HashKey(cfg, Trim(t.op.rawKey)) == keyHash
    && AuthAnswer(cfg, sys.led, t.op.rawKey, PeriodAt(cfg, sys.cycle, t.at)).allowed
  }

  /** The call records usage for the key, rather than repeating a request that has its row. */
  predicate Charges(cfg: Config, sys: Sys, t: Call, keyHash: string) {
    && t.op.RecordUsage? && t.op.event.keyHash == keyHash
    && !Duplicate(sys.led.events, DeliveredRow(cfg, sys, t))
  }

  predicate KeepsLimit(op: Op, keyHash: string, limit: int64) {
    match op
    case DeleteKey(h) => h != keyHash
    case UpdateKey(h, _, newLimit, _) => h == keyHash ==> newLimit == Some(limit)
    case _ => true
  }

  // ----- Authentication in two steps -----

  /** What can happen: a whole store call, or one of the two steps of authenticating the key under study
      once it has been looked up. The period is resolved under the cycle's mutex; the totals are read,
      and the decision taken, at some later time. */
  datatype Act = Whole(call: Call) | Resolve(now: Instant) | Decide(now: Instant, period: string)

  /** The store, and the periods of the key's authentications that have resolved one and not decided yet. */
  datatype Gate = Gate(sys: Sys, waiting: multiset<string>)

  function ActAt(act: Act): Instant {
    match act
    case Whole(t) => t.at
    case Resolve(now) => now
    case Decide(now, _) => now
  }

  function DoAct(cfg: Config, g: Gate, act: Act): Gate {
    match act
    case Whole(t) => g.(sys := Do(cfg, g.sys, t))
    case Resolve(now) =>
      Gate(g.sys.(cycle := Move(cfg, g.sys.cycle, now, Read(now))),
           g.waiting + multiset{PeriodAt(cfg, g.sys.cycle, now)})
    case Decide(_, period) => g.(waiting := g.waiting - multiset{period})
  }

  function RunActs(cfg: Config, g: Gate, run: seq<Act>): Gate
    decreases |run|
  {
    if run == [] then g else RunActs(cfg, DoAct(cfg, g, run[0]), run[1..])
  }

  ghost predicate OrderlyActs(clock: Instant, run: seq<Act>)
    decreases |run|
  {
    run == [] || (clock <= ActAt(run[0]) && (run[0].Whole? ==> Timely(run[0].call))
                    && OrderlyActs(ActAt(run[0]), run[1..]))
  }

  function EndOf(clock: Instant, run: seq<Act>): Instant { if run == [] then clock else ActAt(run[|run| - 1]) }

  /** The decision on the totals of the resolved period. */
  predicate Decides(cfg: Config, led: Books, keyHash: string, limit: int64, period: string) {
    ByMetric(cfg, PeriodTotals(led, keyHash, period)) < limit
  }

  /** The act lets the key in. */
  predicate LetsIn(cfg: Config, g: Gate, act: Act, keyHash: string, limit: int64) {
    match act
    case Whole(t) => Admits(cfg, g.sys, t, keyHash)
    case Resolve(_) => false
    case Decide(_, period) => period in g.waiting && Decides(cfg, g.sys.led, keyHash, limit, period)
  }

  /** The act records usage for the key. */
  predicate Settles(cfg: Config, g: Gate, act: Act, keyHash: string) {
    act.Whole? && Charges(cfg, g.sys, act.call, keyHash)
  }

  /** A call that authenticates a registered active key is its two steps, one after the other. */
  lemma {:induction false} AuthenticationIsTwoSteps(
    cfg: Config, g: Gate, at: Instant, rawKey: string, keyHash: string, limit: int64)
    requires HashKey(cfg, Trim(rawKey)) == keyHash && HasLimit(g.sys.led, keyHash, limit)
    requires NeedsPeriod(cfg, g.sys.led, rawKey)
    ensures var t, period := Call(at, Authenticate(rawKey)), PeriodAt(cfg, g.sys.cycle, at);
            var resolved := DoAct(cfg, g, Resolve(at));
            && DoAct(cfg, resolved, Decide(at, period)) == DoAct(cfg, g, Whole(t))
            && (LetsIn(cfg, resolved, Decide(at, period), keyHash, limit) <==> LetsIn(cfg, g, Whole(t), keyHash, limit))
  {
    hide Trim, PeriodAt, Move, PeriodTotals;
    var period := PeriodAt(cfg, g.sys.cycle, at);
    assert g.waiting + multiset{period} - multiset{period} == g.waiting;
  }

  /** The admitted but unrecorded requests after an act. */
  function Pending(cfg: Config, g: Gate, act: Act, keyHash: string, limit: int64, pending: int): int {
    if LetsIn(cfg, g, act, keyHash, limit) then pending + 1
    else if Settles(cfg, g, act, keyHash) then pending - 1
    else pending
  }

  /** The key keeps its limit, and a charge to it adds between 0 and m. */
  predicate Bounded(cfg: Config, g: Gate, act: Act, keyHash: string, limit: int64, m: int) {
    act.Whole? ==>
      && KeepsLimit(act.call.op, keyHash, limit)
      && (Charges(cfg, g.sys, act.call, keyHash) ==>
            0 <= ByMetric(cfg, Charge(DeliveredRow(cfg, g.sys, act.call))) <= m)
  }

  /** A run in which at most n requests of the key are in flight at any time, from the moment their
      authentication has resolved the period to their record, and each charge settles one of them. */
  ghost predicate Metered(
    cfg: Config, g: Gate, run: seq<Act>, keyHash: string, limit: int64, pending: int, n: int, m: int)
    decreases |run|
  {
    run == [] ||
    var next := DoAct(cfg, g, run[0]);
    var after := Pending(cfg, g, run[0], keyHash, limit, pending);
    && Bounded(cfg, g, run[0], keyHash, limit, m)
    && 0 <= after && after + |next.waiting| <= n
    && Metered(cfg, next, run[1..], keyHash, limit, after, n, m)
  }

  lemma {:induction false} DoKeepsLimit(cfg: Config, sys: Sys, t: Call, keyHash: string, limit: int64)
    requires HasLimit(sys.led, keyHash, limit) && KeepsLimit(t.op, keyHash, limit)
    ensures HasLimit(Do(cfg, sys, t).led, keyHash, limit)
  {
    hide Charge, Duplicate, PeriodAt, Move, PruneRows;
  }

  /** A record call adds its charge to the active period only if it resolved to it. */
  lemma {:induction false} PostUsed(cfg: Config, led: Books, row: EventRow, keyHash: string, period: string)
    ensures ByMetric(cfg, PeriodTotals(Post(led, row), keyHash, period)) ==
              ByMetric(cfg, PeriodTotals(led, keyHash, period))
              + if CellOf(row) == Cell(keyHash, period) && !Duplicate(led.events, row)
                then ByMetric(cfg, Charge(row)) else 0
  {
    hide Charge, Duplicate;
  }

  lemma {:induction false} RecordHasNoPrelude(cfg: Config, led: Books, op: Op)
    requires op.RecordUsage?
    ensures Before(cfg, led, op) == led
  {
  }

  lemma {:induction false} DoUsed(cfg: Config, sys: Sys, t: Call, keyHash: string, limit: int64, m: int)
    requires HasLimit(sys.led, keyHash, limit)
    requires Charges(cfg, sys, t, keyHash) ==> 0 <= ByMetric(cfg, Charge(DeliveredRow(cfg, sys, t))) <= m
    ensures var period := PeriodAt(cfg, sys.cycle, t.at);
            var was, now := PeriodTotals(sys.led, keyHash, period), PeriodTotals(Do(cfg, sys, t).led, keyHash, period);
            && (Charges(cfg, sys, t, keyHash) ==> ByMetric(cfg, now) <= ByMetric(cfg, was) + m)
            && (!Charges(cfg, sys, t, keyHash) ==> now == was || now == ZERO)
            && (Admits(cfg, sys, t, keyHash) ==> now == was && ByMetric(cfg, was) <= limit - 1)
  {
    hide Charge, Duplicate, PeriodAt, Move, Before, FillTotal;
    BeforeKeepsUsage(cfg, sys.led, t.op);
    var period := PeriodAt(cfg, sys.cycle, t.at);
    if t.op.RecordUsage? {
      RecordHasNoPrelude(cfg, sys.led, t.op);
      PostUsed(cfg, sys.led, DeliveredRow(cfg, sys, t), keyHash, period);
    }
  }

  /** The most the active period can show: everything admitted so far is within the limit, plus what
      the requests in flight may still add. */
  lemma {:induction false} Budget(limit: int, used: int, pending: int, n: int, m: int)
    requires 0 <= pending <= n && 0 <= m
    ensures used <= limit - 1 ==> used + pending * m <= limit - 1 + n * m
    ensures used + (pending - 1) * m == used - m + pending * m
    ensures 0 <= pending * m
  {
  }

  // ----- The invariant -----

  /** Authentications that will decide on a period other than the active one. */
  function Stale(cfg: Config, g: Gate, clock: Instant): int {
    |g.waiting| - g.waiting[PeriodAt(cfg, g.sys.cycle, clock)]
  }

  /** What the active period shows, with everything that may still be added to it without its totals
      being looked at again: requests let in, and authentications that will look at another period. */
  ghost predicate WithinBudget(
    cfg: Config, g: Gate, clock: Instant, keyHash: string, limit: int, pending: int, n: int, m: int)
  {
    Used(cfg, g.sys, keyHash, clock) + (pending + Stale(cfg, g, clock)) * m <= limit - 1 + n * m
  }

  lemma {:induction false} StaleWithin(cfg: Config, g: Gate, clock: Instant)
    ensures 0 <= Stale(cfg, g, clock) <= |g.waiting|
  {
    var period := PeriodAt(cfg, g.sys.cycle, clock);
    assert g.waiting[period := 0] <= g.waiting;
    assert g.waiting == g.waiting[period := 0] + multiset{}[period := g.waiting[period]];
  }

  /** As the clock advances the budget holds: the active period is kept, or nothing is used of it. */
  lemma {:induction false} ClockBudget(
    cfg: Config, g: Gate, clock: Instant, at: Instant, keyHash: string, limit: int64, pending: int, n: int, m: int)
    requires Ready(cfg, g.sys, clock) && PlainLabels(cfg) && LabelsAdvance(cfg) && clock <= at
    requires limit >= 1 && 0 <= m && 0 <= pending && pending + |g.waiting| <= n
    requires WithinBudget(cfg, g, clock, keyHash, limit, pending, n, m)
    ensures WithinBudget(cfg, g, at, keyHash, limit, pending, n, m)
  {
    hide Ready, PlainLabels, LabelsAdvance, PeriodAt, PeriodTotals;
    ActiveShift(cfg, g.sys, clock, at, keyHash);
    StaleWithin(cfg, g, at);
    Budget(limit, 0, pending + Stale(cfg, g, at), n, m);
  }

  lemma {:induction false} ResolveBudget(
    cfg: Config, g: Gate, at: Instant, keyHash: string, limit: int64, pending: int, n: int, m: int)
    requires CycleSeen(cfg, g.sys.cycle, at)
    requires WithinBudget(cfg, g, at, keyHash, limit, pending, n, m)
    ensures WithinBudget(cfg, DoAct(cfg, g, Resolve(at)), at, keyHash, limit, pending, n, m)
  {
    hide Seen, PeriodTotals, PeriodAt, Move;
    MoveKeepsActive(cfg, g.sys.cycle, at, at, Read(at));
  }

  lemma {:induction false} DecideBudget(
    cfg: Config, g: Gate, at: Instant, period: string, keyHash: string, limit: int64, pending: int, n: int, m: int)
    requires 0 <= pending && 0 <= m && pending + |g.waiting| <= n
    requires WithinBudget(cfg, g, at, keyHash, limit, pending, n, m)
    ensures var act := Decide(at, period);
            var next, after := DoAct(cfg, g, act), Pending(cfg, g, act, keyHash, limit, pending);
            WithinBudget(cfg, next, at, keyHash, limit, after, n, m) && after + |next.waiting| <= n
  {
    hide PeriodTotals, PeriodAt;
    var next := DoAct(cfg, g, Decide(at, period));
    StaleWithin(cfg, g, at);
    StaleWithin(cfg, next, at);
    if period in g.waiting {
      assert |next.waiting| == |g.waiting| - 1;
      Budget(limit, Used(cfg, g.sys, keyHash, at), pending + 1 + Stale(cfg, next, at), n, m);
    } else {
      assert next.waiting == g.waiting;
    }
    Budget(limit, Used(cfg, g.sys, keyHash, at), pending + Stale(cfg, g, at), n, m);
  }

  lemma {:induction false} DoKeepsActive(cfg: Config, sys: Sys, clock: Instant, t: Call)
    requires Ready(cfg, sys, clock) && clock <= t.at && Timely(t)
    ensures PeriodAt(cfg, Do(cfg, sys, t).cycle, t.at) == PeriodAt(cfg, sys.cycle, t.at)
  {
    hide Before, After, Move, PeriodAt, Seen, RowsSeen;
    match CycleStep(cfg, sys.led, t.at, t.op)
    case None =>
    case Some(s) => MoveKeepsActive(cfg, sys.cycle, clock, t.at, s);
  }

  lemma {:induction false} WholeBudget(
    cfg: Config, g: Gate, t: Call, keyHash: string, limit: int64, pending: int, n: int, m: int)
    requires Ready(cfg, g.sys, t.at) && Timely(t)
    requires limit >= 1 && HasLimit(g.sys.led, keyHash, limit) && Bounded(cfg, g, Whole(t), keyHash, limit, m)
    requires 0 <= pending && 0 <= m && pending + |g.waiting| <= n
    requires WithinBudget(cfg, g, t.at, keyHash, limit, pending, n, m)
    ensures var act := Whole(t);
            var next, after := DoAct(cfg, g, act), Pending(cfg, g, act, keyHash, limit, pending);
            0 <= after && after + |next.waiting| <= n ==> WithinBudget(cfg, next, t.at, keyHash, limit, after, n, m)
  {
    hide Ready, Do, HasLimit, KeepsLimit, Admits, Charges, Charge, PeriodAt, PeriodTotals, WithinBudget, Pending;
    var next := DoAct(cfg, g, Whole(t));
    var after := Pending(cfg, g, Whole(t), keyHash, limit, pending);
    StaleWithin(cfg, g, t.at);
    if 0 <= after && after + |next.waiting| <= n {
      WholeUsed(cfg, g, t, keyHash, limit, pending, m);
      var used, left := Used(cfg, g.sys, keyHash, t.at), Used(cfg, next.sys, keyHash, t.at);
      WholeStale(cfg, g, t);
      BudgetKept(limit, used, left, pending, after, Stale(cfg, g, t.at), n, m) by {
        BudgetIs(cfg, g, t.at, keyHash, limit, pending, n, m);
      }
      BudgetIs(cfg, next, t.at, keyHash, limit, after, n, m);
    }
  }

  lemma {:induction false} BudgetIs(
    cfg: Config, g: Gate, clock: Instant, keyHash: string, limit: int, pending: int, n: int, m: int)
    ensures WithinBudget(cfg, g, clock, keyHash, limit, pending, n, m) <==>
            Used(cfg, g.sys, keyHash, clock) + (pending + Stale(cfg, g, clock)) * m <= limit - 1 + n * m
  {
  }

  lemma {:induction false} WholeStale(cfg: Config, g: Gate, t: Call)
    requires Ready(cfg, g.sys, t.at) && Timely(t)
    ensures Stale(cfg, DoAct(cfg, g, Whole(t)), t.at) == Stale(cfg, g, t.at)
  {
    hide Ready, Do, PeriodAt;
    DoKeepsActive(cfg, g.sys, t.at, t);
  }

  /** How a whole call moves usage and the requests in flight. */
  predicate Moves(limit: int, used: int, left: int, pending: int, after: int, m: int) {
    || (after == pending + 1 && left == used <= limit - 1)
    || (after == pending - 1 && left <= used + m)
    || (after == pending && (left == used || left == 0))
  }

  lemma {:induction false} WholeUsed(cfg: Config, g: Gate, t: Call, keyHash: string, limit: int64, pending: int, m: int)
    requires Ready(cfg, g.sys, t.at) && Timely(t)
    requires HasLimit(g.sys.led, keyHash, limit) && Bounded(cfg, g, Whole(t), keyHash, limit, m)
    ensures Moves(limit, Used(cfg, g.sys, keyHash, t.at), Used(cfg, DoAct(cfg, g, Whole(t)).sys, keyHash, t.at),
                  pending, Pending(cfg, g, Whole(t), keyHash, limit, pending), m)
  {
    hide Ready, Do, HasLimit, KeepsLimit, Admits, Charges, Charge, PeriodAt, PeriodTotals;
    DoKeepsActive(cfg, g.sys, t.at, t);
    DoUsed(cfg, g.sys, t, keyHash, limit, m);
  }

  lemma {:induction false} BudgetKept(
    limit: int, used: int, left: int, pending: int, after: int, stale: int, n: int, m: int)
    requires Moves(limit, used, left, pending, after, m) && limit >= 1
    requires 0 <= m && 0 <= stale && 0 <= after && after + stale <= n
    requires used + (pending + stale) * m <= limit - 1 + n * m
    ensures left + (after + stale) * m <= limit - 1 + n * m
  {
    Budget(limit, left, after + stale, n, m);
    Budget(limit, 0, after + stale, n, m);
    assert (after + stale) * m == (pending + stale) * m + (after - pending) * m;
  }

  lemma {:induction false} ActReady(cfg: Config, g: Gate, clock: Instant, act: Act, keyHash: string, limit: int64)
    requires Ready(cfg, g.sys, clock) && clock <= ActAt(act) && (act.Whole? ==> Timely(act.call))
    requires HasLimit(g.sys.led, keyHash, limit) && (act.Whole? ==> KeepsLimit(act.call.op, keyHash, limit))
    ensures Ready(cfg, DoAct(cfg, g, act).sys, ActAt(act)) && HasLimit(DoAct(cfg, g, act).sys.led, keyHash, limit)
  {
    hide Do, HasLimit, Ready, Move;
    match act
    case Whole(t) =>
      DoReady(cfg, g.sys, clock, t);
      DoKeepsLimit(cfg, g.sys, t, keyHash, limit);
    case Resolve(now) => ResolveReady(cfg, g.sys, clock, now);
    case Decide(now, _) => LaterReady(cfg, g.sys, clock, now);
  }

  lemma {:induction false} ResolveReady(cfg: Config, sys: Sys, clock: Instant, at: Instant)
    requires Ready(cfg, sys, clock) && clock <= at
    ensures Ready(cfg, sys.(cycle := Move(cfg, sys.cycle, at, Read(at))), at)
  {
    hide Move, PeriodAt, Seen;
    DoReady(cfg, sys, clock, Call(at, ReadPeriod(at)));
  }

  lemma {:induction false} ActBudget(
    cfg: Config, g: Gate, clock: Instant, act: Act, keyHash: string, limit: int64, pending: int, n: int, m: int)
    requires Ready(cfg, g.sys, clock) && PlainLabels(cfg) && LabelsAdvance(cfg)
    requires clock <= ActAt(act) && (act.Whole? ==> Timely(act.call))
    requires limit >= 1 && HasLimit(g.sys.led, keyHash, limit) && Bounded(cfg, g, act, keyHash, limit, m)
    requires 0 <= pending && 0 <= m && pending + |g.waiting| <= n
    requires WithinBudget(cfg, g, clock, keyHash, limit, pending, n, m)
    ensures var next, after := DoAct(cfg, g, act), Pending(cfg, g, act, keyHash, limit, pending);
            0 <= after && after + |next.waiting| <= n ==>
              WithinBudget(cfg, next, ActAt(act), keyHash, limit, after, n, m)
  {
    hide PlainLabels, LabelsAdvance, RowsSeen, Seen, WithinBudget, DoAct, LetsIn, Settles, Bounded;
    var at := ActAt(act);
    ClockBudget(cfg, g, clock, at, keyHash, limit, pending, n, m);
    LaterReady(cfg, g.sys, clock, at);
    match act
    case Whole(t) => WholeBudget(cfg, g, t, keyHash, limit, pending, n, m);
    case Resolve(now) =>
      ResolveBudget(cfg, g, now, keyHash, limit, pending, n, m);
      ResolvingAdmitsNone(cfg, g, now, keyHash, limit, pending);
    case Decide(now, period) => DecideBudget(cfg, g, now, period, keyHash, limit, pending, n, m);
  }

  lemma {:induction false} ResolvingAdmitsNone(
    cfg: Config, g: Gate, now: Instant, keyHash: string, limit: int64, pending: int)
    ensures Pending(cfg, g, Resolve(now), keyHash, limit, pending) == pending
  {
  }

  lemma {:induction false} MeteredBudget(
    cfg: Config, g: Gate, clock: Instant, run: seq<Act>, keyHash: string, limit: int64, pending: int, n: int, m: int)
    requires Ready(cfg, g.sys, clock) && PlainLabels(cfg) && LabelsAdvance(cfg) && OrderlyActs(clock, run)
    requires limit >= 1 && HasLimit(g.sys.led, keyHash, limit)
    requires 0 <= pending && 0 <= m && pending + |g.waiting| <= n
    requires Metered(cfg, g, run, keyHash, limit, pending, n, m)
    requires WithinBudget(cfg, g, clock, keyHash, limit, pending, n, m)
    ensures Used(cfg, RunActs(cfg, g, run).sys, keyHash, EndOf(clock, run)) <= limit - 1 + n * m
    decreases |run|
  {
    hide Ready, PlainLabels, LabelsAdvance, DoAct, HasLimit, Used, Stale, Timely, LetsIn, Settles, Charges, Charge;
    StaleWithin(cfg, g, clock);
    if run == [] {
      Budget(limit, 0, pending + Stale(cfg, g, clock), n, m);
    } else {
      var act, next := run[0], DoAct(cfg, g, run[0]);
      var after := Pending(cfg, g, act, keyHash, limit, pending);
      ActReady(cfg, g, clock, act, keyHash, limit);
      ActBudget(cfg, g, clock, act, keyHash, limit, pending, n, m);
      MeteredBudget(cfg, next, ActAt(act), run[1..], keyHash, limit, after, n, m);
    }
  }

  /** However a metered run interleaves the steps of authentications with deliveries, repetitions,
      resets and rollovers, the key's usage of the active period never exceeds limit - 1 + n * m. */
  lemma {:induction false} OvershootBound(
    cfg: Config, sys: Sys, clock: Instant, run: seq<Act>, keyHash: string, limit: int64, n: int, m: int)
    requires Ready(cfg, sys, clock) && PlainLabels(cfg) && LabelsAdvance(cfg) && OrderlyActs(clock, run)
    requires limit >= 1 && HasLimit(sys.led, keyHash, limit) && 0 <= n && 0 <= m
    requires Metered(cfg, Gate(sys, multiset{}), run, keyHash, limit, 0, n, m)
    requires Used(cfg, sys, keyHash, clock) <= limit - 1 + n * m
    ensures forall i :: 0 <= i <= |run| ==>
              Used(cfg, RunActs(cfg, Gate(sys, multiset{}), run[..i]).sys, keyHash,
                   EndOf(clock, run[..i])) <= limit - 1 + n * m
  {
    hide Ready, PlainLabels, LabelsAdvance, HasLimit, Used, RunActs, OrderlyActs, Metered;
    var g := Gate(sys, multiset{});
    StaleWithin(cfg, g, clock);
    forall i | 0 <= i <= |run|
      ensures Used(cfg, RunActs(cfg, g, run[..i]).sys, keyHash, EndOf(clock, run[..i])) <= limit - 1 + n * m
    {
      PrefixMetered(cfg, g, clock, run, i, keyHash, limit, 0, n, m);
      MeteredBudget(cfg, g, clock, run[..i], keyHash, limit, 0, n, m);
    }
  }

  lemma {:induction false} PrefixMetered(
    cfg: Config, g: Gate, clock: Instant, run: seq<Act>, i: nat, keyHash: string, limit: int64, pending: int, n: int,
    m: int)
    requires i <= |run| && OrderlyActs(clock, run) && Metered(cfg, g, run, keyHash, limit, pending, n, m)
    ensures OrderlyActs(clock, run[..i]) && Metered(cfg, g, run[..i], keyHash, limit, pending, n, m)
    decreases i
  {
    hide DoAct, Bounded, Pending, Timely;
    if i > 0 {
      assert run[..i][1..] == run[1..][..i - 1];
      PrefixMetered(cfg, DoAct(cfg, g, run[0]), ActAt(run[0]), run[1..], i - 1, keyHash, limit,
                    Pending(cfg, g, run[0], keyHash, limit, pending), n, m);
    }
  }

  // ----- Why the bound counts from the resolved period -----

  /** Counted only from the decision, at most n requests are in flight at any time. */
  ghost predicate AdmittedAtMost(
    cfg: Config, g: Gate, run: seq<Act>, keyHash: string, limit: int64, pending: int, n: int)
    decreases |run|
  {
    run == [] ||
    var after := Pending(cfg, g, run[0], keyHash, limit, pending);
    0 <= after <= n && AdmittedAtMost(cfg, DoAct(cfg, g, run[0]), run[1..], keyHash, limit, after, n)
  }

  function OneToken(keyHash: string, at: Instant): UsageEvent {
    UsageEvent("", keyHash, at, "", "", 200, false, Tokens(0, 1, 0, 0, 0, 0, 1), false)
  }

  /** One authentication resolves its period before a boundary and decides after it; in between another
      request is let in and recorded in the new period. */
  function Straggler(rawKey: string, keyHash: string): seq<Act> {
    [Resolve(9 * SECOND), Whole(Call(10 * SECOND, Authenticate(rawKey))),
     Whole(Call(10 * SECOND, RecordUsage(OneToken(keyHash, 10 * SECOND)))), Decide(11 * SECOND, "p"),
     Whole(Call(11 * SECOND, RecordUsage(OneToken(keyHash, 11 * SECOND))))]
  }

  function OneTokenLeft(keyHash: string): Sys {
    Sys(Some(Cycle("p", Some(10 * SECOND), None, None)), Books(map[keyHash := KeyRow("", Some(1), ACTIVE)], [], map[]))
  }

  /** A limit of one and one-token requests, never two of them let in and unrecorded: two are used. The
      bound with n = 2, counted from the resolved period, is reached. */
  lemma {:induction false} StragglerExceeds(cfg: Config, rawKey: string, keyHash: string)
    requires cfg.weekly && !cfg.outputMetric && Trim(rawKey) != "" && HashKey(cfg, Trim(rawKey)) == keyHash
    ensures var g, run := Gate(OneTokenLeft(keyHash), multiset{}), Straggler(rawKey, keyHash);
            && AdmittedAtMost(cfg, g, run, keyHash, 1, 0, 1)
            && Used(cfg, RunActs(cfg, g, run).sys, keyHash, 11 * SECOND) == 2
  {
    hide DoAct, Pending, Used;
    var run := Straggler(rawKey, keyHash);
    var g0 := Gate(OneTokenLeft(keyHash), multiset{});
    var g1 := DoAct(cfg, g0, run[0]);
    var g2 := DoAct(cfg, g1, run[1]);
    var g3 := DoAct(cfg, g2, run[2]);
    var g4 := DoAct(cfg, g3, run[3]);
    StragglerBefore(cfg, rawKey, keyHash);
    StragglerAfter(cfg, rawKey, keyHash);
    StragglerRun(cfg, g0, run, keyHash);
  }

  lemma {:induction false} StragglerRun(cfg: Config, g: Gate, run: seq<Act>, keyHash: string)
    requires |run| == 5
    requires var g1 := DoAct(cfg, g, run[0]);
             var g2 := DoAct(cfg, g1, run[1]);
             var g3 := DoAct(cfg, g2, run[2]);
             var g4 := DoAct(cfg, g3, run[3]);
             && Pending(cfg, g, run[0], keyHash, 1, 0) == 0 && Pending(cfg, g1, run[1], keyHash, 1, 0) == 1
             && Pending(cfg, g2, run[2], keyHash, 1, 1) == 0 && Pending(cfg, g3, run[3], keyHash, 1, 0) == 1
             && Pending(cfg, g4, run[4], keyHash, 1, 1) == 0
    ensures AdmittedAtMost(cfg, g, run, keyHash, 1, 0, 1)
    ensures RunActs(cfg, g, run) ==
              DoAct(cfg, DoAct(cfg, DoAct(cfg, DoAct(cfg, DoAct(cfg, g, run[0]), run[1]), run[2]), run[3]), run[4])
  {
    hide DoAct, Pending;
    var g1 := DoAct(cfg, g, run[0]);
    var g2 := DoAct(cfg, g1, run[1]);
    var g3 := DoAct(cfg, g2, run[2]);
    var g4 := DoAct(cfg, g3, run[3]);
    assert run[1..][1..] == run[2..] && run[2..][1..] == run[3..] && run[3..][1..] == run[4..] && run[4..][1..] == [];
    assert RunActs(cfg, g4, run[4..]) == DoAct(cfg, g4, run[4]) && AdmittedAtMost(cfg, g4, run[4..], keyHash, 1, 1, 1);
    assert RunActs(cfg, g3, run[3..]) == RunActs(cfg, g4, run[4..])
      && AdmittedAtMost(cfg, g3, run[3..], keyHash, 1, 0, 1);
    assert RunActs(cfg, g2, run[2..]) == RunActs(cfg, g3, run[3..])
      && AdmittedAtMost(cfg, g2, run[2..], keyHash, 1, 1, 1);
    assert RunActs(cfg, g1, run[1..]) == RunActs(cfg, g2, run[2..])
      && AdmittedAtMost(cfg, g1, run[1..], keyHash, 1, 0, 1);
  }

  /** The table after the first record. */
  function OneUsed(keyHash: string, at: Instant): Books {
    var row := RowOf(OneToken(keyHash, at), at, UpstreamLabel(10 * SECOND));
    Books(map[keyHash := KeyRow("", Some(1), ACTIVE)], [row], map[CellOf(row) := Charge(row)])
  }

  const NEW_CYCLE: State := Some(Cycle(UpstreamLabel(10 * SECOND), None, Some("p"), Some(10 * SECOND)))

  lemma {:induction false} StragglerBefore(cfg: Config, rawKey: string, keyHash: string)
    requires cfg.weekly && !cfg.outputMetric && Trim(rawKey) != "" && HashKey(cfg, Trim(rawKey)) == keyHash
    ensures var run := Straggler(rawKey, keyHash);
            var g0 := Gate(OneTokenLeft(keyHash), multiset{});
            var g1 := DoAct(cfg, g0, run[0]);
            var g2 := DoAct(cfg, g1, run[1]);
            && Pending(cfg, g0, run[0], keyHash, 1, 0) == 0 && Pending(cfg, g1, run[1], keyHash, 1, 0) == 1
            && Pending(cfg, g2, run[2], keyHash, 1, 1) == 0
            && DoAct(cfg, g2, run[2]) == Gate(Sys(NEW_CYCLE, OneUsed(keyHash, 10 * SECOND)), multiset{"p"})
  {
    hide Trim, UpstreamLabel, Timestamp.Ts;
    var row := RowOf(OneToken(keyHash, 10 * SECOND), 10 * SECOND, UpstreamLabel(10 * SECOND));
    assert [] + [row] == [row];
  }

  lemma {:induction false} StragglerAfter(cfg: Config, rawKey: string, keyHash: string)
    requires cfg.weekly && !cfg.outputMetric
    ensures var run := Straggler(rawKey, keyHash);
            var g3 := Gate(Sys(NEW_CYCLE, OneUsed(keyHash, 10 * SECOND)), multiset{"p"});
            var g4 := DoAct(cfg, g3, run[3]);
            && Pending(cfg, g3, run[3], keyHash, 1, 0) == 1 && Pending(cfg, g4, run[4], keyHash, 1, 1) == 0
            && Used(cfg, DoAct(cfg, g4, run[4]).sys, keyHash, 11 * SECOND) == 2
  {
    hide UpstreamText, Timestamp.Ts;
    assert UpstreamLabel(10 * SECOND) == UpstreamText(10);
    UpstreamTextInjective(10, 10);
    assert UpstreamLabel(10 * SECOND) != "p";
  }
}
