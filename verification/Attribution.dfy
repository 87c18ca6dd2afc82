/** Which row a delivery leaves, and which cycle a delayed callback is charged to. */
module Attribution {
  import opened Base
  import opened Text
  import opened Ledger
  import opened Quota
  import opened QuotaCycle
  import opened QuotaRuns
  import opened Host
  import opened Convert
  import opened Callbacks
  import Extract
  import RouteHealth
  import Streams
  import StoredCycle
  import Timestamp

  // ----- The row of one delivery -----

  /** The weekly reset that a response of the codex provider announces. */
  function CodexReset(setup: Setup, record: UsageRecord, now: Instant): seq<Call> {
    match RouteHealth.ParseResetAt(setup.formats, Get(record.responseHeaders, "X-Codex-Secondary-Reset-At"))
    case None => []
    case Some(resetAt) => if EqualFold(Trim(record.provider), "codex") then [Call(now, ObserveReset(resetAt))] else []
  }

  /** The row a usage callback asks for once its reset is observed: stamped with the request's time and
      labelled with the period of that time, or of the callback's clock if the record has no time. */
  function UsageRow(cfg: Config, setup: Setup, sys: Sys, record: UsageRecord, now: Instant): EventRow {
    var stamp := if record.requestedAt != ZERO_TIME then record.requestedAt else now;
    var observed := RunCalls(cfg, sys, CodexReset(setup, record, now));
    EventRow(RequestID(record.responseHeaders), Trim(record.apiKey), Timestamp.Ts(stamp),
             PeriodAt(cfg, observed.cycle, stamp), Trim(record.provider), Trim(record.model),
             if record.failed then record.failureStatus else 0, record.failed, FillTotal(record.tokens), false)
  }

  lemma {:induction false} RunTwo(cfg: Config, sys: Sys, before: seq<Call>, t: Call)
    ensures RunCalls(cfg, sys, before + [t]) == Do(cfg, RunCalls(cfg, sys, before), t)
  {
    hide Do;
    RunAppends(cfg, sys, before, [t]);
    var s := RunCalls(cfg, sys, before);
    assert RunCalls(cfg, s, [t]) == RunCalls(cfg, Do(cfg, s, t), [t][1..]);
  }

  lemma {:induction false} ResetKeepsLedger(cfg: Config, setup: Setup, sys: Sys, record: UsageRecord, now: Instant)
    ensures RunCalls(cfg, sys, CodexReset(setup, record, now)).led == sys.led
  {
    hide RouteHealth.ParseResetAt, EqualFold, Trim, Get;
    var calls := CodexReset(setup, record, now);
    if calls != [] {
      assert calls == [] + calls;
      RunTwo(cfg, sys, [], calls[0]);
    }
  }

  /** A usage callback with a key posts exactly that row, and one without a key none. */
  lemma {:induction false} UsagePosts(cfg: Config, setup: Setup, sys: Sys, record: UsageRecord, now: Instant)
    ensures RunCalls(cfg, sys, UsageCalls(setup, record, now)).led ==
              if Trim(record.apiKey) == "" then sys.led else Post(sys.led, UsageRow(cfg, setup, sys, record, now))
  {
    hide RouteHealth.ParseResetAt, EqualFold, Trim, Get, RunCalls, Post, FillTotal, RequestID, PeriodAt, Move;
    hide Timestamp.Ts;
    var reset, calls := CodexReset(setup, record, now), UsageCalls(setup, record, now);
    ResetKeepsLedger(cfg, setup, sys, record, now);
    if Trim(record.apiKey) == "" {
      assert calls == reset + [] == reset;
    } else {
      var t := Call(now, RecordUsage(FromCPA(record)));
      assert calls == reset + [t];
      RunTwo(cfg, sys, reset, t);
      FilledOnce(record.tokens);
    }
  }

  lemma {:induction false} FilledOnce(t: Tokens)
    ensures FillTotal(FillTotal(t)) == FillTotal(t)
  {
    hide Wrap64;
  }

  // ----- The cycle of a delayed callback -----

  /** b is a, or a after a rollover that was due at t. */
  predicate AheadByRead(a: State, b: State, t: Instant) { a == b || (Due(a, t) && b == Settle(a, t)) }

  /** Whether a rollover that is due at an instant is applied before a run does not change the label that
      instant has after it. */
  lemma {:induction false} ReadFirst(labels: Labels, a: State, b: State, clock: Instant, t: Instant, run: seq<Timed>)
    requires AheadByRead(a, b, t) && t <= clock && Monotone(clock, run)
    ensures Resolve(labels, Run(labels, a, run), t) == Resolve(labels, Run(labels, b, run), t)
    decreases |run|
  {
    hide UpstreamLabel;
    if run != [] {
      ReadFirst(labels, Apply(labels, a, run[0]), Apply(labels, b, run[0]), run[0].at, t, run[1..]);
    }
  }

  /** The rollovers a run of calls makes, once those due at t have been made. */
  function RollsAfter(cfg: Config, sys: Sys, t: Instant, run: seq<Call>): seq<Instant> {
    Rolls(cfg.labels, Settle(sys.cycle, t), CycleSteps(cfg, sys, run))
  }

  /** An instant of the current cycle keeps its label through any calls with at most one rollover. */
  lemma {:induction false} LabelKept(cfg: Config, sys: Sys, clock: Instant, t: Instant, run: seq<Call>)
    requires cfg.weekly && sys.cycle.Some? && Sound(sys.cycle, clock) && t <= clock && Orderly(clock, run)
    requires sys.cycle.value.start.Some? ==> sys.cycle.value.start.value <= t
    ensures var rolls := RollsAfter(cfg, sys, t, run);
            PeriodAt(cfg, RunCalls(cfg, sys, run).cycle, t) ==
              if |rolls| <= 1 then PeriodAt(cfg, sys.cycle, t) else UpstreamLabel(rolls[|rolls| - 2])
  {
    hide UpstreamLabel, RunCalls, CycleSteps, Run, Rolls, Orderly, Resolve;
    var steps := CycleSteps(cfg, sys, run);
    CallsRunTheCycle(cfg, sys, clock, run);
    AttributionStable(cfg.labels, sys.cycle.value, clock, t, steps);
    ReadFirst(cfg.labels, sys.cycle, Settle(sys.cycle, t), clock, t, steps);
  }

  lemma {:induction false} OrderlyAppends(clock: Instant, a: seq<Call>, b: seq<Call>)
    requires Orderly(clock, a) && Orderly(ClockAfter(clock, a), b)
    ensures Orderly(clock, a + b)
    decreases |a|
  {
    if a == [] {
      assert a + b == b;
    } else {
      assert (a + b)[1..] == a[1..] + b;
      OrderlyAppends(a[0].at, a[1..], b);
    }
  }

  lemma {:induction false} ResetOrderly(setup: Setup, record: UsageRecord, clock: Instant, now: Instant)
    requires clock <= now
    ensures Orderly(clock, CodexReset(setup, record, now))
  {
    hide RouteHealth.ParseResetAt, EqualFold, Trim, Get;
  }

  /** A request made at an instant of the then current cycle, whose usage callback comes after any other
      calls, is charged to the cycle of its request as long as there was at most one rollover since,
      counting one its own reset header brings about. After more it is charged to the cycle before the
      active one. The row is the one the store keeps. */
  lemma {:induction false} DelayedCallbackChargesItsCycle(
    cfg: Config, setup: Setup, sys: Sys, clock: Instant, run: seq<Call>, record: UsageRecord, now: Instant)
    requires var t := record.requestedAt;
             && cfg.weekly && sys.cycle.Some? && Sound(sys.cycle, clock) && t != ZERO_TIME && t <= clock
             && (sys.cycle.value.start.Some? ==> sys.cycle.value.start.value <= t)
    requires Orderly(clock, run) && ClockAfter(clock, run) <= now && Trim(record.apiKey) != ""
    requires StoredCycle.Storable(sys.cycle) && PrintableBoundaries(run + UsageCalls(setup, record, now))
    ensures var t, before := record.requestedAt, RunCalls(cfg, sys, run);
            var row := UsageRow(cfg, setup, before, record, now);
            var rolls := RollsAfter(cfg, sys, t, run + CodexReset(setup, record, now));
            && StoredCalls(cfg, Encoded(sys), run + UsageCalls(setup, record, now)).led == Post(before.led, row)
            && row.ts == Timestamp.Ts(t)
            && row.month == if |rolls| <= 1 then PeriodAt(cfg, sys.cycle, t) else UpstreamLabel(rolls[|rolls| - 2])
  {
    hide UpstreamLabel, RunCalls, Orderly, Resolve, PeriodAt, Post, CodexReset, RollsAfter, UsageCalls, FillTotal;
    hide RequestID, Trim;
    hide StoredCycle.Storable, PrintableBoundaries, Sound;
    var before, reset := RunCalls(cfg, sys, run), CodexReset(setup, record, now);
    ResetOrderly(setup, record, ClockAfter(clock, run), now);
    OrderlyAppends(clock, run, reset);
    LabelKept(cfg, sys, clock, record.requestedAt, run + reset);
    RunAppends(cfg, sys, run, reset);
    UsagePosts(cfg, setup, before, record, now);
    RunAppends(cfg, sys, run, UsageCalls(setup, record, now));
    StoredCallsRefine(cfg, sys, run + UsageCalls(setup, record, now));
  }

  // ----- The row of an intercepted response -----

  /** The row an interception asks for: stamped with its own clock, attributed to the extracted key, marked
      as codex by the reset header, never failed. */
  function InterceptedRow(
    cfg: Config, setup: Setup, sys: Sys, key: string, res: Headers, body: string, model: string, statusCode: int,
    stream: bool,
    now: Instant): EventRow
  {
    var header := Trim(Get(res, "X-Codex-Secondary-Reset-At"));
    EventRow(RequestID(res), Trim(HashKey(cfg, key)), Timestamp.Ts(now), PeriodAt(cfg, sys.cycle, now),
             if header == "" then "" else "codex", Trim(model), statusCode, false,
             FillTotal(CountersOf(Parse(setup.json, body).0)), stream)
  }

  lemma {:induction false} ObservationKeepsLedger(cfg: Config, setup: Setup, sys: Sys, res: Headers, now: Instant)
    ensures RunCalls(cfg, sys, ObserveCalls(setup, res, now)).led == sys.led
  {
    hide RouteHealth.CodexWeeklyResetAt;
    var calls := ObserveCalls(setup, res, now);
    if calls != [] {
      assert calls == [] + calls;
      RunTwo(cfg, sys, [], calls[0]);
    }
  }

  /** An interception posts exactly that row and then prunes by the retention cutoff, if the response names a
      request and a caller and reports usage; otherwise it leaves the tables alone. */
  lemma {:induction false} InterceptionPosts(
    cfg: Config, setup: Setup, sys: Sys, req: Headers, res: Headers, body: string, model: string, statusCode: int,
    stream: bool,
    now: Instant)
    requires now != ZERO_TIME
    ensures var key := Extract.ExtractAPIKey(req, map[], setup.sources);
            var observed := RunCalls(cfg, sys, ObserveCalls(setup, res, now));
            RunCalls(cfg, sys, InterceptedCalls(cfg, setup, req, res, body, model, statusCode, stream, now)).led ==
              if key.None? || RequestID(res) == "" || !Parse(setup.json, body).1 then sys.led
              else
                var led := Post(sys.led,
                                InterceptedRow(cfg, setup, observed, key.value.key, res, body, model, statusCode,
                                               stream, now));
                led.(events := PruneRows(led.events, Timestamp.Ts(setup.retention(now))))
  {
    hide Extract.ExtractAPIKey, RequestID, Parse, CountersOf, FillTotal, Trim, HashKey, PeriodAt, Move, Post;
    hide PruneRows, Timestamp.Ts;
    hide RunCalls, ObserveCalls, Get;
    var observe := ObserveCalls(setup, res, now);
    var event := InterceptedEvent(cfg, setup, req, res, body, model, statusCode, stream, now);
    ObservationKeepsLedger(cfg, setup, sys, res, now);
    if event.None? {
      assert observe + [] == observe;
    } else {
      var t, prune := Call(now, RecordUsage(event.value)), Call(now, Prune(setup.retention(now)));
      assert observe + [t, prune] == (observe + [t]) + [prune];
      RunTwo(cfg, sys, observe, t);
      RunTwo(cfg, sys, observe + [t], prune);
      TrimsTwice(model);
    }
  }

  lemma {:induction false} TrimsTwice(model: string)
    ensures Trim("") == "" && Trim("codex") == "codex"
  {
    TrimKeeps("codex");
  }

  /** A chunk callback posts, at the end of its stream, the row of the accounted text: as a stream, with
      status 200 and the clock of the recording. */
  lemma {:induction false} StreamPosts(
    cfg: Config, setup: Setup, sys: Sys, table: Streams.Table, req: Headers, res: Headers, body: string, model: string,
    now: Instant, later: Instant)
    ensures var stream := StreamOf(cfg, setup, req, res, body, now);
            var observed := RunCalls(cfg, sys, ObserveCalls(setup, res, now));
            RunCalls(cfg, sys, StreamCalls(cfg, setup, table, req, res, body, model, now, later)).led ==
              if stream.None? || Streams.Accounted(setup.json, table, stream.value).None? then sys.led
              else
                RunCalls(cfg, observed, InterceptedCalls(
                  cfg, setup, req, res, Streams.Accounted(setup.json, table, stream.value).value, model, 200, true,
                  later)).led
    ensures StreamOf(cfg, setup, req, res, body, now).Some? <==>
            Extract.ExtractAPIKey(req, map[], setup.sources).Some? && RequestID(res) != ""
    ensures var stream := StreamOf(cfg, setup, req, res, body, now);
            stream.Some? ==>
              && stream.value.body == body && stream.value.at == now
              && stream.value.key ==
                 RequestID(res) + ['\0'] + HashKey(cfg, Extract.ExtractAPIKey(req, map[], setup.sources).value.key)
  {
    hide Extract.ExtractAPIKey, RequestID, InterceptedCalls, RunCalls, ObserveCalls, Streams.Accounted, HashKey;
    ObservationKeepsLedger(cfg, setup, sys, res, now);
    var observe := ObserveCalls(setup, res, now);
    assert observe + [] == observe;
    RunAppends(cfg, sys, observe, AccountedCalls(cfg, setup, table, req, res, body, model, now, later));
  }

  /** A request is authenticated with the key it carries in the configured place, be it a header or a query
      parameter. */
  lemma {:induction false} AuthenticatesCarriedKey(setup: Setup, place: Extract.Place, key: string, now: Instant)
    requires Extract.Word(key) && setup.sources == [Extract.SourceOf(place)]
    ensures AuthCalls(setup, Extract.HeadersWith(place, key), Extract.QueryWith(place, key), now) ==
              [Call(now, Authenticate(key))]
  {
    hide Extract.ExtractAPIKey, Extract.HeadersWith, Extract.QueryWith, Extract.SourceOf;
    Extract.SourcesKnowTheirPlaces(place, place, key);
  }
}
