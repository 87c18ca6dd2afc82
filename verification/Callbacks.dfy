/** What each host callback does to the store, the bans and the stream table, and what the plugin
    charges over a run of callbacks. */
module Callbacks {
  import opened Base
  import opened Text
  import opened Ledger
  import opened Quota
  import opened Bans
  import opened Host
  import opened Convert
  import opened Streams
  import opened RouteHealth
  import LedgerRuns
  import opened Billing
  import opened Deliveries
  import Extract
  import Decimal
  import Timestamp
  import StoredCycle

  /** Configuration and given functions a runtime is set up with. `retention` is the pruning cutoff. */
  datatype Setup = Setup(
    json: Json, formats: Formats, health: HealthConfig, sources: seq<string>, retention: Instant -> Instant)

  // ----- The store calls a callback makes, in order -----

  function ObserveCalls(setup: Setup, h: Headers, now: Instant): seq<Call> {
    match CodexWeeklyResetAt(setup.formats, h)
    case None => []
    case Some(resetAt) => [Call(now, ObserveReset(resetAt))]
  }

  /** The usage event an intercepted response stands for, if it can be attributed and deduplicated. */
  function InterceptedEvent(
    cfg: Config, setup: Setup, requestHeaders: Headers, responseHeaders: Headers, body: string, model: string,
    statusCode: int, stream: bool, now: Instant): Option<UsageEvent>
  {
    if RequestID(responseHeaders) == "" then None
    else match Extract.ExtractAPIKey(requestHeaders, map[], setup.sources)
      case None => None
      case Some(e) =>
        FromInterceptedResponse(setup.json, body, responseHeaders, HashKey(cfg, e.key),
                                if Trim(Get(responseHeaders, SECONDARY_RESET)) != "" then "codex" else "",
                                model, statusCode, stream, now)
  }

  function InterceptedCalls(
    cfg: Config, setup: Setup, requestHeaders: Headers, responseHeaders: Headers, body: string, model: string,
    statusCode: int, stream: bool, now: Instant): seq<Call>
  {
    ObserveCalls(setup, responseHeaders, now)
    + match InterceptedEvent(cfg, setup, requestHeaders, responseHeaders, body, model, statusCode, stream, now)
      case None => []
      case Some(event) => [Call(now, RecordUsage(event)), Call(now, Prune(setup.retention(now)))]
  }

  function UsageCalls(setup: Setup, record: UsageRecord, now: Instant): seq<Call> {
    (if EqualFold(Trim(record.provider), "codex") then ObserveCalls(setup, record.responseHeaders, now) else [])
    + (if Trim(record.apiKey) != "" then [Call(now, RecordUsage(FromCPA(record)))] else [])
  }

  /** The chunk a stream callback delivers, if the response names a request and a caller. */
  function StreamOf(
    cfg: Config, setup: Setup, requestHeaders: Headers, responseHeaders: Headers, body: string,
    now: Instant): Option<Chunk>
  {
    match Extract.ExtractAPIKey(requestHeaders, map[], setup.sources)
    case None => None
    case Some(e) =>
      if RequestID(responseHeaders) == "" then None
      else Some(Chunk(StateKey(RequestID(responseHeaders), HashKey(cfg, e.key)), body, now))
  }

  function TableAfter(
    cfg: Config, setup: Setup, table: Table, requestHeaders: Headers, responseHeaders: Headers, body: string,
    now: Instant): Table
  {
    match StreamOf(cfg, setup, requestHeaders, responseHeaders, body, now)
    case None => table
    case Some(c) => Deliver(setup.json, table, c)
  }

  function AccountedCalls(
    cfg: Config, setup: Setup, table: Table, requestHeaders: Headers, responseHeaders: Headers, body: string,
    model: string,
    now: Instant, later: Instant): seq<Call>
  {
    match StreamOf(cfg, setup, requestHeaders, responseHeaders, body, now)
    case None => []
    case Some(c) =>
      match Accounted(setup.json, table, c)
      case None => []
      case Some(whole) => InterceptedCalls(cfg, setup, requestHeaders, responseHeaders, whole, model, 200, true, later)
  }

  function StreamCalls(
    cfg: Config, setup: Setup, table: Table, requestHeaders: Headers, responseHeaders: Headers, body: string,
    model: string,
    now: Instant, later: Instant): seq<Call>
  {
    ObserveCalls(setup, responseHeaders, now)
    + AccountedCalls(cfg, setup, table, requestHeaders, responseHeaders, body, model, now, later)
  }

  /** Calls made one after another until one fails. */
  function Try(cfg: Config, s: Stored, calls: seq<Call>): (Stored, bool)
    decreases |calls|
  {
    if calls == [] then (s, true)
    else
      var (next, r) := StoredDo(cfg, s, calls[0]);
      if r.Err? then (next, false) else Try(cfg, next, calls[1..])
  }

  lemma {:induction false} TrySplits(cfg: Config, s: Stored, a: seq<Call>, b: seq<Call>)
    ensures Try(cfg, s, a + b) == if Try(cfg, s, a).1 then Try(cfg, Try(cfg, s, a).0, b) else Try(cfg, s, a)
    decreases |a|
  {
    hide StoredDo;
    if a == [] {
      assert a + b == b;
    } else {
      assert (a + b)[1..] == a[1..] + b;
      TrySplits(cfg, StoredDo(cfg, s, a[0]).0, a[1..], b);
    }
  }

  lemma {:induction false} TryOne(cfg: Config, s: Stored, c: Call)
    ensures Try(cfg, s, [c]) == (StoredDo(cfg, s, c).0, StoredDo(cfg, s, c).1.Ok?)
    ensures Try(cfg, s, []) == (s, true)
  {
    hide StoredDo;
    assert [c][1..] == [];
  }

  /** Callbacks made one after another are a run of calls: unless a storage error stops one, they leave
      what the run theorems say. */
  lemma {:induction false} TryIsRun(cfg: Config, s: Stored, calls: seq<Call>)
    requires Try(cfg, s, calls).1
    ensures Try(cfg, s, calls).0 == StoredCalls(cfg, s, calls)
    decreases |calls|
  {
    hide StoredDo;
    if calls != [] { TryIsRun(cfg, StoredDo(cfg, s, calls[0]).0, calls[1..]); }
  }

  lemma {:induction false} PruneNeverFails(cfg: Config, s: Stored, now: Instant, before: Instant)
    ensures StoredDo(cfg, s, Call(now, Prune(before))).1.Ok?
  {
  }

  // ----- Runs of callbacks -----

  datatype Callback =
    | StreamChunk(
        requestHeaders: Headers, responseHeaders: Headers, body: string, model: string, now: Instant, later: Instant)
    | Response(
        requestHeaders: Headers, responseHeaders: Headers, body: string, model: string, statusCode: int, now: Instant)
    | Usage(record: UsageRecord, now: Instant)
    | FrontendAuth(headers: Headers, query: map<string, string>, now: Instant)

  datatype World = World(stored: Stored, table: Table, bans: seq<BanRow>)

  function AuthCalls(setup: Setup, headers: Headers, query: map<string, string>, now: Instant): seq<Call> {
    match Extract.ExtractAPIKey(headers, query, setup.sources)
    case None => []
    case Some(e) => [Call(now, Authenticate(e.key))]
  }

  /** One callback. A storage error stops it where it occurs. */
  function Handle(cfg: Config, setup: Setup, w: World, cb: Callback): World {
    match cb
    case StreamChunk(req, res, body, model, now, later) =>
      if !Try(cfg, w.stored, ObserveCalls(setup, res, now)).1 then
        w.(stored := Try(cfg, w.stored, ObserveCalls(setup, res, now)).0)
      else
        w.(stored := Try(cfg, w.stored, StreamCalls(cfg, setup, w.table, req, res, body, model, now, later)).0,
           table := TableAfter(cfg, setup, w.table, req, res, body, now))
    case Response(req, res, body, model, statusCode, now) =>
      w.(stored := Try(cfg, w.stored, InterceptedCalls(cfg, setup, req, res, body, model, statusCode, false, now)).0)
    case Usage(record, now) =>
      var calls := UsageCalls(setup, record, now);
      w.(stored := Try(cfg, w.stored, calls + [Call(now, Prune(setup.retention(now)))]).0,
         bans := if Try(cfg, w.stored, calls).1 then RunBans(w.bans, BansIn(setup, cb)) else w.bans)
    case FrontendAuth(headers, query, now) => w.(stored := Try(cfg, w.stored, AuthCalls(setup, headers, query, now)).0)
  }

  function HandleAll(cfg: Config, setup: Setup, w: World, cbs: seq<Callback>): World
    decreases |cbs|
  {
    if cbs == [] then w else HandleAll(cfg, setup, Handle(cfg, setup, w, cbs[0]), cbs[1..])
  }

  /** The store calls of a callback that meets no storage error. */
  function CallsIn(cfg: Config, setup: Setup, table: Table, cb: Callback): seq<Call> {
    match cb
    case StreamChunk(req, res, body, model, now, later) =>
      StreamCalls(cfg, setup, table, req, res, body, model, now, later)
    case Response(req, res, body, model, statusCode, now) =>
      InterceptedCalls(cfg, setup, req, res, body, model, statusCode, false, now)
    case Usage(record, now) => UsageCalls(setup, record, now) + [Call(now, Prune(setup.retention(now)))]
    case FrontendAuth(headers, query, now) => AuthCalls(setup, headers, query, now)
  }

  function ChunksIn(cfg: Config, setup: Setup, cb: Callback): seq<Chunk> {
    if !cb.StreamChunk? then []
    else
      match StreamOf(cfg, setup, cb.requestHeaders, cb.responseHeaders, cb.body, cb.now)
      case None => []
      case Some(c) => [c]
  }

  function BansIn(setup: Setup, cb: Callback): seq<TimedBanOp> {
    if !cb.Usage? then []
    else
      match Observation(setup.formats, setup.health, cb.record, cb.now)
      case None => []
      case Some(ban) => [TimedBanOp(cb.now, Add(ban))]
  }

  function ChunksOf(cfg: Config, setup: Setup, cbs: seq<Callback>): seq<Chunk> {
    if cbs == [] then [] else ChunksIn(cfg, setup, cbs[0]) + ChunksOf(cfg, setup, cbs[1..])
  }

  function BansOf(setup: Setup, cbs: seq<Callback>): seq<TimedBanOp> {
    if cbs == [] then [] else BansIn(setup, cbs[0]) + BansOf(setup, cbs[1..])
  }

  /** The store calls of a run: they depend on the streams, not on what the store holds. */
  function CallsOf(cfg: Config, setup: Setup, table: Table, cbs: seq<Callback>): seq<Call>
    decreases |cbs|
  {
    if cbs == [] then []
    else
      CallsIn(cfg, setup, table, cbs[0])
      + CallsOf(cfg, setup, DeliverAll(setup.json, table, ChunksIn(cfg, setup, cbs[0])), cbs[1..])
  }

  function Encoded(sys: Sys): Stored { Stored(StoredCycle.Encode(sys.cycle), sys.led) }

  lemma {:induction false} PrintableSplits(a: seq<Call>, b: seq<Call>)
    requires PrintableBoundaries(a + b)
    ensures PrintableBoundaries(a) && PrintableBoundaries(b)
  {
    assert forall i :: 0 <= i < |a| ==> a[i] == (a + b)[i];
    assert forall i :: 0 <= i < |b| ==> b[i] == (a + b)[|a| + i];
  }

  /** With printable boundaries no call fails. */
  lemma {:induction false} TrySucceeds(cfg: Config, sys: Sys, calls: seq<Call>)
    requires StoredCycle.Storable(sys.cycle) && PrintableBoundaries(calls)
    ensures Try(cfg, Encoded(sys), calls) == (Encoded(RunCalls(cfg, sys, calls)), true)
    ensures StoredCycle.Storable(RunCalls(cfg, sys, calls).cycle)
    decreases |calls|
  {
    hide StoredDo, Do, StoredCycle.Storable;
    if calls != [] {
      StoredDoRefines(cfg, sys, calls[0]);
      PrintableSplits([calls[0]], calls[1..]);
      TrySucceeds(cfg, Do(cfg, sys, calls[0]), calls[1..]);
    }
  }

  lemma {:induction false} DeliverAllAppends(j: Json, table: Table, a: seq<Chunk>, b: seq<Chunk>)
    ensures DeliverAll(j, table, a + b) == DeliverAll(j, DeliverAll(j, table, a), b)
  {
    hide Deliver;
    if b == [] {
      assert a + b == a;
    } else {
      assert (a + b)[..|a + b| - 1] == a + b[..|b| - 1];
      DeliverAllAppends(j, table, a, b[..|b| - 1]);
    }
  }

  lemma {:induction false} RunBansAppends(bans: seq<BanRow>, a: seq<TimedBanOp>, b: seq<TimedBanOp>)
    ensures RunBans(bans, a + b) == RunBans(RunBans(bans, a), b)
    decreases |a|
  {
    hide ApplyBan;
    if a == [] {
      assert a + b == b;
    } else {
      assert (a + b)[1..] == a[1..] + b;
      RunBansAppends(ApplyBan(bans, a[0]), a[1..], b);
    }
  }

  lemma {:induction false} TableDelivers(cfg: Config, setup: Setup, table: Table, cb: Callback)
    ensures DeliverAll(setup.json, table, ChunksIn(cfg, setup, cb)) ==
              if cb.StreamChunk?
              then TableAfter(cfg, setup, table, cb.requestHeaders, cb.responseHeaders, cb.body, cb.now) else table
  {
    hide Deliver, StreamOf;
    if cb.StreamChunk? {
      match StreamOf(cfg, setup, cb.requestHeaders, cb.responseHeaders, cb.body, cb.now)
      case None =>
      case Some(c) =>
        assert DeliverAll(setup.json, table, [c]) == Deliver(setup.json, DeliverAll(setup.json, table, [c][..0]), c);
    }
  }

  lemma {:induction false} HandleIsCalls(
    cfg: Config, setup: Setup, sys: Sys, table: Table, bans: seq<BanRow>, cb: Callback)
    requires StoredCycle.Storable(sys.cycle) && PrintableBoundaries(CallsIn(cfg, setup, table, cb))
    ensures Handle(cfg, setup, World(Encoded(sys), table, bans), cb) ==
              World(Encoded(RunCalls(cfg, sys, CallsIn(cfg, setup, table, cb))),
                    DeliverAll(setup.json, table, ChunksIn(cfg, setup, cb)), RunBans(bans, BansIn(setup, cb)))
  {
    hide RunCalls, Try, ObserveCalls, InterceptedCalls, AccountedCalls, UsageCalls, Observation, TableAfter;
    hide DeliverAll, ChunksIn;
    hide StoredCycle.Storable, PrintableBoundaries, Encoded;
    var calls := CallsIn(cfg, setup, table, cb);
    TrySucceeds(cfg, sys, calls);
    TableDelivers(cfg, setup, table, cb);
    match cb
    case StreamChunk(req, res, body, model, now, later) =>
      var observe := ObserveCalls(setup, res, now);
      PrintableSplits(observe, AccountedCalls(cfg, setup, table, req, res, body, model, now, later));
      TrySucceeds(cfg, sys, observe);
    case Usage(record, now) =>
      PrintableSplits(UsageCalls(setup, record, now), [Call(now, Prune(setup.retention(now)))]);
      TrySucceeds(cfg, sys, UsageCalls(setup, record, now));
    case _ =>
  }

  /** A run of callbacks whose observed boundaries are printable never fails: it is a run of store calls,
      a delivery of its chunks and a run of ban operations, side by side. */
  lemma {:induction false} CallbacksAreCalls(
    cfg: Config, setup: Setup, sys: Sys, table: Table, bans: seq<BanRow>, cbs: seq<Callback>)
    requires StoredCycle.Storable(sys.cycle) && PrintableBoundaries(CallsOf(cfg, setup, table, cbs))
    ensures HandleAll(cfg, setup, World(Encoded(sys), table, bans), cbs) ==
              World(Encoded(RunCalls(cfg, sys, CallsOf(cfg, setup, table, cbs))),
                    DeliverAll(setup.json, table, ChunksOf(cfg, setup, cbs)), RunBans(bans, BansOf(setup, cbs)))
    decreases |cbs|
  {
    hide Handle, CallsIn, ChunksIn, BansIn, Deliver, ApplyBan, StoredCycle.Storable, PrintableBoundaries, Encoded;
    hide RunCalls;
    if cbs == [] {
      RunNothing(cfg, sys);
    } else {
      var cb := cbs[0];
      var first, chunks := CallsIn(cfg, setup, table, cb), ChunksIn(cfg, setup, cb);
      var next := DeliverAll(setup.json, table, chunks);
      var rest := CallsOf(cfg, setup, next, cbs[1..]);
      PrintableSplits(first, rest);
      HandleIsCalls(cfg, setup, sys, table, bans, cb);
      TrySucceeds(cfg, sys, first);
      CallbacksAreCalls(cfg, setup, RunCalls(cfg, sys, first), next, RunBans(bans, BansIn(setup, cb)), cbs[1..]);
      RunAppends(cfg, sys, first, rest);
      DeliverAllAppends(setup.json, table, chunks, ChunksOf(cfg, setup, cbs[1..]));
      RunBansAppends(bans, BansIn(setup, cb), BansOf(setup, cbs[1..]));
    }
  }

  lemma {:induction false} RunNothing(cfg: Config, sys: Sys)
    ensures RunCalls(cfg, sys, []) == sys
  {
  }

  /** One response header blocks the store for good: after a reset at 10000-01-01T00:00:00Z is observed on
      a fresh database, no call records anything and no period can be resolved any more. */
  lemma {:induction false} FiveDigitYearBlocksReads(
    cfg: Config, setup: Setup, led: Books, h: Headers, now: Instant, run: seq<Call>, at: Instant)
    requires cfg.weekly && Get(h, SECONDARY_RESET) == Decimal.IntText(253_402_300_800)
    requires now < 253_402_300_800 * SECOND
    ensures var end := StoredCalls(cfg, StoredCalls(cfg, Stored(None, led), ObserveCalls(setup, h, now)), run);
            end.led.usage == led.usage && ReadRow(cfg, end.row, at).1.Err?
  {
    hide Decimal.ParseInt, Decimal.IntText, Trim, Timestamp.Ts, Timestamp.ParseTs, Timestamp.Printable, Get;
    var boundary := 253_402_300_800 * SECOND;
    var t := Call(now, ObserveReset(boundary));
    DigitsSurviveTrim(253_402_300_800);
    Decimal.ParseIntText(253_402_300_800);
    assert ObserveCalls(setup, h, now) == [t];
    assert StoredCalls(cfg, Stored(None, led), [t]) ==
      StoredCalls(cfg, StoredDo(cfg, Stored(None, led), t).0, [t][1..]);
    Timestamp.FourDigitYears(boundary);
    Timestamp.ParseUndoesPrint(boundary);
    UnreadableBlocksForGood(cfg, StoredDo(cfg, Stored(None, led), t).0, run, at);
  }

  // ----- What is charged over a run of callbacks -----

  /** What really happened to a request: the host's token counts, whether it failed, and how its
      response reports them. */
  datatype Fact = Fact(tokens: Tokens, failed: bool, spelling: Spelling)

  type Facts = Request -> Fact

  /** The columns that tokens add, whatever else their row says. */
  function ChargeFor(failed: bool, tokens: Tokens): Totals {
    Charge(EventRow("", "", "", "", "", "", 0, failed, FillTotal(tokens), false))
  }

  function FactCharge(fact: Fact): Totals { ChargeFor(fact.failed, fact.tokens) }

  /** The usage objects of a text together report the host's counts for a request that did not fail. */
  ghost predicate Tells(j: Json, text: string, fact: Fact) {
    && !fact.failed && Expressible(fact.tokens, fact.spelling)
    && IsMaximum(Objects(j, text), Reported(fact.tokens, fact.spelling))
  }

  /** The request and caller a response names. */
  function Identified(cfg: Config, setup: Setup, requestHeaders: Headers, responseHeaders: Headers): Option<Request> {
    match Extract.ExtractAPIKey(requestHeaders, map[], setup.sources)
    case None => None
    case Some(e) =>
      if RequestID(responseHeaders) == "" then None
      else Some(Request(RequestID(responseHeaders), Trim(HashKey(cfg, e.key))))
  }

  /** The whole text of the response that a callback completes: the body, or all that the stream has
      delivered since its previous terminal chunk. */
  function CompletedText(cfg: Config, setup: Setup, chunks: seq<Chunk>, cb: Callback): Option<string> {
    if cb.Response? then Some(cb.body)
    else if ChunksIn(cfg, setup, cb) == [] then None
    else
      var c := ChunksIn(cfg, setup, cb)[0];
      if Terminal(setup.json, c.body) then Some(Concat(Since(setup.json, chunks, c.key) + [c.body])) else None
  }

  /** The identified request whose usage a callback delivers. */
  function Delivered(cfg: Config, setup: Setup, chunks: seq<Chunk>, cb: Callback): Option<Request> {
    match cb
    case FrontendAuth(_, _, _) => None
    case Usage(record, _) =>
      if Trim(record.apiKey) == "" || RequestID(record.responseHeaders) == "" then None
      else Some(Request(RequestID(record.responseHeaders), Trim(record.apiKey)))
    case _ =>
      var text := CompletedText(cfg, setup, chunks, cb);
      if text.None? || !Parse(setup.json, text.value).1 then None
      else Identified(cfg, setup, cb.requestHeaders, cb.responseHeaders)
  }

  /** All requests whose usage some callback of a run delivers. */
  function DeliveredAll(cfg: Config, setup: Setup, chunks: seq<Chunk>, cbs: seq<Callback>): set<Request>
    decreases |cbs|
  {
    if cbs == [] then {}
    else
      var rest := DeliveredAll(cfg, setup, chunks + ChunksIn(cfg, setup, cbs[0]), cbs[1..]);
      match Delivered(cfg, setup, chunks, cbs[0])
      case None => rest
      case Some(r) => {r} + rest
  }

  /** A usage record tells the facts of its request, and so does a response, once complete; a stream
      is event-stream text cut cleanly and has not been overdue. */
  ghost predicate Honest(cfg: Config, setup: Setup, facts: Facts, chunks: seq<Chunk>, cb: Callback) {
    var text, r := CompletedText(cfg, setup, chunks, cb), Delivered(cfg, setup, chunks, cb);
    && (cb.StreamChunk? && text.Some? ==> Unbroken(setup.json, chunks, ChunksIn(cfg, setup, cb)[0]))
    && (r.Some? ==>
         if cb.Usage? then FillTotal(cb.record.tokens) == FillTotal(facts(r.value).tokens)
           && cb.record.failed == facts(r.value).failed
         else text.Some? && Tells(setup.json, text.value, facts(r.value)))
  }

  ghost predicate Unbroken(j: Json, chunks: seq<Chunk>, c: Chunk) {
    !OverdueNow(j, chunks, c.key) && EventStream(j, Since(j, chunks, c.key) + [c.body])
  }

  ghost predicate AllHonest(cfg: Config, setup: Setup, facts: Facts, chunks: seq<Chunk>, cbs: seq<Callback>)
    decreases |cbs|
  {
    cbs == [] ||
    (&& Honest(cfg, setup, facts, chunks, cbs[0])
     && AllHonest(cfg, setup, facts, chunks + ChunksIn(cfg, setup, cbs[0]), cbs[1..]))
  }

  // ----- The bills of one callback -----

  predicate RecordsNothing(calls: seq<Call>) { forall i :: 0 <= i < |calls| ==> !calls[i].op.RecordUsage? }

  lemma {:induction false} NoBills(cfg: Config, sys: Sys, calls: seq<Call>)
    requires RecordsNothing(calls)
    ensures Bills(cfg, sys, calls) == []
    decreases |calls|
  {
    hide Do;
    if calls != [] {
      assert forall i :: 0 <= i < |calls[1..]| ==> calls[1..][i] == calls[i + 1];
      NoBills(cfg, Do(cfg, sys, calls[0]), calls[1..]);
    }
  }

  lemma {:induction false} BillsAppend(cfg: Config, sys: Sys, a: seq<Call>, b: seq<Call>)
    ensures Bills(cfg, sys, a + b) == Bills(cfg, sys, a) + Bills(cfg, RunCalls(cfg, sys, a), b)
    decreases |a|
  {
    hide Do, DeliveredRow, BillOf;
    if a == [] {
      assert a + b == b;
    } else {
      assert (a + b)[1..] == a[1..] + b;
      BillsAppend(cfg, Do(cfg, sys, a[0]), a[1..], b);
    }
  }

  /** A bill differs from its event only in the period. */
  predicate BillFor(b: Bill, e: UsageEvent) {
    RequestOf(b) == Request(e.requestID, e.keyHash) && b.requestID == e.requestID
      && b.charge == ChargeFor(e.failed, e.tokens)
  }

  lemma {:induction false} DeliveryBill(cfg: Config, sys: Sys, t: Call)
    requires t.op.RecordUsage?
    ensures BillFor(BillOf(DeliveredRow(cfg, sys, t)), t.op.event)
  {
    hide PeriodAt, FillTotal, Charge, Timestamp.Ts;
    var e := t.op.event;
    SameCharge(DeliveredRow(cfg, sys, t), EventRow("", "", "", "", "", "", 0, e.failed, FillTotal(e.tokens), false));
  }

  lemma {:induction false} SameCharge(a: EventRow, b: EventRow)
    requires a.tokens == b.tokens && a.failed == b.failed
    ensures Charge(a) == Charge(b)
  {
    hide Wrap64;
  }

  /** Calls that record one event ask for one bill. */
  lemma {:induction false} OneBill(cfg: Config, sys: Sys, before: seq<Call>, t: Call, rest: seq<Call>) returns (b: Bill)
    requires RecordsNothing(before) && t.op.RecordUsage? && RecordsNothing(rest)
    ensures Bills(cfg, sys, before + ([t] + rest)) == [b]
    ensures BillFor(b, t.op.event)
  {
    hide Do, FillTotal, PeriodAt, Wrap64, RecordsNothing, RunCalls;
    var s := RunCalls(cfg, sys, before);
    b := BillOf(DeliveredRow(cfg, s, t));
    DeliveryBill(cfg, s, t);
    NoBills(cfg, sys, before);
    NoBills(cfg, Do(cfg, s, t), rest);
    BillsAppend(cfg, sys, before, [t] + rest);
    assert ([t] + rest)[1..] == rest;
    assert Bills(cfg, s, [t] + rest) == [b] + Bills(cfg, Do(cfg, s, t), rest);
  }

  /** A callback delivers a request exactly when its calls ask for one identified bill, which is then for
      that request and charges the facts. */
  ghost predicate BillsTell(facts: Facts, bills: seq<Bill>, delivered: Option<Request>) {
    match delivered
    case Some(r) =>
      |bills| == 1 && bills[0].requestID != "" && RequestOf(bills[0]) == r && bills[0].charge == FactCharge(facts(r))
    case None => forall b :: b in bills ==> b.requestID == ""
  }

  lemma {:induction false} InterceptedBills(
    cfg: Config, setup: Setup, facts: Facts, sys: Sys, before: seq<Call>, requestHeaders: Headers,
    responseHeaders: Headers,
    body: string, model: string, statusCode: int, stream: bool, now: Instant)
    requires RecordsNothing(before)
    requires var r := Identified(cfg, setup, requestHeaders, responseHeaders);
             r.Some? && Parse(setup.json, body).1 ==>
               !facts(r.value).failed && CountersOf(Parse(setup.json, body).0) == FillTotal(facts(r.value).tokens)
    ensures BillsTell(facts,
                      Bills(cfg, sys,
                            before + InterceptedCalls(cfg, setup, requestHeaders, responseHeaders, body, model,
                                                      statusCode, stream, now)),
                      if Parse(setup.json, body).1
                      then Identified(cfg, setup, requestHeaders, responseHeaders) else None)
  {
    hide Parse, CountersOf, RequestID, HashKey, Trim, Extract.ExtractAPIKey, FillTotal, Charge, Do, RunCalls;
    var event := InterceptedEvent(cfg, setup, requestHeaders, responseHeaders, body, model, statusCode, stream, now);
    var observe := ObserveCalls(setup, responseHeaders, now);
    var calls := InterceptedCalls(cfg, setup, requestHeaders, responseHeaders, body, model, statusCode, stream, now);
    assert RecordsNothing(observe);
    assert RecordsNothing(before + observe);
    if event.None? {
      assert before + calls == before + observe;
      NoBills(cfg, sys, before + observe);
    } else {
      var t, prune := Call(now, RecordUsage(event.value)), Call(now, Prune(setup.retention(now)));
      assert before + calls == (before + observe) + ([t] + [prune]);
      FilledTwice(facts, requestHeaders, responseHeaders, cfg, setup);
      var b := OneBill(cfg, sys, before + observe, t, [prune]);
    }
  }

  lemma {:induction false} FilledTwice(
    facts: Facts, requestHeaders: Headers, responseHeaders: Headers, cfg: Config, setup: Setup)
    ensures var r := Identified(cfg, setup, requestHeaders, responseHeaders);
            r.Some? ==> FillTotal(FillTotal(facts(r.value).tokens)) == FillTotal(facts(r.value).tokens)
  {
    hide FillTotal, Identified;
    var r := Identified(cfg, setup, requestHeaders, responseHeaders);
    if r.Some? { FillTotalTwice(facts(r.value).tokens); }
  }

  lemma {:induction false} UsageBills(
    cfg: Config, setup: Setup, facts: Facts, sys: Sys, record: UsageRecord, now: Instant)
    requires Honest(cfg, setup, facts, [], Usage(record, now))
    ensures BillsTell(facts, Bills(cfg, sys, UsageCalls(setup, record, now) + [Call(now, Prune(setup.retention(now)))]),
                      Delivered(cfg, setup, [], Usage(record, now)))
  {
    hide RequestID, Trim, EqualFold, Charge, Do, RunCalls, FillTotal, Extract.ExtractAPIKey;
    var observe := if EqualFold(Trim(record.provider), "codex") then ObserveCalls(setup, record.responseHeaders, now)
      else [];
    var prune := Call(now, Prune(setup.retention(now)));
    var calls := UsageCalls(setup, record, now) + [prune];
    assert RecordsNothing(observe);
    if Trim(record.apiKey) == "" {
      assert calls == observe + [] + [prune];
      NoBills(cfg, sys, calls);
    } else {
      var t := Call(now, RecordUsage(FromCPA(record)));
      assert calls == observe + ([t] + [prune]);
      FillTotalTwice(record.tokens);
      var b := OneBill(cfg, sys, observe, t, [prune]);
    }
  }

  lemma {:induction false} WholeTextCounts(j: Json, text: string, fact: Fact)
    requires Tells(j, text, fact)
    ensures CountersOf(Parse(j, text).0) == FillTotal(fact.tokens)
  {
    hide Objects, IsMaximum, Parse, CountersOf, FillTotal, Reported;
    CountersAreTheHosts(j, text, fact.tokens, fact.spelling);
  }

  lemma {:induction false} ChunkBills(
    cfg: Config, setup: Setup, facts: Facts, sys: Sys, chunks: seq<Chunk>, cb: Callback)
    requires DataLinesAreNotJson(setup.json) && cb.StreamChunk? && Honest(cfg, setup, facts, chunks, cb)
    ensures BillsTell(facts, Bills(cfg, sys, CallsIn(cfg, setup, DeliverAll(setup.json, map[], chunks), cb)),
                      Delivered(cfg, setup, chunks, cb))
  {
    hide DataLinesAreNotJson, DeliverAll, Parse, CountersOf, FillTotal, Tells, Terminal, Accounted, Since, RequestID;
    hide HashKey, Trim;
    hide Extract.ExtractAPIKey, InterceptedCalls, EventStream, OverdueNow, BillsTell;
    var table := DeliverAll(setup.json, map[], chunks);
    var observe := ObserveCalls(setup, cb.responseHeaders, cb.now);
    var stream := StreamOf(cfg, setup, cb.requestHeaders, cb.responseHeaders, cb.body, cb.now);
    assert RecordsNothing(observe);
    assert stream.Some? <==> Identified(cfg, setup, cb.requestHeaders, cb.responseHeaders).Some?;
    if stream.None? {
      assert CallsIn(cfg, setup, table, cb) == observe + [];
      NothingBilled(cfg, facts, sys, observe + []);
    } else {
      var c := stream.value;
      var accounted := Accounted(setup.json, table, c);
      var text := CompletedText(cfg, setup, chunks, cb);
      assert ChunksIn(cfg, setup, cb) == [c];
      if text.None? {
        NotAccounted(setup.json, table, c);
        NothingBilled(cfg, facts, sys, observe + []);
      } else {
        StreamRefinesWholeText(setup.json, chunks, c);
        var r := Identified(cfg, setup, cb.requestHeaders, cb.responseHeaders);
        if accounted.None? {
          NothingBilled(cfg, facts, sys, observe + []);
        } else {
          WholeTextCounts(setup.json, text.value, facts(r.value));
          TellsOfSuccess(setup.json, text.value, facts(r.value));
          InterceptedBills(cfg, setup, facts, sys, observe, cb.requestHeaders, cb.responseHeaders, accounted.value,
                           cb.model, 200, true, cb.later);
        }
      }
    }
  }

  lemma {:induction false} TellsOfSuccess(j: Json, text: string, fact: Fact)
    requires Tells(j, text, fact)
    ensures !fact.failed
  {
  }

  lemma {:induction false} NotAccounted(j: Json, table: Table, c: Chunk)
    requires !Terminal(j, c.body)
    ensures Accounted(j, table, c).None?
  {
  }

  lemma {:induction false} NothingBilled(cfg: Config, facts: Facts, sys: Sys, calls: seq<Call>)
    requires RecordsNothing(calls)
    ensures BillsTell(facts, Bills(cfg, sys, calls), None)
  {
    NoBills(cfg, sys, calls);
  }

  lemma {:induction false} CallbackBills(
    cfg: Config, setup: Setup, facts: Facts, sys: Sys, chunks: seq<Chunk>, cb: Callback)
    requires DataLinesAreNotJson(setup.json) && Honest(cfg, setup, facts, chunks, cb)
    ensures BillsTell(facts, Bills(cfg, sys, CallsIn(cfg, setup, DeliverAll(setup.json, map[], chunks), cb)),
                      Delivered(cfg, setup, chunks, cb))
  {
    hide DataLinesAreNotJson, DeliverAll, Parse, CountersOf, FillTotal, Tells, Terminal, RequestID, HashKey, Trim;
    hide FactCharge;
    hide Extract.ExtractAPIKey, InterceptedCalls, UsageCalls, BillsTell, Identified, Unbroken, StreamOf;
    match cb
    case StreamChunk(_, _, _, _, _, _) => ChunkBills(cfg, setup, facts, sys, chunks, cb);
    case Response(req, res, body, model, statusCode, now) =>
      var r := Delivered(cfg, setup, chunks, cb);
      var calls := InterceptedCalls(cfg, setup, req, res, body, model, statusCode, false, now);
      if r.Some? {
        WholeTextCounts(setup.json, body, facts(r.value));
        TellsOfSuccess(setup.json, body, facts(r.value));
      }
      assert [] + calls == calls;
      InterceptedBills(cfg, setup, facts, sys, [], req, res, body, model, statusCode, false, now);
    case Usage(record, now) => UsageBills(cfg, setup, facts, sys, record, now);
    case FrontendAuth(headers, query, now) => NothingBilled(cfg, facts, sys, AuthCalls(setup, headers, query, now));
  }

  // ----- The bills of a run -----

  /** The identified bills are for the delivered requests, all of them, and charge the facts. */
  ghost predicate AllTell(facts: Facts, bills: seq<Bill>, delivered: set<Request>) {
    && (forall b :: b in bills && b.requestID != "" ==>
          RequestOf(b) in delivered && b.charge == FactCharge(facts(RequestOf(b))))
    && (forall r :: r in delivered ==> exists b :: b in bills && b.requestID != "" && RequestOf(b) == r)
  }

  lemma {:induction false} TellsMore(facts: Facts, a: seq<Bill>, r: Option<Request>, b: seq<Bill>, rest: set<Request>)
    requires BillsTell(facts, a, r) && AllTell(facts, b, rest)
    ensures AllTell(facts, a + b, if r.Some? then {r.value} + rest else rest)
  {
    hide FactCharge;
    assert forall x :: x in a + b <==> x in a || x in b;
    if r.Some? { assert a[0] in a + b; }
  }

  lemma {:induction false} RunBills(
    cfg: Config, setup: Setup, facts: Facts, sys: Sys, chunks: seq<Chunk>, cbs: seq<Callback>)
    requires DataLinesAreNotJson(setup.json) && AllHonest(cfg, setup, facts, chunks, cbs)
    ensures AllTell(facts, Bills(cfg, sys, CallsOf(cfg, setup, DeliverAll(setup.json, map[], chunks), cbs)),
                    DeliveredAll(cfg, setup, chunks, cbs))
    decreases |cbs|
  {
    hide DataLinesAreNotJson, Honest, Delivered, CallsIn, ChunksIn, DeliverAll, BillsTell, AllTell, RunCalls, Bills;
    var table := DeliverAll(setup.json, map[], chunks);
    if cbs == [] {
      NothingTold(cfg, facts, sys);
    } else {
      var cb := cbs[0];
      var first, more := CallsIn(cfg, setup, table, cb), ChunksIn(cfg, setup, cb);
      DeliverAllAppends(setup.json, map[], chunks, more);
      var rest := CallsOf(cfg, setup, DeliverAll(setup.json, table, more), cbs[1..]);
      CallbackBills(cfg, setup, facts, sys, chunks, cb);
      RunBills(cfg, setup, facts, RunCalls(cfg, sys, first), chunks + more, cbs[1..]);
      BillsAppend(cfg, sys, first, rest);
      TellsMore(facts, Bills(cfg, sys, first), Delivered(cfg, setup, chunks, cb),
                Bills(cfg, RunCalls(cfg, sys, first), rest),
                DeliveredAll(cfg, setup, chunks + more, cbs[1..]));
    }
  }

  lemma {:induction false} NothingTold(cfg: Config, facts: Facts, sys: Sys)
    ensures AllTell(facts, Bills(cfg, sys, []), {})
  {
  }

  lemma {:induction false} CallsResetNothing(cfg: Config, setup: Setup, table: Table, cbs: seq<Callback>)
    ensures LedgerRuns.NothingReset(CallsOf(cfg, setup, table, cbs))
    decreases |cbs|
  {
    hide CallsIn, DeliverAll, ChunksIn;
    if cbs != [] {
      CallbackResetsNothing(cfg, setup, table, cbs[0]);
      CallsResetNothing(cfg, setup, DeliverAll(setup.json, table, ChunksIn(cfg, setup, cbs[0])), cbs[1..]);
    }
  }

  lemma {:induction false} CallbackResetsNothing(cfg: Config, setup: Setup, table: Table, cb: Callback)
    ensures LedgerRuns.NothingReset(CallsIn(cfg, setup, table, cb))
  {
    hide StreamOf, InterceptedEvent, Accounted, FromCPA, CodexWeeklyResetAt, Extract.ExtractAPIKey, InterceptedCalls;
    hide Trim, EqualFold;
    match cb
    case StreamChunk(req, res, body, model, now, later) =>
      var stream := StreamOf(cfg, setup, req, res, body, now);
      if stream.Some? && Accounted(setup.json, table, stream.value).Some? {
        InterceptionResetsNothing(cfg, setup, req, res, Accounted(setup.json, table, stream.value).value, model, 200,
                                  true, later);
      }
    case Response(req, res, body, model, statusCode, now) =>
      InterceptionResetsNothing(cfg, setup, req, res, body, model, statusCode, false, now);
    case _ =>
  }

  lemma {:induction false} InterceptionResetsNothing(
    cfg: Config, setup: Setup, requestHeaders: Headers, responseHeaders: Headers, body: string, model: string,
    statusCode: int, stream: bool, now: Instant)
    ensures LedgerRuns.NothingReset(
              InterceptedCalls(cfg, setup, requestHeaders, responseHeaders, body, model, statusCode, stream, now))
  {
    hide InterceptedEvent, CodexWeeklyResetAt;
  }

  lemma {:induction false} KeptAreNew(known: set<Request>, facts: Facts, bills: seq<Bill>, delivered: set<Request>)
    requires AllTell(facts, bills, delivered)
    ensures Identities(known, bills) == delivered - known
  {
    hide FactCharge;
  }

  // ----- Whatever else happens in between -----

  /** The events a run asks to record. */
  function Events(run: seq<Call>): seq<UsageEvent> {
    if run == [] then [] else (if run[0].op.RecordUsage? then [run[0].op.event] else []) + Events(run[1..])
  }

  lemma {:induction false} BillsFollowEvents(cfg: Config, sys: Sys, run: seq<Call>)
    ensures |Bills(cfg, sys, run)| == |Events(run)|
    ensures forall i :: 0 <= i < |Events(run)| ==> BillFor(Bills(cfg, sys, run)[i], Events(run)[i])
    decreases |run|
  {
    hide Do, DeliveredRow, BillOf, BillFor;
    if run != [] {
      BillsFollowEvents(cfg, Do(cfg, sys, run[0]), run[1..]);
      if run[0].op.RecordUsage? { DeliveryBill(cfg, sys, run[0]); }
    }
  }

  /** Runs that ask to record the same events tell the same of each request. */
  lemma {:induction false} SameEventsTell(
    cfg: Config, facts: Facts, sys: Sys, a: seq<Call>, b: seq<Call>, delivered: set<Request>)
    requires forall e :: e in Events(a) <==> e in Events(b)
    requires AllTell(facts, Bills(cfg, sys, a), delivered)
    ensures AllTell(facts, Bills(cfg, sys, b), delivered)
  {
    hide Bills, Events, FactCharge, ChargeFor;
    BillsFollowEvents(cfg, sys, a);
    BillsFollowEvents(cfg, sys, b);
    var ba, bb, ea, eb := Bills(cfg, sys, a), Bills(cfg, sys, b), Events(a), Events(b);
    forall x | x in bb && x.requestID != ""
      ensures RequestOf(x) in delivered && x.charge == FactCharge(facts(RequestOf(x)))
    {
      var i :| 0 <= i < |bb| && bb[i] == x;
      assert eb[i] in ea;
      var k :| 0 <= k < |ea| && ea[k] == eb[i];
      assert ba[k] in ba;
    }
    forall r | r in delivered
      ensures exists x :: x in bb && x.requestID != "" && RequestOf(x) == r
    {
      var y :| y in ba && y.requestID != "" && RequestOf(y) == r;
      var k :| 0 <= k < |ba| && ba[k] == y;
      assert ea[k] in eb;
      var i :| 0 <= i < |eb| && eb[i] == ea[k];
      assert bb[i] in bb;
    }
  }

  /** The bills that make up what a run charges: every request in `delivered` once, with its facts and by
      the first delivery among all bills, and every anonymous delivery. */
  ghost predicate OnceEach(facts: Facts, once: seq<Bill>, bills: seq<Bill>, delivered: set<Request>) {
    && multiset(Requests(once)) == multiset(delivered)
    && Anonymous(once) == Anonymous(bills)
    && forall b :: b in once && b.requestID != "" ==> b.charge == FactCharge(facts(RequestOf(b))) && IsFirst(bills, b)
  }

  lemma {:induction false} KeptOnceEach(known: set<Request>, facts: Facts, bills: seq<Bill>, delivered: set<Request>)
    requires AllTell(facts, bills, delivered)
    ensures OnceEach(facts, Kept(known, bills), bills, delivered - known)
  {
    hide Kept, FactCharge, IsFirst, Requests, Anonymous, Identities;
    KeptAreNew(known, facts, bills, delivered);
    KeptOnce(known, bills);
  }

  /** The store calls of concurrent callbacks may interleave in any way, be repeated, and mix with
      authentication and key management, as long as no usage is reset: every identified request that
      the callbacks deliver and that had no row is charged exactly once, with the host's own counts, to
      the period that the first of its deliveries resolved, and nothing is charged beside it but
      anonymous deliveries, exactly when no prune deletes the row of a request that comes again. */
  lemma {:induction false} InterleavedChargesOnce(
    cfg: Config, setup: Setup, facts: Facts, sys: Sys, cbs: seq<Callback>, run: seq<Call>) returns (once: seq<Bill>)
    requires DataLinesAreNotJson(setup.json) && AllHonest(cfg, setup, facts, [], cbs)
    requires forall e :: e in Events(CallsOf(cfg, setup, map[], cbs)) <==> e in Events(run)
    requires LedgerRuns.NothingReset(run) && StoredCycle.Storable(sys.cycle) && PrintableBoundaries(run)
    ensures OnceEach(facts, once, Bills(cfg, sys, run), DeliveredAll(cfg, setup, [], cbs) - Known(sys.led.events))
    ensures PruneSafe(cfg, sys, run) <==> forall cell: Cell ::
              PeriodTotals(StoredCalls(cfg, Encoded(sys), run).led, cell.keyHash, cell.period) ==
                Plus(PeriodTotals(sys.led, cell.keyHash, cell.period), BillSum(once, cell))
  {
    hide DataLinesAreNotJson, AllHonest, StoredCycle.Storable, PrintableBoundaries, PruneSafe, CallsOf, DeliveredAll;
    hide Bills, Kept;
    hide PeriodTotals, BillSum, RunCalls, StoredCalls, Plus, Events, OnceEach, AllTell, LedgerRuns.NothingReset, Known;
    var calls, delivered, known :=
      CallsOf(cfg, setup, map[], cbs), DeliveredAll(cfg, setup, [], cbs), Known(sys.led.events);
    assert DeliverAll(setup.json, map[], []) == map[];
    RunBills(cfg, setup, facts, sys, [], cbs);
    SameEventsTell(cfg, facts, sys, calls, run, delivered);
    once := Kept(known, Bills(cfg, sys, run));
    KeptOnceEach(known, facts, Bills(cfg, sys, run), delivered);
    StoredCallsRefine(cfg, sys, run);
    ChargedOnceIffPruneSafe(cfg, sys, run);
  }

  /** What the plugin charges over a run of callbacks handled one after another, whichever path delivers
      a request first and however often. */
  lemma {:induction false} PluginChargesOnce(
    cfg: Config, setup: Setup, facts: Facts, sys: Sys, bans: seq<BanRow>, cbs: seq<Callback>) returns (once: seq<Bill>)
    requires DataLinesAreNotJson(setup.json) && AllHonest(cfg, setup, facts, [], cbs)
    requires StoredCycle.Storable(sys.cycle) && PrintableBoundaries(CallsOf(cfg, setup, map[], cbs))
    ensures OnceEach(facts, once, Bills(cfg, sys, CallsOf(cfg, setup, map[], cbs)),
                     DeliveredAll(cfg, setup, [], cbs) - Known(sys.led.events))
    ensures PruneSafe(cfg, sys, CallsOf(cfg, setup, map[], cbs)) <==> forall cell: Cell ::
              PeriodTotals(HandleAll(cfg, setup, World(Encoded(sys), map[], bans), cbs).stored.led, cell.keyHash,
                           cell.period) ==
                Plus(PeriodTotals(sys.led, cell.keyHash, cell.period), BillSum(once, cell))
  {
    hide DataLinesAreNotJson, AllHonest, StoredCycle.Storable, PrintableBoundaries, PruneSafe, CallsOf, DeliveredAll;
    hide Bills;
    hide PeriodTotals, BillSum, RunCalls, StoredCalls, Plus, Events, OnceEach, HandleAll, LedgerRuns.NothingReset;
    hide Known;
    hide ChunksOf, BansOf;
    var calls := CallsOf(cfg, setup, map[], cbs);
    CallbacksAreCalls(cfg, setup, sys, map[], bans, cbs);
    CallsResetNothing(cfg, setup, map[], cbs);
    once := InterleavedChargesOnce(cfg, setup, facts, sys, cbs, calls);
    StoredCallsRefine(cfg, sys, calls);
  }
}
