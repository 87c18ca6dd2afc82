/** The ledger tables (api_keys, usage_events, monthly_usage) and what each store call does to
    them once the active period is known. */
module Ledger {
  import opened Base
  import opened Text
  import opened Timestamp

  const PENDING := "pending"
  const ACTIVE := "active"

  /** The configuration the store reads. `labels` is the configured ISO-week or month label of an
      instant and `hash` the keyed hash of a trimmed key; both are given. */
  datatype Config = Config(
    weekly: bool, outputMetric: bool, labels: Instant -> string, hash: string -> string,
    registerUnknown: bool, allowUnknown: bool, defaultLimit: Option<int64>)

  datatype KeyRow = KeyRow(displayName: string, limit: Option<int64>, status: string)

  datatype Tokens = Tokens(
    input: int64, output: int64, reasoning: int64, cached: int64, cacheRead: int64, cacheCreation: int64, total: int64)

  /** A delivery as a caller hands it to RecordUsage. */
  datatype UsageEvent = UsageEvent(
    requestID: string, keyHash: string, timestamp: Instant, provider: string, model: string,
    statusCode: int, failed: bool, tokens: Tokens, stream: bool)

  /** A row of usage_events. */
  datatype EventRow = EventRow(
    requestID: string, keyHash: string, ts: string, month: string, provider: string, model: string,
    statusCode: int, failed: bool, tokens: Tokens, stream: bool)

  datatype Cell = Cell(keyHash: string, period: string)

  /** The counter and count columns of monthly_usage. */
  datatype Totals = Totals(
    input: int, output: int, cacheRead: int, cacheWrite: int, total: int, requests: int, errors: int)

  const ZERO := Totals(0, 0, 0, 0, 0, 0, 0)

  function Plus(a: Totals, b: Totals): Totals {
    Totals(a.input + b.input, a.output + b.output, a.cacheRead + b.cacheRead, a.cacheWrite + b.cacheWrite,
           a.total + b.total, a.requests + b.requests, a.errors + b.errors)
  }

  datatype Books = Books(keys: map<string, KeyRow>, events: seq<EventRow>, usage: map<Cell, Totals>)

  /** UsageTotals.ByMetric */
  function ByMetric(cfg: Config, t: Totals): int { if cfg.outputMetric then t.output else t.total }

  function HashKey(cfg: Config, rawKey: string): string { cfg.hash(Trim(rawKey)) }

  /** PeriodTotals: a missing row reads as zero. */
  function PeriodTotals(led: Books, keyHash: string, period: string): Totals {
    if Cell(keyHash, period) in led.usage then led.usage[Cell(keyHash, period)] else ZERO
  }

  // ----- RecordUsage -----

  /** A zero timestamp means now. */
  function Stamp(event: UsageEvent, clock: Instant): Instant {
    if event.timestamp == ZERO_TIME then clock else event.timestamp
  }

  /** A zero total is filled in from the parts, in 64-bit arithmetic. */
  function FillTotal(t: Tokens): Tokens {
    if t.total == 0 then t.(total := Wrap64(t.input + t.output + t.reasoning + t.cacheRead + t.cacheCreation)) else t
  }

  function RowOf(event: UsageEvent, clock: Instant, period: string): EventRow {
    EventRow(event.requestID, event.keyHash, Ts(Stamp(event, clock)), period, event.provider, event.model,
             event.statusCode, event.failed, FillTotal(event.tokens), event.stream)
  }

  /** What one event adds to its aggregate. Without separate cache counters, cached tokens are a
      part of the input and move from the input column to the cache-read column. */
  function Charge(row: EventRow): Totals {
    var t := row.tokens;
    var folded := t.cacheRead == 0 && t.cacheCreation == 0;
    Totals(
      if folded && t.input >= t.cached then Wrap64(t.input - t.cached) else t.input,
      t.output,
      if folded then t.cached else t.cacheRead,
      t.cacheCreation, t.total, 1, if row.failed then 1 else 0)
  }

  function CellOf(row: EventRow): Cell { Cell(row.keyHash, row.month) }

  predicate Recorded(events: seq<EventRow>, requestID: string, keyHash: string) {
    exists i :: 0 <= i < |events| && events[i].requestID == requestID && events[i].keyHash == keyHash
  }

  /** A delivery whose request ID already has a row for its key is dropped. */
  predicate Duplicate(events: seq<EventRow>, row: EventRow) {
    row.requestID != "" && Recorded(events, row.requestID, row.keyHash)
  }

  function AddUsage(usage: map<Cell, Totals>, row: EventRow): map<Cell, Totals> {
    var cell := CellOf(row);
    usage[cell := if cell in usage then Plus(usage[cell], Charge(row)) else Charge(row)]
  }

  function Post(led: Books, row: EventRow): Books {
    if Duplicate(led.events, row) then led
    else led.(events := led.events + [row], usage := AddUsage(led.usage, row))
  }

  // ----- PruneUsageEvents -----

  /** DELETE FROM usage_events WHERE ts < before, comparing texts. */
  function PruneRows(events: seq<EventRow>, before: string): (r: seq<EventRow>)
    ensures forall row :: row in r <==> row in events && !Less(row.ts, before)
  {
    if events == [] then []
    else if Less(events[0].ts, before) then PruneRows(events[1..], before)
    else [events[0]] + PruneRows(events[1..], before)
  }

  /** Pruning compares texts, so it errs by less than one second either way. */
  lemma {:induction false} PruneErrsWithinOneSecond(events: seq<EventRow>, row: EventRow, t: Instant, before: Instant)
    requires row in events && row.ts == Ts(t) && Printable(t) && Printable(before)
    ensures row in PruneRows(events, Ts(before)) ==> before < t + SECOND
    ensures row !in PruneRows(events, Ts(before)) ==> t < before + SECOND
    ensures UnixSecond(t) != UnixSecond(before) ==> (row in PruneRows(events, Ts(before)) <==> before <= t)
  {
    hide Ts, Printable;
    TextDecisionsWithinOneSecond(t, before);
    if UnixSecond(t) != UnixSecond(before) { TextOrderAcrossSeconds(t, before); }
  }

  // ----- Authentication -----

  datatype AuthResult = AuthResult(allowed: bool, reason: string, keyHash: string, displayName: string, status: string)

  /** True when AuthenticateKey must know the active period: the key is registered and active. */
  predicate NeedsPeriod(cfg: Config, led: Books, rawKey: string) {
    var h := HashKey(cfg, Trim(rawKey));
    Trim(rawKey) != "" && h in led.keys && led.keys[h].status == ACTIVE
  }

  /** An unknown key may be registered, as pending or, where unknown keys are let in, active. */
  function RegisterUnknown(cfg: Config, led: Books, rawKey: string): Books {
    var h := HashKey(cfg, Trim(rawKey));
    if Trim(rawKey) != "" && h !in led.keys && cfg.registerUnknown then
      led.(keys := led.keys[h := KeyRow("", cfg.defaultLimit, if cfg.allowUnknown then ACTIVE else PENDING)])
    else led
  }

  function OverQuota(cfg: Config, led: Books, h: string, period: string): bool
    requires h in led.keys
  {
    led.keys[h].limit.Some? && ByMetric(cfg, PeriodTotals(led, h, period)) >= led.keys[h].limit.value
  }

  /** The answer of AuthenticateKey; `period` is only looked at when NeedsPeriod. */
  function AuthAnswer(cfg: Config, led: Books, rawKey: string, period: string): AuthResult {
    var h := HashKey(cfg, Trim(rawKey));
    if Trim(rawKey) == "" then AuthResult(false, "missing_key", "", "", "")
    else if h !in led.keys then
      if cfg.allowUnknown then AuthResult(true, "ok", h, "", ACTIVE)
      else AuthResult(false, "unknown_key", h, "", PENDING)
    else
      var row := led.keys[h];
      if row.status != ACTIVE then AuthResult(false, row.status, h, row.displayName, row.status)
      else if OverQuota(cfg, led, h, period) then AuthResult(false, "over_quota", h, row.displayName, row.status)
      else AuthResult(true, "ok", h, row.displayName, row.status)
  }

  // ----- Key management -----

  datatype KeyView = KeyView(
    keyHash: string, displayName: string, limit: Option<int64>, status: string,
    input: int, output: int, cached: int, used: int, remaining: Option<int>)

  /** GetAPIKey: usage of the given period; remaining never below zero. */
  function GetKey(cfg: Config, led: Books, keyHash: string, period: string): Result<KeyView> {
    if keyHash !in led.keys then Err("sql: no rows in result set")
    else
      var row := led.keys[keyHash];
      var t := PeriodTotals(led, keyHash, period);
      var used := ByMetric(cfg, t);
      Ok(KeyView(keyHash, row.displayName, row.limit, row.status, t.input, t.output, t.cacheRead + t.cacheWrite, used,
                 if row.limit.Some? then Some(Max(0, Wrap64(row.limit.value - used))) else None))
  }

  function NewKey(displayName: string, limit: Option<int64>, status: string): KeyRow {
    KeyRow(displayName, limit, if status == "" then ACTIVE else status)
  }

  /** Empty names and statuses keep the stored ones; the limit is always overwritten. */
  function ChangedKey(row: KeyRow, displayName: string, limit: Option<int64>, status: string): KeyRow {
    KeyRow(if displayName == "" then row.displayName else displayName, limit,
           if status == "" then row.status else status)
  }

  function UpdateKeys(
    keys: map<string, KeyRow>, h: string, displayName: string, limit: Option<int64>, status: string)
    : map<string, KeyRow>
  {
    if h in keys then keys[h := ChangedKey(keys[h], displayName, limit, status)] else keys
  }

  /** The view and the gate agree: while limit - used fits in 64 bits, a registered active key is shown
      nothing remaining exactly when authentication would refuse it as over quota. */
  lemma {:induction false} RemainingAgreesWithAdmission(cfg: Config, led: Books, rawKey: string, period: string)
    requires NeedsPeriod(cfg, led, rawKey)
    ensures var h := HashKey(cfg, Trim(rawKey));
            var limit, used := led.keys[h].limit, ByMetric(cfg, PeriodTotals(led, h, period));
            var view := GetKey(cfg, led, h, period).value;
            && (limit.None? ==> view.remaining.None? && AuthAnswer(cfg, led, rawKey, period).allowed)
            && (limit.Some? && -TWO_63 <= limit.value - used < TWO_63 ==>
                 && (view.remaining == Some(0) <==> AuthAnswer(cfg, led, rawKey, period).reason == "over_quota")
                 && (view.remaining != Some(0) <==> AuthAnswer(cfg, led, rawKey, period).allowed)
                 && view.remaining.value >= 0)
  {
    hide Trim, PeriodTotals;
  }

  // ----- Token conservation -----

  /** Raw input plus raw cache reads of an event. */
  function RawInput(t: Tokens): int { t.input + t.cacheRead }

  /** Cached tokens are folded into the input, but there are more of them than input, or the
      difference leaves 64 bits. */
  predicate Miscounts(t: Tokens) {
    && t.cacheRead == 0 && t.cacheCreation == 0
    && if t.input >= t.cached then t.input - t.cached >= TWO_63 else t.cached != 0
  }

  /** The input and cache-read columns together conserve raw input plus raw cache reads, for every
      event but those that Miscounts names; 0 <= cached <= input is never among them. */
  lemma {:induction false} ChargeConserves(row: EventRow)
    ensures Charge(row).input + Charge(row).cacheRead == RawInput(row.tokens) <==> !Miscounts(row.tokens)
    ensures 0 <= row.tokens.cached <= row.tokens.input ==> !Miscounts(row.tokens)
  {
    var t := row.tokens;
    if t.cacheRead == 0 && t.cacheCreation == 0 && t.input >= t.cached {
      var d := t.input - t.cached;
      if d < TWO_63 { assert Wrap64(d) == d; } else { assert Wrap64(d) == d - TWO_64; }
    }
  }

  /** Three input tokens of which five are cached are charged as eight. */
  lemma {:induction false} CachedBeyondInput(row: EventRow)
    requires row.tokens == Tokens(3, 0, 0, 5, 0, 0, 0)
    ensures RawInput(row.tokens) == 3 && Charge(row).input + Charge(row).cacheRead == 8
  {
    hide Wrap64;
  }

  /** When no total was reported, the filled-in total is the sum of all the other columns and the
      reasoning tokens: nothing is counted twice and nothing is missed. */
  lemma {:induction false} FilledTotalCoversColumns(event: UsageEvent, clock: Instant, period: string)
    requires event.tokens.total == 0 && !Miscounts(event.tokens)
    requires var t := event.tokens; -TWO_63 <= t.input + t.output + t.reasoning + t.cacheRead + t.cacheCreation < TWO_63
    ensures var c := Charge(RowOf(event, clock, period));
            c.total == c.input + c.cacheRead + c.cacheWrite + c.output + event.tokens.reasoning
  {
    hide Ts, Wrap64;
    var row := RowOf(event, clock, period);
    ChargeConserves(row);
  }

  /** A reported total stays; a missing one is the sum of the parts while that fits. Nothing else changes. */
  lemma {:induction false} TotalFilledOnlyIfMissing(t: Tokens)
    ensures t.total != 0 ==> FillTotal(t) == t
    ensures var sum := t.input + t.output + t.reasoning + t.cacheRead + t.cacheCreation;
            t.total == 0 && -TWO_63 <= sum < TWO_63 ==> FillTotal(t) == t.(total := sum)
    ensures FillTotal(t).(total := 0) == t.(total := 0)
  {
  }
}
