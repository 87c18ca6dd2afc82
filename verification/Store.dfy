/** The store: its tables are fields, and each call held under a mutex or run as one statement is
    one method. Every method is proved against the functions the run theorems are about. */
module Store {
  import opened Base
  import opened Text
  import opened Timestamp
  import opened Ledger
  import opened Quota
  import opened Bans
  import QuotaCycle
  import StoredCycle

  /** What a record call does, once the period is read. */
  lemma {:induction false} RecordDoes(cfg: Config, s: Stored, event: UsageEvent, clock: Instant)
    ensures var (row, period) := ReadRow(cfg, s.row, Stamp(event, clock));
            StoredDo(cfg, s, Call(clock, RecordUsage(event))) ==
              (Stored(row, if period.Ok? then Post(s.led, RowOf(event, clock, period.value)) else s.led), period)
  {
    hide ReadRow, Post, RowOf, LearnRow;
  }

  /** A row that expires later than the latest so far is the latest. */
  lemma {:induction false} LatestReplaced(
    bans: seq<BanRow>, targetKey: string, now: string, latest: BanRow, row: BanRow)
    requires IsActive(bans, targetKey, now, Some(latest)) && Matches(row, targetKey, now)
    requires Less(latest.expiresAt, row.expiresAt)
    ensures IsActive(bans + [row], targetKey, now, Some(row))
  {
    hide Less;
    LessIrreflexive(row.expiresAt);
    forall other | other in bans && Matches(other, targetKey, now)
      ensures !Less(row.expiresAt, other.expiresAt)
    {
      if Less(row.expiresAt, other.expiresAt) { LessTransitive(latest.expiresAt, row.expiresAt, other.expiresAt); }
    }
  }

  /** What looking a presented key up yields. */
  datatype Lookup = Answered(answer: AuthResult) | Counted(keyHash: string, row: KeyRow)

  class Store {
    const cfg: Config
    var keys: map<string, KeyRow>
    var events: seq<EventRow>
    var usage: map<Cell, Totals>
    var bans: seq<BanRow>
    var cycle: StoredCycle.Table

    constructor (cfg: Config)
      ensures this.cfg == cfg
      ensures State() == Stored(None, Books(map[], [], map[])) && bans == []
    {
      this.cfg := cfg;
      keys, events, usage, bans, cycle := map[], [], map[], [], None;
    }

    ghost function Led(): Books
      reads this
    {
      Books(keys, events, usage)
    }

    ghost function State(): Stored
      reads this
    {
      Stored(cycle, Led())
    }

    // ----- The quota cycle -----

    method CurrentPeriod(now: Instant) returns (r: Result<string>)
      modifies this`cycle
      ensures (cycle, r) == ReadRow(cfg, old(cycle), now)
      ensures r.Err? ==> cfg.weekly
    {
      hide Ts, ParseTs, QuotaCycle.UpstreamLabel;
      if !cfg.weekly {
        return Ok(cfg.labels(now));
      }
      if cycle.None? {
        return Ok(cfg.labels(now));
      }
      var period := cycle.value.period;
      var previousPeriod := cycle.value.previousPeriod;
      var periodStarted := cycle.value.periodStartedAt;
      if cycle.value.nextResetAt.Some? {
        var resetAt := ParseTs(cycle.value.nextResetAt.value);
        if resetAt.None? {
          return Err("parse quota reset time");
        }
        if !(now < resetAt.value) {
          previousPeriod := Some(period);
          periodStarted := Some(Ts(resetAt.value));
          period := QuotaCycle.UpstreamLabel(resetAt.value);
          cycle := Some(StoredCycle.Row(period, None, previousPeriod, periodStarted));
        }
      }
      if previousPeriod.Some? && periodStarted.Some? {
        var startedAt := ParseTs(periodStarted.value);
        if startedAt.None? {
          return Err("parse quota period start");
        }
        if now < startedAt.value {
          return Ok(previousPeriod.value);
        }
      }
      return Ok(period);
    }

    method ObserveUpstreamWeeklyReset(resetAt: Instant, now: Instant) returns (r: Result<()>)
      modifies this`cycle
      ensures State() == StoredDo(cfg, old(State()), Call(now, ObserveReset(resetAt))).0
      ensures r.Ok? <==> StoredDo(cfg, old(State()), Call(now, ObserveReset(resetAt))).1.Ok?
    {
      hide Ts, ParseTs, QuotaCycle.UpstreamLabel, Before, After, ReadRow;
      if !cfg.weekly || resetAt == ZERO_TIME || !(resetAt > now) {
        return Ok(());
      }
      if cycle.None? {
        cycle := Some(StoredCycle.Row(cfg.labels(now), Some(Ts(resetAt)), None, None));
        return Ok(());
      }
      var row := cycle.value;
      if row.nextResetAt.None? {
        cycle := Some(row.(nextResetAt := Some(Ts(resetAt))));
        return Ok(());
      }
      var previous := ParseTs(row.nextResetAt.value);
      if previous.None? {
        return Err("parse quota reset time");
      }
      if !(resetAt > previous.value) {
        return Ok(());
      }
      if !(now < previous.value) {
        cycle := Some(StoredCycle.Row(QuotaCycle.UpstreamLabel(previous.value), Some(Ts(resetAt)), Some(row.period),
                          Some(Ts(previous.value))));
        return Ok(());
      }
      cycle := Some(row.(nextResetAt := Some(Ts(resetAt))));
      return Ok(());
    }

    // ----- Usage -----

    /** `clock` is the current time, used for events without a timestamp. */
    method RecordUsage(event: UsageEvent, clock: Instant) returns (r: Result<()>)
      modifies this`cycle, this`events, this`usage
      ensures State() == StoredDo(cfg, old(State()), Call(clock, Op.RecordUsage(event))).0
      ensures r.Ok? <==> StoredDo(cfg, old(State()), Call(clock, Op.RecordUsage(event))).1.Ok?
    {
      hide Ts, ReadRow, Wrap64, StoredDo, Charge, Plus;
      RecordDoes(cfg, State(), event, clock);
      var timestamp := event.timestamp;
      if timestamp == ZERO_TIME {
        timestamp := clock;
      }
      var period := CurrentPeriod(timestamp);
      if period.Err? {
        return Err(period.error);
      }
      var t := event.tokens;
      if t.total == 0 {
        t := t.(total := Wrap64(t.input + t.output + t.reasoning + t.cacheRead + t.cacheCreation));
      }
      var row := EventRow(event.requestID, event.keyHash, Ts(timestamp), period.value, event.provider, event.model,
                          event.statusCode, event.failed, t, event.stream);
      var added := ColumnsOf(row);
      if row.requestID != "" {
        if exists i :: 0 <= i < |events| && events[i].requestID == row.requestID && events[i].keyHash == row.keyHash {
          return Ok(());
        }
      }
      events := events + [row];
      var cell := Cell(row.keyHash, row.month);
      usage := usage[cell := if cell in usage then Plus(usage[cell], added) else added];
      return Ok(());
    }

    /** The aggregate columns one event adds. */
    static method ColumnsOf(row: EventRow) returns (added: Totals)
      ensures added == Charge(row)
    {
      hide Wrap64;
      var inputTokens: int := row.tokens.input;
      var cacheReadTokens: int := row.tokens.cacheRead;
      if cacheReadTokens == 0 && row.tokens.cacheCreation == 0 {
        cacheReadTokens := row.tokens.cached;
        if inputTokens >= cacheReadTokens {
          inputTokens := Wrap64(inputTokens - cacheReadTokens);
        }
      }
      added := Totals(inputTokens, row.tokens.output, cacheReadTokens, row.tokens.cacheCreation, row.tokens.total, 1,
                      if row.failed then 1 else 0);
    }

    method PruneUsageEvents(before: Instant)
      modifies this`events
      ensures forall now: Instant :: State() == StoredDo(cfg, old(State()), Call(now, Prune(before))).0
    {
      events := PruneRows(events, Ts(before));
    }

    method ResetKeyUsage(keyHash: string, now: Instant) returns (r: Result<()>)
      modifies this`cycle, this`usage
      ensures State() == StoredDo(cfg, old(State()), Call(now, ResetUsage(keyHash))).0
      ensures r.Ok? <==> keyHash in keys && StoredDo(cfg, old(State()), Call(now, ResetUsage(keyHash))).1.Ok?
    {
      hide ReadRow, LearnRow;
      if keyHash !in keys {
        return Err("api key not found");
      }
      var period := CurrentPeriod(now);
      if period.Err? {
        return Err(period.error);
      }
      usage := usage - {Cell(keyHash, period.value)};
      return Ok(());
    }

    // ----- Keys -----

    /** The key's row, if the period decides; otherwise the answer, after registering an unknown key. */
    method LookupKey(rawKey: string) returns (found: Lookup)
      modifies this`keys
      ensures Led() == RegisterUnknown(cfg, old(Led()), rawKey)
      ensures found.Counted? <==> NeedsPeriod(cfg, old(Led()), rawKey)
      ensures match found
              case Answered(r) => forall period: string :: r == AuthAnswer(cfg, old(Led()), rawKey, period)
              case Counted(keyHash, row) => keyHash == HashKey(cfg, Trim(rawKey)) && row == keys[keyHash]
    {
      hide Trim;
      var key := Trim(rawKey);
      if key == "" {
        return Answered(AuthResult(false, "missing_key", "", "", ""));
      }
      var keyHash := HashKey(cfg, key);
      if keyHash !in keys {
        if cfg.registerUnknown {
          var status := PENDING;
          if cfg.allowUnknown {
            status := ACTIVE;
          }
          keys := keys[keyHash := KeyRow("", cfg.defaultLimit, status)];
        }
        if !cfg.allowUnknown {
          return Answered(AuthResult(false, "unknown_key", keyHash, "", PENDING));
        }
        return Answered(AuthResult(true, "ok", keyHash, "", ACTIVE));
      }
      var row := keys[keyHash];
      if row.status != ACTIVE {
        return Answered(AuthResult(false, row.status, keyHash, row.displayName, row.status));
      }
      return Counted(keyHash, row);
    }

    /** The decision on the totals of a period resolved before, for a row looked up before. */
    method DecideKey(keyHash: string, row: KeyRow, period: string) returns (r: AuthResult)
      ensures r.allowed <==> row.limit.None? || ByMetric(cfg, PeriodTotals(Led(), keyHash, period)) < row.limit.value
      ensures r.reason == (if r.allowed then "ok" else "over_quota")
      ensures (r.keyHash, r.displayName, r.status) == (keyHash, row.displayName, row.status)
    {
      var totals := PeriodUsage(keyHash, period);
      var used := ByMetric(cfg, totals);
      if row.limit.Some? && used >= row.limit.value {
        return AuthResult(false, "over_quota", keyHash, row.displayName, row.status);
      }
      return AuthResult(true, "ok", keyHash, row.displayName, row.status);
    }

    /** The three steps without another call in between. */
    method AuthenticateKey(rawKey: string, now: Instant) returns (r: Result<AuthResult>)
      modifies this`cycle, this`keys
      ensures State() == StoredDo(cfg, old(State()), Call(now, Authenticate(rawKey))).0
      ensures match StoredDo(cfg, old(State()), Call(now, Authenticate(rawKey))).1
              case Ok(period) => r == Ok(AuthAnswer(cfg, old(Led()), rawKey, period))
              case Err(_) => r.Err?
    {
      hide ReadRow, LearnRow, Trim;
      var found := LookupKey(rawKey);
      match found {
        case Answered(answer) => return Ok(answer);
        case Counted(keyHash, row) =>
          var period := CurrentPeriod(now);
          if period.Err? {
            return Err(period.error);
          }
          var answer := DecideKey(keyHash, row, period.value);
          return Ok(answer);
      }
    }

    method PeriodUsage(keyHash: string, period: string) returns (t: Totals)
      ensures t == PeriodTotals(Led(), keyHash, period)
    {
      if Cell(keyHash, period) in usage {
        return usage[Cell(keyHash, period)];
      }
      return ZERO;
    }

    method GetAPIKey(keyHash: string, period: string) returns (r: Result<KeyView>)
      ensures r == GetKey(cfg, Led(), keyHash, period)
    {
      hide Wrap64;
      if keyHash !in keys {
        return Err("sql: no rows in result set");
      }
      var row := keys[keyHash];
      var t := PeriodUsage(keyHash, period);
      var used := ByMetric(cfg, t);
      var remaining := None;
      if row.limit.Some? {
        var left: int := Wrap64(row.limit.value - used);
        if left < 0 {
          left := 0;
        }
        remaining := Some(left);
      }
      return Ok(KeyView(keyHash, row.displayName, row.limit, row.status, t.input, t.output, t.cacheRead + t.cacheWrite,
                        used, remaining));
    }

    method AddAPIKey(
      rawKey: string, displayName: string, limit: Option<int64>, status: string,
      now: Instant) returns (r: Result<KeyView>)
      modifies this`cycle, this`keys
      ensures State() == StoredDo(cfg, old(State()), Call(now, AddKey(rawKey, displayName, limit, status))).0
      ensures HashKey(cfg, rawKey) in old(keys) ==> r == Err("api key already exists")
      ensures HashKey(cfg, rawKey) !in old(keys) ==>
                match StoredDo(cfg, old(State()), Call(now, AddKey(rawKey, displayName, limit, status))).1
                case Ok(period) => r == GetKey(cfg, Led(), HashKey(cfg, rawKey), period)
                case Err(_) => r.Err?
    {
      hide ReadRow, LearnRow, Trim, GetKey;
      var keyHash := HashKey(cfg, rawKey);
      if keyHash in keys {
        return Err("api key already exists");
      }
      keys := keys[keyHash := KeyRow(displayName, limit, if status == "" then ACTIVE else status)];
      var period := CurrentPeriod(now);
      if period.Err? {
        return Err(period.error);
      }
      r := GetAPIKey(keyHash, period.value);
    }

    method UpdateAPIKey(
      keyHash: string, displayName: string, limit: Option<int64>, status: string,
      now: Instant) returns (r: Result<KeyView>)
      modifies this`cycle, this`keys
      ensures State() == StoredDo(cfg, old(State()), Call(now, UpdateKey(keyHash, displayName, limit, status))).0
      ensures match StoredDo(cfg, old(State()), Call(now, UpdateKey(keyHash, displayName, limit, status))).1
              case Ok(period) => r == GetKey(cfg, Led(), keyHash, period)
              case Err(_) => r.Err?
    {
      hide ReadRow, LearnRow, GetKey;
      if keyHash in keys {
        var row := keys[keyHash];
        keys := keys[keyHash := KeyRow(if displayName == "" then row.displayName else displayName, limit,
                                       if status == "" then row.status else status)];
      }
      var period := CurrentPeriod(now);
      if period.Err? {
        return Err(period.error);
      }
      r := GetAPIKey(keyHash, period.value);
    }

    method DeleteAPIKey(keyHash: string) returns (r: Result<()>)
      modifies this`keys
      ensures forall now: Instant :: State() == StoredDo(cfg, old(State()), Call(now, DeleteKey(keyHash))).0
      ensures r.Ok? <==> keyHash in old(keys)
    {
      if keyHash !in keys {
        return Err("api key not found");
      }
      keys := keys - {keyHash};
      return Ok(());
    }

    // ----- Route bans -----

    method AddOrExtendBan(ban: RouteBan, clock: Instant) returns (r: Result<()>)
      modifies this`bans
      ensures match AddBan(old(bans), ban, clock)
              case Ok(after) => r.Ok? && bans == after
              case Err(e) => r == Err(e) && bans == old(bans)
    {
      if ban.targetKey == "" {
        return Err("target key is required");
      }
      bans := bans + [BanRowOf(ban, clock)];
      return Ok(());
    }

    method ActiveBan(targetKey: string, now: Instant) returns (ban: Option<BanRow>)
      ensures IsActive(bans, targetKey, Ts(now), ban)
    {
      hide Ts, Less;
      ban := None;
      for i := 0 to |bans|
        invariant IsActive(bans[..i], targetKey, Ts(now), ban)
      {
        assert bans[..i + 1] == bans[..i] + [bans[i]];
        if Matches(bans[i], targetKey, Ts(now)) {
          if ban.None? {
            LessIrreflexive(bans[i].expiresAt);
            ban := Some(bans[i]);
          } else if Less(ban.value.expiresAt, bans[i].expiresAt) {
            LatestReplaced(bans[..i], targetKey, Ts(now), ban.value, bans[i]);
            ban := Some(bans[i]);
          }
        }
      }
      assert bans[..|bans|] == bans;
    }

    method UnbanRoute(targetKey: string, reason: string, now: Instant)
      modifies this`bans
      ensures |bans| == |old(bans)|
      ensures forall i :: 0 <= i < |bans| ==>
                bans[i] == if old(bans)[i].targetKey == targetKey && old(bans)[i].unbannedAt.None?
                           then old(bans)[i].(unbannedAt := Some(Ts(now)),
                                              unbanReason := if reason == "" then "manual" else reason)
                           else old(bans)[i]
      ensures bans == Unban(old(bans), targetKey, reason, now)
    {
      hide Ts;
      var unbanReason := reason;
      if unbanReason == "" {
        unbanReason := "manual";
      }
      ghost var before := bans;
      for i := 0 to |bans|
        invariant |bans| == |before|
        invariant forall k :: 0 <= k < i ==> bans[k] == Lifted(before[k], targetKey, reason, Ts(now))
        invariant forall k :: i <= k < |bans| ==> bans[k] == before[k]
      {
        if Open(bans[i], targetKey) {
          bans := bans[i := bans[i].(unbannedAt := Some(Ts(now)), unbanReason := unbanReason)];
        }
      }
    }
  }
}
