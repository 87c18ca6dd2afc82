/** The plugin runtime: the host callbacks as methods over the store, the bans and the stream table. */
module Runtime {
  import opened Base
  import opened Text
  import Timestamp
  import opened Ledger
  import opened Quota
  import opened Bans
  import opened Host
  import opened Convert
  import opened Streams
  import opened RouteHealth
  import opened Scheduler
  import opened Callbacks
  import Extract
  import S = Store

  class Runtime {
    const setup: Setup
    const store: S.Store
    var streamUsage: Table

    constructor (setup: Setup, store: S.Store)
      ensures this.setup == setup && this.store == store && streamUsage == map[]
    {
      this.setup, this.store, streamUsage := setup, store, map[];
    }

    ghost function World(): World
      reads this, store
    {
      Callbacks.World(store.State(), streamUsage, store.bans)
    }

    method Observe(h: Headers, now: Instant) returns (r: Result<()>)
      modifies store`cycle
      ensures (store.State(), r.Ok?) == Try(store.cfg, old(store.State()), ObserveCalls(setup, h, now))
    {
      hide StoredDo;
      var resetAt := CodexWeeklyResetAt(setup.formats, h);
      if resetAt.None? {
        return Ok(());
      }
      TryOne(store.cfg, store.State(), Call(now, ObserveReset(resetAt.value)));
      r := store.ObserveUpstreamWeeklyReset(resetAt.value, now);
    }

    method RecordInterceptedUsage(
      requestHeaders: Headers, responseHeaders: Headers, body: string, model: string, statusCode: int, stream: bool,
      now: Instant)
      returns (r: Result<()>)
      modifies store`cycle, store`events, store`usage
      ensures (store.State(), r.Ok?) ==
                Try(store.cfg, old(store.State()),
                    InterceptedCalls(store.cfg, setup, requestHeaders, responseHeaders, body, model, statusCode, stream,
                                     now))
    {
      hide StoredDo, FromInterceptedResponse, RequestID, Extract.ExtractAPIKey, ParseResetAt, HashKey, Trim;
      ghost var event :=
        InterceptedEvent(store.cfg, setup, requestHeaders, responseHeaders, body, model, statusCode, stream, now);
      ghost var rest := if event.None? then []
        else [Call(now, RecordUsage(event.value)), Call(now, Prune(setup.retention(now)))];
      TrySplits(store.cfg, store.State(), ObserveCalls(setup, responseHeaders, now), rest);
      var provider := "";
      BlankResetIgnored(setup, responseHeaders, now);
      if Trim(Get(responseHeaders, SECONDARY_RESET)) != "" {
        provider := "codex";
        r := Observe(responseHeaders, now);
        if r.Err? {
          return;
        }
      }
      if RequestID(responseHeaders) == "" {
        return Ok(());
      }
      var extracted := Extract.ExtractAPIKey(requestHeaders, map[], setup.sources);
      if extracted.None? {
        return Ok(());
      }
      var usage := FromInterceptedResponse(
        setup.json, body, responseHeaders, HashKey(store.cfg, extracted.value.key), provider, model, statusCode, stream,
        now);
      if usage.None? {
        return Ok(());
      }
      r := RecordAndPrune(usage.value, now);
    }

    /** The two store calls that follow one another wherever usage is recorded by interception. */
    method RecordAndPrune(event: UsageEvent, now: Instant) returns (r: Result<()>)
      modifies store`cycle, store`events, store`usage
      ensures (store.State(), r.Ok?) ==
                Try(store.cfg, old(store.State()),
                    [Call(now, RecordUsage(event)), Call(now, Prune(setup.retention(now)))])
    {
      hide StoredDo;
      var a, b := Call(now, RecordUsage(event)), Call(now, Prune(setup.retention(now)));
      TrySplits(store.cfg, store.State(), [a], [b]);
      assert [a, b] == [a] + [b];
      TryOne(store.cfg, store.State(), a);
      r := store.RecordUsage(event, now);
      if r.Err? {
        return;
      }
      TryOne(store.cfg, store.State(), b);
      PruneNeverFails(store.cfg, store.State(), now, setup.retention(now));
      store.PruneUsageEvents(setup.retention(now));
    }

    /** interceptStreamChunk; `later` is the clock when the finished stream is recorded. */
    method InterceptStreamChunk(
      requestHeaders: Headers, responseHeaders: Headers, body: string, model: string, now: Instant, later: Instant)
      returns (r: Result<()>)
      modifies this`streamUsage, store`cycle, store`events, store`usage
      ensures World() ==
                Handle(store.cfg, setup, old(World()),
                       StreamChunk(requestHeaders, responseHeaders, body, model, now, later))
      ensures r.Ok? <==>
              Try(store.cfg, old(store.State()),
                  StreamCalls(store.cfg, setup, old(streamUsage), requestHeaders, responseHeaders, body, model, now,
                              later)).1
    {
      hide StoredDo, RequestID, Extract.ExtractAPIKey, ParseResetAt, HashKey, Objects, Terminal, InterceptedCalls;
      hide ObserveCalls;
      ghost var stream := StreamOf(store.cfg, setup, requestHeaders, responseHeaders, body, now);
      ghost var observe := ObserveCalls(setup, responseHeaders, now);
      ghost var rest :=
        AccountedCalls(store.cfg, setup, streamUsage, requestHeaders, responseHeaders, body, model, now, later);
      TrySplits(store.cfg, store.State(), observe, rest);
      r := Observe(responseHeaders, now);
      if r.Err? {
        return;
      }
      var requestID := RequestID(responseHeaders);
      var extracted := Extract.ExtractAPIKey(requestHeaders, map[], setup.sources);
      if requestID == "" || extracted.None? {
        return Ok(());
      }
      var stateKey := StateKey(requestID, HashKey(store.cfg, extracted.value.key));
      var usage, hasUsage := ParseResponseUsage(setup.json, body);
      var terminal := HasTerminalStreamUsage(setup.json, body);
      var chunks := UpdateStream(stateKey, body, hasUsage, terminal, now);
      if !terminal {
        return Ok(());
      }
      if |chunks| == 0 {
        return Ok(());
      }
      r := RecordInterceptedUsage(requestHeaders, responseHeaders, JoinLines(chunks), model, 200, true, later);
    }

    /** The region held under the stream mutex: evict, extend, and drop the stream when it ends. */
    method UpdateStream(
      stateKey: string, body: string, hasUsage: bool, terminal: bool, now: Instant) returns (chunks: seq<string>)
      requires hasUsage == Carries(setup.json, Chunk(stateKey, body, now)) && terminal == Terminal(setup.json, body)
      modifies this`streamUsage
      ensures streamUsage == Deliver(setup.json, old(streamUsage), Chunk(stateKey, body, now))
      ensures chunks == KeptWith(setup.json, old(streamUsage), Chunk(stateKey, body, now))
    {
      hide Carries, Terminal;
      ghost var c := Chunk(stateKey, body, now);
      ghost var before := streamUsage;
      var todo := streamUsage.Keys;
      while todo != {}
        invariant todo <= before.Keys
        invariant streamUsage == map k | k in before && (k in todo || Survives(before, k, c)) :: before[k]
        decreases todo
      {
        var key :| key in todo;
        if key != stateKey && now - streamUsage[key].updatedAt > TTL {
          streamUsage := streamUsage - {key};
        }
        todo := todo - {key};
      }
      assert streamUsage == Evict(before, c);
      var known := stateKey in streamUsage;
      assert known <==> stateKey in before;
      chunks := if known then streamUsage[stateKey].chunks else [];
      if hasUsage {
        chunks := chunks + [body];
      }
      assert chunks == KeptWith(setup.json, before, c);
      if known || hasUsage {
        streamUsage := streamUsage[stateKey := StreamState(chunks, now)];
      }
      if terminal {
        streamUsage := streamUsage - {stateKey};
      }
    }

    /** interceptResponse */
    method InterceptResponse(
      requestHeaders: Headers, responseHeaders: Headers, body: string, model: string, statusCode: int, now: Instant)
      returns (r: Result<()>)
      modifies store`cycle, store`events, store`usage
      ensures World() ==
                Handle(store.cfg, setup, old(World()),
                       Response(requestHeaders, responseHeaders, body, model, statusCode, now))
      ensures r.Ok? <==>
              Try(store.cfg, old(store.State()),
                  InterceptedCalls(store.cfg, setup, requestHeaders, responseHeaders, body, model, statusCode, false,
                                   now)).1
    {
      hide Try, InterceptedCalls;
      r := RecordInterceptedUsage(requestHeaders, responseHeaders, body, model, statusCode, false, now);
    }

    /** The decision on the key the request presents; requests for the model list ask for none. */
    method AuthenticateRequest(
      headers: Headers, query: map<string, string>, now: Instant) returns (r: Result<AuthResult>)
      modifies store`cycle, store`keys
      ensures World() == Handle(store.cfg, setup, old(World()), FrontendAuth(headers, query, now))
      ensures match Extract.ExtractAPIKey(headers, query, setup.sources)
              case None => r == Ok(AuthResult(false, "missing_key", "", "", ""))
              case Some(e) =>
                match StoredDo(store.cfg, old(store.State()), Call(now, Authenticate(e.key))).1
                case Ok(period) => r == Ok(AuthAnswer(store.cfg, old(store.State()).led, e.key, period))
                case Err(_) => r.Err?
    {
      hide StoredDo, Extract.ExtractAPIKey, AuthAnswer;
      var extracted := Extract.ExtractAPIKey(headers, query, setup.sources);
      if extracted.None? {
        return Ok(AuthResult(false, "missing_key", "", "", ""));
      }
      TryOne(store.cfg, store.State(), Call(now, Authenticate(extracted.value.key)));
      r := store.AuthenticateKey(extracted.value.key, now);
    }

    method HandleUsage(record: UsageRecord, now: Instant) returns (r: Result<()>)
      modifies store`cycle, store`events, store`usage, store`bans
      ensures World() == Handle(store.cfg, setup, old(World()), Usage(record, now))
      ensures r.Ok? <==> Try(store.cfg, old(store.State()), UsageCalls(setup, record, now)).1
    {
      hide StoredDo, EqualFold, Trim, FromCPA, IsObservation, ObserveCalls, TargetKey;
      ghost var s := store.State();
      var codex := EqualFold(Trim(record.provider), "codex");
      ghost var observe := if codex then ObserveCalls(setup, record.responseHeaders, now) else [];
      ghost var recorded := if Trim(record.apiKey) != "" then [Call(now, RecordUsage(FromCPA(record)))] else [];
      ghost var prune := Call(now, Prune(setup.retention(now)));
      TrySplits(store.cfg, s, observe, recorded);
      TrySplits(store.cfg, s, observe + recorded, [prune]);
      r := Ok(());
      if codex {
        r := Observe(record.responseHeaders, now);
        if r.Err? {
          return;
        }
      }
      if Trim(record.apiKey) != "" {
        TryOne(store.cfg, store.State(), recorded[0]);
        r := store.RecordUsage(FromCPA(record), now);
        if r.Err? {
          return;
        }
      }
      var ban := ObservationFromUsage(setup.formats, setup.health, record, now);
      ObservationIsUnique(setup.formats, setup.health, record, now, ban);
      OneBan(store.bans, setup, record, now);
      if ban.Some? {
        ObservedTarget(setup.formats, setup.health, record, now, ban.value);
        r := store.AddOrExtendBan(ban.value, now);
      }
      TryOne(store.cfg, store.State(), prune);
      store.PruneUsageEvents(setup.retention(now));
    }

    method Pick(candidates: seq<Candidate>, model: string, now: Instant) returns (answer: Option<string>)
      ensures IsPick(store.bans, candidates, model, Timestamp.Ts(now), answer)
    {
      hide ActiveRow, IsActive, Timestamp.Ts, StatusUsable, CandidateTargetKey, Ahead, SortStable, Sorted;
      if |candidates| == 0 {
        return None;
      }
      var sorted := SortStable(candidates);
      SortStableSorts(candidates);
      SameElements(sorted, candidates);
      for i := 0 to |sorted|
        invariant forall j :: 0 <= j < i ==> !Eligible(store.bans, model, Timestamp.Ts(now), sorted[j])
      {
        var candidate := sorted[i];
        if StatusUsable(candidate.status) {
          var targetKey := CandidateTargetKey(candidate, model);
          var ban := store.ActiveBan(targetKey, now);
          ActiveAnswers(store.bans, targetKey, Timestamp.Ts(now), ban);
          if ban.None? {
            FirstEligibleLeads(store.bans, model, Timestamp.Ts(now), sorted, i);
            return Some(candidate.id);
          }
        }
      }
      return None;
    }
  }

  lemma {:induction false} OneBan(bans: seq<BanRow>, setup: Setup, record: UsageRecord, now: Instant)
    ensures RunBans(bans, BansIn(setup, Usage(record, now))) ==
              match Observation(setup.formats, setup.health, record, now)
              case None => bans
              case Some(ban) => ApplyBan(bans, TimedBanOp(now, Add(ban)))
  {
    hide Observation, ApplyBan;
    match Observation(setup.formats, setup.health, record, now)
    case None =>
    case Some(ban) =>
      var t := TimedBanOp(now, Add(ban));
      assert RunBans(bans, [t]) == RunBans(ApplyBan(bans, t), [t][1..]);
  }

  lemma {:induction false} ObservedTarget(
    f: Formats, health: HealthConfig, record: UsageRecord, now: Instant, ban: RouteBan)
    requires IsObservation(f, health, record, now, Some(ban))
    ensures ban.targetKey != ""
  {
    hide Trim, Lower;
    assert |ban.targetKey| > 0;
  }

  lemma {:induction false} BlankResetIgnored(setup: Setup, h: Headers, now: Instant)
    ensures Trim(Get(h, SECONDARY_RESET)) == "" ==> ObserveCalls(setup, h, now) == []
  {
    hide Trim;
  }
}
