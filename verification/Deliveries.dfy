/** The two delivery paths of one request, the interceptor and the queued callback, ask for the same
    charge whenever the response reports what the host counted. */
module Deliveries {
  import opened Base
  import Text
  import opened Ledger
  import Host
  import opened Convert
  import Billing
  import Timestamp

  /** The spellings in which a response may report the host's token counts. */
  datatype Spelling = ResponsesStyle | ChatStyle | GeminiStyle

  function Reported(t: Tokens, s: Spelling): ResponseUsage {
    match s
    case ResponsesStyle =>
      ResponseUsage(t.input, 0, t.output, 0, t.total, t.cacheRead, t.cacheCreation, t.cached, 0, t.reasoning, 0)
    case ChatStyle =>
      ResponseUsage(0, t.input, 0, t.output, t.total, t.cacheRead, t.cacheCreation, 0, t.cached, 0, t.reasoning)
    case GeminiStyle => GeminiResponseUsage(GeminiUsage(t.input, t.output, t.reasoning, t.total, t.cached))
  }

  /** Gemini has no separate cache counters. */
  predicate Expressible(t: Tokens, s: Spelling) { s.GeminiStyle? ==> t.cacheRead == 0 && t.cacheCreation == 0 }

  /** In any spelling, and however the fields are spread over the objects of a body, the counters taken
      from it are the host's, with the same rule for a missing total. */
  lemma {:induction false} CountersAreTheHosts(j: Json, body: string, t: Tokens, s: Spelling)
    requires Expressible(t, s) && IsMaximum(Objects(j, body), Reported(t, s))
    ensures CountersOf(Parse(j, body).0) == FillTotal(t)
  {
    hide Objects, MergeAll, Below, Wrap64;
    MergeAllIsMaximum(Objects(j, body));
    BelowAntisymmetric(MergeAll(Objects(j, body)), Reported(t, s));
  }

  /** Both paths bill the same request, key, period and columns, so either may arrive first. */
  lemma {:induction false} PathsBillAlike(
    j: Json, body: string, headers: Host.Headers, keyHash: string, provider: string, model: string, status: int,
    stream: bool,
    intercepted: Instant, record: Host.UsageRecord, called: Instant, s: Spelling, period: string)
    requires Objects(j, body) != [] && Expressible(record.tokens, s)
    requires IsMaximum(Objects(j, body), Reported(record.tokens, s))
    requires !record.failed && Host.RequestID(headers) == Host.RequestID(record.responseHeaders)
    requires Text.Trim(record.apiKey) == Text.Trim(keyHash)
    ensures var event :=
              FromInterceptedResponse(j, body, headers, keyHash, provider, model, status, stream, intercepted);
            && event.Some?
            && Billing.BillOf(RowOf(event.value, intercepted, period)) ==
              Billing.BillOf(RowOf(FromCPA(record), called, period))
  {
    hide Objects, IsMaximum, MergeAll, Text.Trim, CountersOf, Host.RequestID, Reported, Charge, RowOf;
    CountersAreTheHosts(j, body, record.tokens, s);
    var event := FromInterceptedResponse(j, body, headers, keyHash, provider, model, status, stream, intercepted).value;
    FillTotalTwice(record.tokens);
    SameBill(event, intercepted, FromCPA(record), called, period);
  }

  lemma {:induction false} SameBill(a: UsageEvent, at: Instant, b: UsageEvent, bt: Instant, period: string)
    requires a.requestID == b.requestID && a.keyHash == b.keyHash && a.failed == b.failed
    requires FillTotal(a.tokens) == FillTotal(b.tokens)
    ensures Billing.BillOf(RowOf(a, at, period)) == Billing.BillOf(RowOf(b, bt, period))
  {
    hide FillTotal, Wrap64, Timestamp.Ts;
  }

  lemma {:induction false} FillTotalTwice(t: Tokens)
    ensures FillTotal(FillTotal(t)) == FillTotal(t)
  {
    hide Wrap64;
  }
}
