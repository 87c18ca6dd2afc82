/** What the proxy host hands to the plugin: headers, usage records and scheduler candidates. */
module Host {
  import Base
  import Text
  import Ledger

  /** First header values by canonical name. A nil header map reads like an empty one. */
  type Headers = map<string, string>

  /** http.Header.Get and url.Values.Get */
  function Get(h: map<string, string>, name: string): string { if name in h then h[name] else "" }

  datatype UsageRecord = UsageRecord(
    apiKey: string, provider: string, model: string, authID: string, authType: string, requestedAt: Base.Instant,
    failed: bool, failureStatus: int, responseHeaders: Headers, tokens: Ledger.Tokens)

  datatype Candidate = Candidate(
    id: string, provider: string, priority: int, status: string, attributes: map<string, string>)

  /** The first non-blank request ID header. */
  function RequestID(h: Headers): string {
    var a, b := Text.Trim(Get(h, "X-Request-Id")), Text.Trim(Get(h, "Openai-Request-Id"));
    if a != "" then a else if b != "" then b else Text.Trim(Get(h, "Request-Id"))
  }

  /** The request ID is the first of three headers that is not blank. */
  lemma {:induction false} RequestIDOrder(h: Headers, id: string)
    requires Text.Trim(id) != ""
    ensures RequestID(h["X-Request-Id" := id]) == Text.Trim(id)
    ensures Text.Trim(Get(h, "X-Request-Id")) == "" ==> RequestID(h["Openai-Request-Id" := id]) == Text.Trim(id)
    ensures Text.Trim(Get(h, "X-Request-Id")) == Text.Trim(Get(h, "Openai-Request-Id")) == "" ==>
              RequestID(h["Request-Id" := id]) == Text.Trim(id)
    ensures RequestID(h) == "" <==>
            forall name :: name in {"X-Request-Id", "Openai-Request-Id", "Request-Id"} && name in h ==>
              Text.Trim(h[name]) == ""
  {
    hide Text.Trim;
    assert Text.Trim("") == "" by { Blank(); }
  }

  lemma {:induction false} Blank()
    ensures Text.Trim("") == ""
  {
  }
}
