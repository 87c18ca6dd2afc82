/** Who is let in, and which limit and status are in force, over runs of calls. */
module Admission {
  import opened Base
  import opened Ledger
  import opened Quota
  import Text

  // ----- One authentication -----

  /** A presented key is let in exactly when it is not blank and either registered, active and below its
      limit, or unregistered where unknown keys are let in. A refusal says why. */
  lemma {:induction false} AllowedExactly(cfg: Config, led: Books, rawKey: string, period: string)
    ensures var key := Text.Trim(rawKey);
            var h := HashKey(cfg, key);
            var answer := AuthAnswer(cfg, led, rawKey, period);
            && (answer.allowed <==>
                 && key != ""
                 && if h !in led.keys then cfg.allowUnknown
                    else
                      && led.keys[h].status == "active"
                      && (led.keys[h].limit.None?
                            || ByMetric(cfg, PeriodTotals(led, h, period)) < led.keys[h].limit.value))
            && (!answer.allowed ==>
                 answer.reason ==
                   if key == "" then "missing_key"
                   else if h !in led.keys then "unknown_key"
                   else if led.keys[h].status != "active" then led.keys[h].status
                   else "over_quota")
            && answer.keyHash == (if key == "" then "" else h)
            && (key == "" ==> answer.displayName == answer.status == "")
            && (key != "" && h !in led.keys ==>
                 answer.displayName == "" && answer.status == if answer.allowed then "active" else "pending")
            && (key != "" && h in led.keys ==> answer.status == led.keys[h].status)
            && (key != "" && h in led.keys ==> answer.displayName == led.keys[h].displayName)
  {
    hide Text.Trim, PeriodTotals;
  }

  /** Presenting an unknown key registers it exactly where that is configured, with the default limit, and
      active only where unknown keys are let in. No other key is touched. */
  lemma {:induction false} RegistersExactly(cfg: Config, led: Books, rawKey: string, k: string)
    ensures var key, after := Text.Trim(rawKey), RegisterUnknown(cfg, led, rawKey);
            && after.events == led.events && after.usage == led.usage
            && (k in led.keys ==> k in after.keys && after.keys[k] == led.keys[k])
            && (k !in led.keys ==>
                 (k in after.keys <==> cfg.registerUnknown && key != "" && k == HashKey(cfg, key)))
            && (k !in led.keys && k in after.keys ==>
                 after.keys[k] == KeyRow("", cfg.defaultLimit, if cfg.allowUnknown then "active" else "pending"))
  {
    hide Text.Trim;
  }

  // ----- Calls on keys -----

  /** What a call makes of the row of key k. */
  lemma {:induction false} KeyAfterCall(cfg: Config, sys: Sys, t: Call, k: string)
    ensures var was, now := sys.led.keys, Do(cfg, sys, t).led.keys;
            match t.op
            case AddKey(rawKey, name, limit, status) => (
              if k !in was && k == HashKey(cfg, rawKey)
              then k in now && now[k] == KeyRow(name, limit, if status != "" then status else "active")
              else Same(was, now, k))
            case UpdateKey(h, name, limit, status) => (
              if k in was && k == h
              then && k in now && now[k].limit == limit
                   && now[k].displayName == (if name != "" then name else was[k].displayName)
                   && now[k].status == (if status != "" then status else was[k].status)
              else Same(was, now, k))
            case DeleteKey(h) => if k == h then k !in now else Same(was, now, k)
            case Authenticate(rawKey) => (
              && (k in was ==> Same(was, now, k))
              && (k !in was && k in now ==> now[k].status == "active" ==> cfg.allowUnknown))
            case _ => Same(was, now, k)
  {
    hide PeriodAt, Move, Charge, Duplicate, PruneRows, HashKey;
    if t.op.Authenticate? { RegistersExactly(cfg, sys.led, t.op.rawKey, k); }
  }

  predicate Same(was: map<string, KeyRow>, now: map<string, KeyRow>, k: string) {
    (k in was <==> k in now) && (k in was ==> was[k] == now[k])
  }

  // ----- Over runs -----

  predicate Inactive(led: Books, h: string) { h in led.keys ==> led.keys[h].status != "active" }

  /** The call asks for the key to be active. */
  predicate Activates(cfg: Config, op: Op, h: string) {
    match op
    case AddKey(rawKey, _, _, status) => HashKey(cfg, rawKey) == h && (status == "" || status == "active")
    case UpdateKey(k, _, _, status) => k == h && status == "active"
    case _ => false
  }

  ghost predicate NeverActivated(cfg: Config, run: seq<Call>, h: string) {
    forall i :: 0 <= i < |run| ==> !Activates(cfg, run[i].op, h)
  }

  lemma {:induction false} StaysInactive(cfg: Config, sys: Sys, run: seq<Call>, h: string)
    requires !cfg.allowUnknown && Inactive(sys.led, h) && NeverActivated(cfg, run, h)
    ensures Inactive(RunCalls(cfg, sys, run).led, h)
    decreases |run|
  {
    hide Do, HashKey;
    if run != [] {
      KeyAfterCall(cfg, sys, run[0], h);
      assert !Activates(cfg, run[0].op, h);
      assert forall i :: 0 <= i < |run[1..]| ==> run[1..][i] == run[i + 1];
      StaysInactive(cfg, Do(cfg, sys, run[0]), run[1..], h);
    }
  }

  /** Where unknown keys are denied, a key that no management call has made active is refused at every
      authentication of every run, however often it is presented and whatever is recorded for it. */
  lemma {:induction false} StrangersStayOut(
    cfg: Config, sys: Sys, run: seq<Call>, i: nat, rawKey: string, period: string)
    requires !cfg.allowUnknown && i < |run| && run[i].op == Authenticate(rawKey)
    requires Inactive(sys.led, HashKey(cfg, Text.Trim(rawKey)))
    requires NeverActivated(cfg, run, HashKey(cfg, Text.Trim(rawKey)))
    ensures !AuthAnswer(cfg, RunCalls(cfg, sys, run[..i]).led, rawKey, period).allowed
  {
    hide RunCalls, HashKey, AuthAnswer, Text.Trim;
    var h := HashKey(cfg, Text.Trim(rawKey));
    assert forall n :: 0 <= n < i ==> run[..i][n] == run[n];
    StaysInactive(cfg, sys, run[..i], h);
    AllowedExactly(cfg, RunCalls(cfg, sys, run[..i]).led, rawKey, period);
  }

  /** The settings last asked for in a run. */
  function LastSettings(run: seq<Call>, h: string, first: KeyRow): KeyRow {
    if run == [] then first
    else
      var before := LastSettings(run[..|run| - 1], h, first);
      match run[|run| - 1].op
      case UpdateKey(k, name, limit, status) =>
        if k != h then before
        else
          var named := if name == "" then before else before.(displayName := name);
          (if status == "" then named else named.(status := status)).(limit := limit)
      case _ => before
  }

  /** Over any run that does not delete a registered key, its limit is the one last given, and its name and
      status the last ones given that are not empty: no other call changes them. */
  lemma {:induction false} SettingsInForce(cfg: Config, sys: Sys, run: seq<Call>, h: string)
    requires h in sys.led.keys && forall i :: 0 <= i < |run| ==> run[i].op != DeleteKey(h)
    ensures var keys := RunCalls(cfg, sys, run).led.keys;
            h in keys && keys[h] == LastSettings(run, h, sys.led.keys[h])
  {
    hide Do, HashKey;
    if run != [] {
      var n := |run| - 1;
      assert run == run[..n] + [run[n]];
      assert forall i :: 0 <= i < n ==> run[..n][i] == run[i];
      SettingsInForce(cfg, sys, run[..n], h);
      RunAppends(cfg, sys, run[..n], [run[n]]);
      var before := RunCalls(cfg, sys, run[..n]);
      assert RunCalls(cfg, before, [run[n]]) == RunCalls(cfg, Do(cfg, before, run[n]), [run[n]][1..]);
      KeyAfterCall(cfg, before, run[n], h);
    }
  }

  /** Every change of a limit counts from the next authentication on: after any run that keeps the key, it
      is let in exactly when its last status is active and its usage below its last limit. */
  lemma {:induction false} LastLimitDecides(cfg: Config, sys: Sys, run: seq<Call>, rawKey: string, period: string)
    requires var h := HashKey(cfg, Text.Trim(rawKey));
             h in sys.led.keys && forall i :: 0 <= i < |run| ==> run[i].op != DeleteKey(h)
    ensures var h, led := HashKey(cfg, Text.Trim(rawKey)), RunCalls(cfg, sys, run).led;
            var row := LastSettings(run, h, sys.led.keys[h]);
            AuthAnswer(cfg, led, rawKey, period).allowed <==>
              && Text.Trim(rawKey) != "" && row.status == "active"
              && (row.limit.None? || ByMetric(cfg, PeriodTotals(led, h, period)) < row.limit.value)
  {
    hide RunCalls, LastSettings, AuthAnswer, Text.Trim, PeriodTotals, HashKey;
    SettingsInForce(cfg, sys, run, HashKey(cfg, Text.Trim(rawKey)));
    AllowedExactly(cfg, RunCalls(cfg, sys, run).led, rawKey, period);
  }
}
