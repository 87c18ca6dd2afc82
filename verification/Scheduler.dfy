/** Picking an upstream candidate around active bans. */
module Scheduler {
  import opened Base
  import opened Text
  import Timestamp
  import opened Bans
  import opened Host
  import opened RouteHealth

  predicate StatusUsable(status: string) {
    var s := Lower(Trim(status));
    s == "" || s == "active" || s == "ok" || s == "available" || s == "ready"
  }

  /** Higher priority first, then smaller ID. */
  predicate Ahead(a: Candidate, b: Candidate) {
    a.priority > b.priority || (a.priority == b.priority && Less(a.id, b.id))
  }

  /** sort.SliceStable on candidates. */
  function SortStable(cs: seq<Candidate>): seq<Candidate> {
    if cs == [] then [] else Insert(SortStable(cs[..|cs| - 1]), cs[|cs| - 1])
  }

  /** Places a candidate behind all that it is not ahead of. */
  function Insert(sorted: seq<Candidate>, c: Candidate): seq<Candidate> {
    if sorted == [] then [c]
    else if Ahead(c, sorted[|sorted| - 1]) then Insert(sorted[..|sorted| - 1], c) + [sorted[|sorted| - 1]]
    else sorted + [c]
  }

  ghost predicate Sorted(cs: seq<Candidate>) {
    forall i, j :: 0 <= i < j < |cs| ==> !Ahead(cs[j], cs[i])
  }

  lemma {:induction false} AheadOrder(a: Candidate, b: Candidate, c: Candidate)
    ensures !Ahead(a, a)
    ensures Ahead(a, b) ==> !Ahead(b, a)
    ensures Ahead(a, b) && !Ahead(c, b) ==> !Ahead(c, a)
    ensures !Ahead(a, b) && !Ahead(b, a) ==> a.priority == b.priority && a.id == b.id
  {
    LessIrreflexive(a.id);
    if Less(a.id, b.id) { LessAsymmetric(a.id, b.id); }
    LessTotal(a.id, b.id);
    if Less(c.id, a.id) && Less(a.id, b.id) { LessTransitive(c.id, a.id, b.id); }
  }

  lemma {:induction false} InsertKeepsElements(sorted: seq<Candidate>, c: Candidate)
    ensures multiset(Insert(sorted, c)) == multiset(sorted) + multiset{c}
  {
    hide Ahead;
    if sorted != [] {
      var n := |sorted| - 1;
      assert sorted == sorted[..n] + [sorted[n]];
      InsertKeepsElements(sorted[..n], c);
    }
  }

  lemma {:induction false} InsertSorted(sorted: seq<Candidate>, c: Candidate)
    requires Sorted(sorted)
    ensures Sorted(Insert(sorted, c))
  {
    hide Ahead;
    if sorted != [] {
      var n := |sorted| - 1;
      var init, last := sorted[..n], sorted[n];
      if Ahead(c, last) {
        InsertSorted(init, c);
        InsertKeepsElements(init, c);
        LastStaysLast(init, last, c);
      } else {
        forall i | 0 <= i < |sorted|
          ensures !Ahead(c, sorted[i])
        {
          if i < n && Ahead(c, sorted[i]) { AheadChain(c, sorted[i], last); }
        }
      }
    }
  }

  /** A last element that c is ahead of is behind everything c was inserted among. */
  lemma {:induction false} LastStaysLast(init: seq<Candidate>, last: Candidate, c: Candidate)
    requires Ahead(c, last) && multiset(Insert(init, c)) == multiset(init) + multiset{c}
    requires forall i :: 0 <= i < |init| ==> !Ahead(last, init[i])
    ensures forall i :: 0 <= i < |Insert(init, c)| ==> !Ahead(last, Insert(init, c)[i])
  {
    hide Ahead, Insert;
    AheadOrder(c, last, last);
    var r := Insert(init, c);
    forall i | 0 <= i < |r|
      ensures !Ahead(last, r[i])
    {
      assert r[i] in multiset(r);
      if r[i] != c { assert r[i] in multiset(init); }
    }
  }

  /** If c is ahead of a, and b is not ahead of a, then c is ahead of b. */
  lemma {:induction false} AheadChain(c: Candidate, a: Candidate, b: Candidate)
    requires Ahead(c, a) && !Ahead(b, a)
    ensures Ahead(c, b)
  {
    LessTotal(b.id, a.id);
    if Less(c.id, a.id) && Less(a.id, b.id) { LessTransitive(c.id, a.id, b.id); }
  }

  /** Priorities fall, and among equal ones the IDs do not fall. */
  ghost predicate ByPriorityThenID(cs: seq<Candidate>) {
    forall i, j :: 0 <= i < j < |cs| ==>
      cs[i].priority > cs[j].priority || (cs[i].priority == cs[j].priority && !Less(cs[j].id, cs[i].id))
  }

  lemma {:induction false} SortStableSorts(cs: seq<Candidate>)
    ensures Sorted(SortStable(cs)) && ByPriorityThenID(SortStable(cs)) && multiset(SortStable(cs)) == multiset(cs)
  {
    if cs != [] {
      var n := |cs| - 1;
      assert cs == cs[..n] + [cs[n]];
      SortStableSorts(cs[..n]);
      InsertSorted(SortStable(cs[..n]), cs[n]);
      InsertKeepsElements(SortStable(cs[..n]), cs[n]);
    }
  }

  /** Usable status and no active ban for the requested model. */
  predicate Eligible(bans: seq<BanRow>, model: string, now: string, c: Candidate) {
    StatusUsable(c.status) && ActiveRow(bans, CandidateTargetKey(c, model), now).None?
  }

  /** The answer names an eligible candidate that no other eligible one is ahead of; it is unhandled
      exactly when none is eligible. */
  ghost predicate IsPick(
    bans: seq<BanRow>, candidates: seq<Candidate>, model: string, now: string, answer: Option<string>)
  {
    match answer
    case None => forall c :: c in candidates ==> !Eligible(bans, model, now, c)
    case Some(id) =>
      exists c :: c in candidates && Eligible(bans, model, now, c) && c.id == id
        && forall d :: d in candidates && Eligible(bans, model, now, d) ==> !Ahead(d, c)
  }

  lemma {:induction false} SameElements<T>(a: seq<T>, b: seq<T>)
    requires multiset(a) == multiset(b)
    ensures forall x :: x in a <==> x in b
  {
    assert forall x :: x in a <==> x in multiset(a);
    assert forall x :: x in b <==> x in multiset(b);
  }

  lemma {:induction false} FirstEligibleLeads(
    bans: seq<BanRow>, model: string, now: string, sorted: seq<Candidate>, i: nat)
    requires i < |sorted| && Sorted(sorted) && Eligible(bans, model, now, sorted[i])
    requires forall j :: 0 <= j < i ==> !Eligible(bans, model, now, sorted[j])
    ensures forall d :: d in sorted && Eligible(bans, model, now, d) ==> !Ahead(d, sorted[i])
  {
    hide Ahead, Eligible;
    forall d | d in sorted && Eligible(bans, model, now, d)
      ensures !Ahead(d, sorted[i])
    {
      var k :| 0 <= k < |sorted| && sorted[k] == d;
      AheadOrder(d, d, d);
    }
  }

  /** The answer depends only on which candidates there are, not on their order or repetition. */
  lemma {:induction false} PickIgnoresOrder(
    bans: seq<BanRow>, a: seq<Candidate>, b: seq<Candidate>, model: string, now: string, x: Option<string>,
    y: Option<string>)
    requires forall c :: c in a <==> c in b
    requires IsPick(bans, a, model, now, x) && IsPick(bans, b, model, now, y)
    ensures x == y
  {
    hide Ahead, Eligible;
    if x.Some? && y.Some? {
      var c :| c in a && Eligible(bans, model, now, c) && c.id == x.value
        && forall d :: d in a && Eligible(bans, model, now, d) ==> !Ahead(d, c);
      var e :| e in b && Eligible(bans, model, now, e) && e.id == y.value
        && forall d :: d in b && Eligible(bans, model, now, d) ==> !Ahead(d, e);
      AheadOrder(c, e, c);
    }
  }

  lemma {:induction false} SharesTarget(record: UsageRecord, c: Candidate, model: string)
    requires Trim(record.authID) != "" && Trim(model) == Trim(record.model)
    ensures Trim(c.id) == Trim(record.authID) ==>
              CandidateTargetKey(c, model) == TargetKey(record.provider, record.model, record.authID, record.authType)
  {
    hide Trim, Lower;
  }

  /** From a failed record to the scheduler: once the record has banned its auth ID for its model, no
      pick for that model in a whole second before the expiry's returns that ID, through any later
      bans and any lifting of other targets. */
  lemma {:induction false} BannedAuthIsNotPicked(
    f: Formats, cfg: HealthConfig, record: UsageRecord, banned: Instant, ban: RouteBan,
    before: seq<BanRow>, run: seq<TimedBanOp>,
    candidates: seq<Candidate>, model: string, now: Instant, answer: Option<string>)
    requires IsObservation(f, cfg, record, banned, Some(ban))
    requires Trim(record.authID) != "" && Trim(model) == Trim(record.model)
    requires forall i :: 0 <= i < |run| && run[i].op.Lift? ==> run[i].op.targetKey != ban.targetKey
    requires Timestamp.Printable(now) && Timestamp.Printable(ban.expiresAt)
    requires UnixSecond(now) < UnixSecond(ban.expiresAt)
    requires var added := AddBan(before, ban, banned);
             added.Ok? ==> IsPick(RunBans(added.value, run), candidates, model, Timestamp.Ts(now), answer)
    ensures AddBan(before, ban, banned).Ok?
    ensures answer.Some? ==> Trim(answer.value) != Trim(record.authID)
  {
    hide Timestamp.Ts, Timestamp.Printable, StatusUsable, Trim, Wanted, Clamped, RuleMatches;
    assert ban.targetKey == AuthKey(Trim(record.authID), Trim(record.model));
    var row := BanRowOf(ban, banned);
    var bans := RunBans(before + [row], run);
    assert row in before + [row];
    OpenRowStays(before + [row], row, run);
    OpenBanHolds(bans, row, ban.targetKey, ban.expiresAt, now);
    if answer.Some? {
      var c :| c in candidates && Eligible(bans, model, Timestamp.Ts(now), c) && c.id == answer.value;
      SharesTarget(record, c, model);
    }
  }

  /** The status and the open bans of a candidate let it be picked. */
  ghost predicate Usable(bans: seq<BanRow>, model: string, now: string, c: Candidate) {
    && Lower(Trim(c.status)) in {"", "active", "ok", "available", "ready"}
    && forall row :: row in bans && row.targetKey == CandidateTargetKey(c, model) && row.unbannedAt.None? ==>
         !Less(now, row.expiresAt)
  }

  /** A pick names a usable candidate such that no usable one has a higher priority, or an equal one and a
      smaller ID; nothing is picked exactly when no candidate is usable. */
  lemma {:induction false} PickIsBest(
    bans: seq<BanRow>, candidates: seq<Candidate>, model: string, now: string, answer: Option<string>)
    requires IsPick(bans, candidates, model, now, answer)
    ensures answer.Some? <==> exists c :: c in candidates && Usable(bans, model, now, c)
    ensures answer.Some? ==>
              exists c :: (
                && c in candidates && Usable(bans, model, now, c) && c.id == answer.value
                && forall d :: d in candidates && Usable(bans, model, now, d) ==>
                     d.priority < c.priority || (d.priority == c.priority && !Less(d.id, c.id)))
  {
    hide ActiveRow, CandidateTargetKey, Less, Lower, Trim;
    forall c {
      UsableIsEligible(bans, model, now, c);
    }
    if answer.Some? {
      var c :| c in candidates && Eligible(bans, model, now, c) && c.id == answer.value
        && forall d :: d in candidates && Eligible(bans, model, now, d) ==> !Ahead(d, c);
      assert Usable(bans, model, now, c);
    }
  }

  lemma {:induction false} UsableIsEligible(bans: seq<BanRow>, model: string, now: string, c: Candidate)
    ensures Usable(bans, model, now, c) <==> Eligible(bans, model, now, c)
  {
    hide ActiveRow, CandidateTargetKey, Less, Lower, Trim;
  }

  /** A candidate without an ID stands for its provider and type: it is banned with a failed record of the
      same provider, model and type, written in any case and with any white space around. */
  lemma {:induction false} SharesProviderTarget(record: UsageRecord, c: Candidate, model: string)
    requires Trim(record.authID) == "" && Trim(c.id) == "" && Trim(model) == Trim(record.model)
    requires Lower(Trim(c.provider)) == Lower(Trim(record.provider))
    requires var t := if "auth_type" in c.attributes && c.attributes["auth_type"] != "" then "auth_type" else "type";
             t in c.attributes && Lower(Trim(c.attributes[t])) == Lower(Trim(record.authType))
    ensures CandidateTargetKey(c, model) == TargetKey(record.provider, record.model, record.authID, record.authType)
  {
    hide Trim, Lower;
  }
}
