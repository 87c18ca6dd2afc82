/** The route_bans table: times are text, and an active ban is found by comparing texts. */
module Bans {
  import opened Base
  import opened Text
  import opened Timestamp

  datatype RouteBan = RouteBan(
    targetKey: string, provider: string, model: string, authID: string, authType: string, reason: string,
    statusCode: int, bannedAt: Instant, expiresAt: Instant, sourceRequestID: string)

  datatype BanRow = BanRow(
    targetKey: string, provider: string, model: string, authID: string, authType: string, reason: string,
    statusCode: int, bannedAt: string, expiresAt: string, sourceRequestID: string,
    unbannedAt: Option<string>, unbanReason: string)

  function BanRowOf(ban: RouteBan, clock: Instant): BanRow {
    BanRow(ban.targetKey, ban.provider, ban.model, ban.authID, ban.authType, ban.reason, ban.statusCode,
           Ts(if ban.bannedAt == ZERO_TIME then clock else ban.bannedAt), Ts(ban.expiresAt), ban.sourceRequestID, None,
           "")
  }

  predicate Open(row: BanRow, targetKey: string) { row.targetKey == targetKey && row.unbannedAt.None? }

  /** target_key = ? AND unbanned_at IS NULL AND expires_at > ? */
  predicate Matches(row: BanRow, targetKey: string, now: string) {
    Open(row, targetKey) && Less(now, row.expiresAt)
  }

  /** The matching row with the greatest expiry text. */
  function ActiveRow(bans: seq<BanRow>, targetKey: string, now: string): (r: Option<BanRow>)
    ensures r.Some? ==> r.value in bans && Matches(r.value, targetKey, now)
    ensures r.Some? <==> exists row :: row in bans && Matches(row, targetKey, now)
  {
    if bans == [] then None
    else
      var rest := ActiveRow(bans[1..], targetKey, now);
      assert forall row :: row in bans <==> row == bans[0] || row in bans[1..];
      if !Matches(bans[0], targetKey, now) then rest
      else if rest.Some? && Less(bans[0].expiresAt, rest.value.expiresAt) then rest
      else Some(bans[0])
  }

  /** By text no matching row expires later than the one found. */
  lemma {:induction false} ActiveRowIsLatest(bans: seq<BanRow>, targetKey: string, now: string, row: BanRow)
    requires row in bans && Matches(row, targetKey, now)
    ensures !Less(ActiveRow(bans, targetKey, now).value.expiresAt, row.expiresAt)
  {
    var rest := ActiveRow(bans[1..], targetKey, now);
    LessIrreflexive(row.expiresAt);
    if row in bans[1..] {
      ActiveRowIsLatest(bans[1..], targetKey, now, row);
      var e := rest.value.expiresAt;
      if Matches(bans[0], targetKey, now) && !Less(bans[0].expiresAt, e) && Less(bans[0].expiresAt, row.expiresAt) {
        LessTotal(bans[0].expiresAt, e);
        if Less(e, bans[0].expiresAt) { LessTransitive(e, bans[0].expiresAt, row.expiresAt); }
      }
    } else if Matches(bans[0], targetKey, now) && rest.Some? && Less(bans[0].expiresAt, rest.value.expiresAt) {
      LessAsymmetric(bans[0].expiresAt, rest.value.expiresAt);
    }
  }

  /** In time: a matching row may outlast the one found, but by less than a second and only within the
      second the found one expires in. */
  lemma {:induction false} LatestUpToOneSecond(
    bans: seq<BanRow>, targetKey: string, now: string, row: BanRow, found: Instant, other: Instant)
    requires row in bans && Matches(row, targetKey, now) && row.expiresAt == Ts(other)
    requires ActiveRow(bans, targetKey, now).value.expiresAt == Ts(found)
    requires Printable(found) && Printable(other)
    ensures other < found + SECOND
    ensures UnixSecond(other) != UnixSecond(found) ==> other < found
  {
    hide Ts, Printable, ActiveRow, Less;
    ActiveRowIsLatest(bans, targetKey, now, row);
    TextDecisionsWithinOneSecond(found, other);
    if UnixSecond(found) != UnixSecond(other) { TextOrderAcrossSeconds(found, other); }
  }

  /** What the query may answer: nothing if no row matches, otherwise a matching row that no other
      expires later than. Rows with one expiry text are interchangeable. */
  ghost predicate IsActive(bans: seq<BanRow>, targetKey: string, now: string, ban: Option<BanRow>) {
    match ban
    case None => forall row :: row in bans ==> !Matches(row, targetKey, now)
    case Some(b) =>
      && b in bans && Matches(b, targetKey, now)
      && forall row :: row in bans && Matches(row, targetKey, now) ==> !Less(b.expiresAt, row.expiresAt)
  }

  /** All such answers agree with ActiveRow on whether there is a ban and on how long it lasts. */
  lemma {:induction false} ActiveAnswers(bans: seq<BanRow>, targetKey: string, now: string, ban: Option<BanRow>)
    requires IsActive(bans, targetKey, now, ban)
    ensures IsActive(bans, targetKey, now, ActiveRow(bans, targetKey, now))
    ensures ban.Some? <==> ActiveRow(bans, targetKey, now).Some?
    ensures ban.Some? ==> ban.value.expiresAt == ActiveRow(bans, targetKey, now).value.expiresAt
  {
    hide Less, ActiveRow;
    var r := ActiveRow(bans, targetKey, now);
    forall row | row in bans && Matches(row, targetKey, now)
      ensures !Less(r.value.expiresAt, row.expiresAt)
    {
      ActiveRowIsLatest(bans, targetKey, now, row);
    }
    if ban.Some? { LessTotal(ban.value.expiresAt, r.value.expiresAt); }
  }

  /** AddOrExtendBan inserts a row; a ban without a target is refused. */
  function AddBan(bans: seq<BanRow>, ban: RouteBan, clock: Instant): Result<seq<BanRow>> {
    if ban.targetKey == "" then Err("target key is required") else Ok(bans + [BanRowOf(ban, clock)])
  }

  function Lifted(row: BanRow, targetKey: string, reason: string, now: string): BanRow {
    if Open(row, targetKey) then row.(unbannedAt := Some(now), unbanReason := if reason == "" then "manual" else reason)
      else row
  }

  /** UnbanRoute lifts every open ban of the target. */
  function Unban(bans: seq<BanRow>, targetKey: string, reason: string, now: Instant): (r: seq<BanRow>)
    ensures |r| == |bans|
    ensures forall i :: 0 <= i < |bans| ==> r[i] == Lifted(bans[i], targetKey, reason, Ts(now))
  {
    seq(|bans|, i requires 0 <= i < |bans| => Lifted(bans[i], targetKey, reason, Ts(now)))
  }

  /** By text another ban never shortens the effective expiry of a target. */
  lemma {:induction false} AddingNeverShortens(bans: seq<BanRow>, row: BanRow, targetKey: string, now: string)
    requires ActiveRow(bans, targetKey, now).Some?
    ensures ActiveRow(bans + [row], targetKey, now).Some?
    ensures !Less(ActiveRow(bans + [row], targetKey, now).value.expiresAt,
                  ActiveRow(bans, targetKey, now).value.expiresAt)
  {
    var was := ActiveRow(bans, targetKey, now).value;
    assert was in bans + [row];
    ActiveRowIsLatest(bans + [row], targetKey, now, was);
  }

  /** An added row is reported exactly when it matches and expires later by text. */
  lemma {:induction false} AddedRowDecides(bans: seq<BanRow>, row: BanRow, targetKey: string, now: string)
    ensures var was := ActiveRow(bans, targetKey, now);
            ActiveRow(bans + [row], targetKey, now) ==
              if Matches(row, targetKey, now) && (was.None? || Less(was.value.expiresAt, row.expiresAt)) then Some(row)
              else was
  {
    hide Matches, Less;
    if bans == [] {
      assert [] + [row] == [row] && [row][1..] == [];
    } else {
      var first, rest := bans[0], ActiveRow(bans[1..], targetKey, now);
      assert (bans + [row])[1..] == bans[1..] + [row];
      AddedRowDecides(bans[1..], row, targetKey, now);
      if rest.Some? { LaterOfThree(first.expiresAt, rest.value.expiresAt, row.expiresAt); }
    }
  }

  lemma {:induction false} LaterOfThree(a: string, b: string, c: string)
    ensures Less(a, b) && Less(b, c) ==> Less(a, c)
    ensures !Less(a, b) && Less(a, c) ==> Less(b, c)
  {
    LessTotal(a, b);
    if Less(a, b) && Less(b, c) { LessTransitive(a, b, c); }
    if Less(b, a) && Less(a, c) { LessTransitive(b, a, c); }
  }

  /** In time: a matching row added to a target with an active ban moves the reported expiry earlier exactly
      when it expires earlier in the same second and its printed fraction is a prefix of the other's. */
  lemma {:induction false} AddingShortensIffPrefix(
    bans: seq<BanRow>, row: BanRow, targetKey: string, now: string, was: Instant, added: Instant)
    requires ActiveRow(bans, targetKey, now).Some? && ActiveRow(bans, targetKey, now).value.expiresAt == Ts(was)
    requires Matches(row, targetKey, now) && row.expiresAt == Ts(added) && Printable(was) && Printable(added)
    ensures added < was ==>
              (ActiveRow(bans + [row], targetKey, now) == Some(row) <==>
               UnixSecond(added) == UnixSecond(was) && FractionDigits(added) <= FractionDigits(was))
    ensures var after := ActiveRow(bans + [row], targetKey, now);
            after == Some(row) || after == ActiveRow(bans, targetKey, now)
    ensures ActiveRow(bans + [row], targetKey, now) == Some(row) ==> was < added + SECOND
  {
    hide Ts, Printable, ActiveRow, Less, FractionDigits;
    AddedRowDecides(bans, row, targetKey, now);
    LessTotal(Ts(was), Ts(added));
    if added < was {
      if Ts(was) == Ts(added) { TsInjective(was, added); }
      if Less(Ts(was), Ts(added)) { LessAsymmetric(Ts(was), Ts(added)); }
      if UnixSecond(added) == UnixSecond(was) {
        TextOrderWithinSecond(added, was);
      } else {
        TextOrderAcrossSeconds(added, was);
      }
    }
  }

  /** Two bans of one target within a second: adding the one that expires half a second earlier makes it
      the one reported. */
  lemma {:induction false} AddingShortens(a: BanRow, b: BanRow, targetKey: string, now: string)
    requires Open(a, targetKey) && a.expiresAt == Ts(SECOND / 2) && Open(b, targetKey) && b.expiresAt == Ts(0)
    requires Less(now, a.expiresAt)
    ensures ActiveRow([a], targetKey, now) == Some(a)
    ensures ActiveRow([a] + [b], targetKey, now) == Some(b)
  {
    hide Ts, Less, FractionDigits;
    TextOrderFails();
    LessTransitive(now, a.expiresAt, b.expiresAt);
    assert [a][1..] == [] && [a, b][1..] == [b] && [b][1..] == [] && [a] + [b] == [a, b];
    assert ActiveRow([b], targetKey, now) == Some(b);
  }

  /** Lifting a target's bans ends them at once, and leaves the ban reported for every other target. */
  lemma {:induction false} UnbanIsExact(
    bans: seq<BanRow>, targetKey: string, reason: string, at: Instant, other: string, now: string)
    ensures var after := Unban(bans, targetKey, reason, at);
            && ActiveRow(after, targetKey, now).None?
            && (other != targetKey ==> ActiveRow(after, other, now) == ActiveRow(bans, other, now))
  {
    hide Ts, Less;
    if bans != [] {
      assert Unban(bans, targetKey, reason, at)[1..] == Unban(bans[1..], targetKey, reason, at);
      UnbanIsExact(bans[1..], targetKey, reason, at, other, now);
    }
  }

  /** An open ban the store wrote holds in every whole second before its expiry's, and no ban holds in
      a whole second after its expiry's: the text comparison errs by less than one second. */
  lemma {:induction false} OpenBanHolds(
    bans: seq<BanRow>, row: BanRow, targetKey: string, expiresAt: Instant, now: Instant)
    requires row in bans && Open(row, targetKey) && row.expiresAt == Ts(expiresAt)
    requires Printable(expiresAt) && Printable(now) && UnixSecond(now) != UnixSecond(expiresAt)
    ensures Matches(row, targetKey, Ts(now)) <==> now < expiresAt
    ensures now < expiresAt ==> ActiveRow(bans, targetKey, Ts(now)).Some?
  {
    hide Ts, Printable;
    TextOrderAcrossSeconds(now, expiresAt);
  }

  // ----- Runs of ban operations -----

  datatype BanOp = Add(ban: RouteBan) | Lift(targetKey: string, reason: string)

  datatype TimedBanOp = TimedBanOp(at: Instant, op: BanOp)

  function ApplyBan(bans: seq<BanRow>, t: TimedBanOp): seq<BanRow> {
    match t.op
    case Add(ban) => var r := AddBan(bans, ban, t.at); if r.Ok? then r.value else bans
    case Lift(targetKey, reason) => Unban(bans, targetKey, reason, t.at)
  }

  function RunBans(bans: seq<BanRow>, run: seq<TimedBanOp>): seq<BanRow>
    decreases |run|
  {
    if run == [] then bans else RunBans(ApplyBan(bans, run[0]), run[1..])
  }

  /** An open row survives every run that does not lift its target. */
  lemma {:induction false} OpenRowStays(bans: seq<BanRow>, row: BanRow, run: seq<TimedBanOp>)
    requires row in bans && row.unbannedAt.None?
    requires forall i :: 0 <= i < |run| && run[i].op.Lift? ==> run[i].op.targetKey != row.targetKey
    ensures row in RunBans(bans, run)
    decreases |run|
  {
    hide Ts;
    if run != [] {
      var next := ApplyBan(bans, run[0]);
      if run[0].op.Lift? {
        var i :| 0 <= i < |bans| && bans[i] == row;
        assert next[i] == row;
      }
      assert forall i :: 0 <= i < |run[1..]| ==> run[1..][i] == run[i + 1];
      OpenRowStays(next, row, run[1..]);
    }
  }

  /** A ban is refused exactly without a target; otherwise a row is added that says what the ban says, dated
      by the clock if the ban is not dated. */
  lemma {:induction false} AddedBanSays(bans: seq<BanRow>, ban: RouteBan, clock: Instant)
    ensures AddBan(bans, ban, clock).Err? <==> ban.targetKey == ""
    ensures AddBan(bans, ban, clock).Err? ==> AddBan(bans, ban, clock) == Err("target key is required")
    ensures AddBan(bans, ban, clock).Ok? ==>
              var after := AddBan(bans, ban, clock).value;
              && |after| == |bans| + 1 && after[..|bans|] == bans
              && var row := after[|bans|];
                 && row.targetKey == ban.targetKey && row.provider == ban.provider && row.model == ban.model
                 && row.authID == ban.authID && row.authType == ban.authType && row.reason == ban.reason
                 && row.statusCode == ban.statusCode && row.sourceRequestID == ban.sourceRequestID
                 && row.expiresAt == Ts(ban.expiresAt) && row.unbannedAt.None?
                 && (ban.bannedAt != ZERO_TIME ==> row.bannedAt == Ts(ban.bannedAt))
                 && (ban.bannedAt == ZERO_TIME ==> row.bannedAt == Ts(clock))
  {
    hide Ts;
  }

  /** Lifting dates a row and gives it the reason, or "manual" without one. */
  lemma {:induction false} LiftedSays(row: BanRow, targetKey: string, reason: string, now: string)
    requires row.targetKey == targetKey && row.unbannedAt.None?
    ensures var lifted := Lifted(row, targetKey, reason, now);
            && lifted.unbannedAt == Some(now) && lifted.unbanReason == (if reason != "" then reason else "manual")
            && lifted.(unbannedAt := None, unbanReason := row.unbanReason) == row
  {
  }
}
