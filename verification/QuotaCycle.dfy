/** The weekly quota cycle on instants: reading the active period may roll it over, and so may
    observing a later upstream boundary. */
module QuotaCycle {
  import opened Base
  import Decimal

  const UPSTREAM_PREFIX := "codex-W-"

  function UpstreamText(second: int): string { UPSTREAM_PREFIX + Decimal.IntText(second) }

  /** The label of the cycle that starts at a boundary. */
  function UpstreamLabel(boundary: Instant): string { UpstreamText(UnixSecond(boundary)) }

  predicate IsUpstream(tag: string) { UPSTREAM_PREFIX <= tag }

  lemma {:induction false} UpstreamTextInjective(a: int, b: int)
    ensures IsUpstream(UpstreamText(a))
    ensures UpstreamText(a) == UpstreamText(b) <==> a == b
  {
    assert UpstreamText(a)[|UPSTREAM_PREFIX|..] == Decimal.IntText(a);
    assert UpstreamText(b)[|UPSTREAM_PREFIX|..] == Decimal.IntText(b);
    if Decimal.IntText(a) == Decimal.IntText(b) { Decimal.IntTextInjective(a, b); }
  }

  /** The singleton cycle row: active label, next known boundary, and one prior cycle. */
  datatype Cycle = Cycle(period: string, next: Option<Instant>, prev: Option<string>, start: Option<Instant>)

  /** No row means that no boundary has been learned yet. */
  type State = Option<Cycle>

  /** The fallback label of an instant (ISO week or month), as configured. */
  type Labels = Instant -> string

  predicate Due(st: State, now: Instant) {
    st.Some? && st.value.next.Some? && st.value.next.value <= now
  }

  function Roll(c: Cycle, boundary: Instant): Cycle {
    Cycle(UpstreamLabel(boundary), None, Some(c.period), Some(boundary))
  }

  /** Apply the rollover that is due, if any. */
  function Settle(st: State, now: Instant): State {
    if Due(st, now) then Some(Roll(st.value, st.value.next.value)) else st
  }

  /** The label a settled state gives to an instant; the prior cycle covers instants before the start. */
  function LabelAt(labels: Labels, st: State, t: Instant): string {
    match st
    case None => labels(t)
    case Some(c) =>
      if c.prev.Some? && c.start.Some? && t < c.start.value then c.prev.value else c.period
  }

  /** CurrentPeriod in weekly mode. */
  function Resolve(labels: Labels, st: State, now: Instant): string {
    LabelAt(labels, Settle(st, now), now)
  }

  /** ObserveUpstreamWeeklyReset in weekly mode. */
  function Observe(labels: Labels, st: State, resetAt: Instant, now: Instant): State {
    if resetAt == ZERO_TIME || resetAt <= now then st
    else match st
      case None => Some(Cycle(labels(now), Some(resetAt), None, None))
      case Some(c) =>
        if c.next.None? then Some(c.(next := Some(resetAt)))
        else if resetAt <= c.next.value then st
        else if c.next.value <= now then Some(Roll(c, c.next.value).(next := Some(resetAt)))
        else Some(c.(next := Some(resetAt)))
  }

  // ----- Runs -----

  datatype Step = Read(now: Instant) | Learn(resetAt: Instant)

  /** A step taken when the clock shows `at`. A read may ask about an earlier instant. */
  datatype Timed = Timed(at: Instant, step: Step)

  function Apply(labels: Labels, st: State, s: Timed): State {
    match s.step
    case Read(now) => Settle(st, now)
    case Learn(resetAt) => Observe(labels, st, resetAt, s.at)
  }

  function Run(labels: Labels, st: State, run: seq<Timed>): State
    decreases |run|
  {
    if run == [] then st else Run(labels, Apply(labels, st, run[0]), run[1..])
  }

  ghost predicate Monotone(clock: Instant, run: seq<Timed>)
    decreases |run|
  {
    run == [] ||
    (&& clock <= run[0].at
     && (run[0].step.Read? ==> run[0].step.now <= run[0].at)
     && Monotone(run[0].at, run[1..]))
  }

  function EndClock(clock: Instant, run: seq<Timed>): Instant {
    if run == [] then clock else run[|run| - 1].at
  }

  /** What every reachable state satisfies when the clock shows `clock`. */
  ghost predicate Sound(st: State, clock: Instant) {
    st.Some? ==>
      var c := st.value;
      && (c.start.Some? <==> c.prev.Some?)
      && (c.start.Some? ==> c.start.value <= clock && c.period == UpstreamLabel(c.start.value))
      && (c.start.Some? && c.next.Some? ==> c.start.value < c.next.value)
  }

  lemma {:induction false} ApplySound(labels: Labels, st: State, clock: Instant, s: Timed)
    requires Sound(st, clock) && Monotone(clock, [s])
    ensures Sound(Apply(labels, st, s), s.at)
  {
    hide UpstreamText;
  }

  lemma {:induction false} RunSound(labels: Labels, st: State, clock: Instant, run: seq<Timed>)
    requires Sound(st, clock) && Monotone(clock, run)
    ensures Sound(Run(labels, st, run), EndClock(clock, run))
    decreases |run|
  {
    if run != [] {
      ApplySound(labels, st, clock, run[0]);
      RunSound(labels, Apply(labels, st, run[0]), run[0].at, run[1..]);
    }
  }

  // ----- Reads do not steer the cycle -----

  /** A rollover found by a reader and then observed equals one found by the observer. */
  lemma {:induction false} LateDiscoveryAgrees(labels: Labels, st: State, resetAt: Instant, now: Instant, read: Instant)
    requires read <= now
    ensures Settle(Observe(labels, Settle(st, read), resetAt, now), now) ==
              Settle(Observe(labels, st, resetAt, now), now)
  {
    hide UpstreamLabel;
  }

  /** `rest` is `run` with some of its reads left out. */
  ghost predicate ReadsErased(run: seq<Timed>, rest: seq<Timed>) {
    if run == [] then rest == []
    else
      || (rest != [] && rest[0] == run[0] && ReadsErased(run[1..], rest[1..]))
      || (run[0].step.Read? && ReadsErased(run[1..], rest))
  }

  lemma {:induction false} SettleLater(st: State, t: Instant, u: Instant)
    requires t <= u
    ensures Settle(Settle(st, t), u) == Settle(st, u)
  {
  }

  /** States that agree once settled keep agreeing after the same step. */
  lemma {:induction false} ApplyAgrees(labels: Labels, a: State, b: State, clock: Instant, s: Timed)
    requires Monotone(clock, [s])
    requires Settle(a, clock) == Settle(b, clock)
    ensures Settle(Apply(labels, a, s), s.at) == Settle(Apply(labels, b, s), s.at)
  {
    hide UpstreamLabel;
    SettleLater(a, clock, s.at);
    SettleLater(b, clock, s.at);
    match s.step
    case Read(now) =>
      SettleLater(a, now, s.at);
      SettleLater(b, now, s.at);
    case Learn(resetAt) =>
      LateDiscoveryAgrees(labels, a, resetAt, s.at, s.at);
      LateDiscoveryAgrees(labels, b, resetAt, s.at, s.at);
  }

  lemma {:induction false} ReadsDoNotSteer(
    labels: Labels, a: State, b: State, clock: Instant, run: seq<Timed>, rest: seq<Timed>)
    requires Monotone(clock, run) && ReadsErased(run, rest)
    requires Settle(a, clock) == Settle(b, clock)
    ensures var end := EndClock(clock, run);
            Settle(Run(labels, a, run), end) == Settle(Run(labels, b, rest), end)
    decreases |run|
  {
    if run != [] {
      var s := run[0];
      if rest != [] && rest[0] == s && ReadsErased(run[1..], rest[1..]) {
        ApplyAgrees(labels, a, b, clock, s);
        ReadsDoNotSteer(labels, Apply(labels, a, s), Apply(labels, b, s), s.at, run[1..], rest[1..]);
      } else {
        SettleLater(a, clock, s.at);
        SettleLater(b, clock, s.at);
        SettleLater(a, s.step.now, s.at);
        ReadsDoNotSteer(labels, Apply(labels, a, s), b, s.at, run[1..], rest);
      }
    }
  }

  // ----- Each boundary rolls once -----

  /** The boundary a step rolls over, if it does. */
  function Rolled(st: State, s: Timed): seq<Instant> {
    match s.step
    case Read(now) => if Due(st, now) then [st.value.next.value] else []
    case Learn(resetAt) =>
      if resetAt != ZERO_TIME && s.at < resetAt && Due(st, s.at) then [st.value.next.value] else []
  }

  function Rolls(labels: Labels, st: State, run: seq<Timed>): seq<Instant>
    decreases |run|
  {
    if run == [] then [] else Rolled(st, run[0]) + Rolls(labels, Apply(labels, st, run[0]), run[1..])
  }

  ghost predicate Increasing(s: seq<Instant>) {
    forall i, j :: 0 <= i < j < |s| ==> s[i] < s[j]
  }

  function StartOf(st: State): Option<Instant> { if st.Some? then st.value.start else None }

  /** The starts a run goes through: each later than the one before, the last one recorded. */
  ghost predicate StartsFollow(from: Option<Instant>, rolls: seq<Instant>, to: Option<Instant>) {
    && Increasing(rolls)
    && (from.Some? ==> forall i :: 0 <= i < |rolls| ==> from.value < rolls[i])
    && to == (if rolls == [] then from else Some(rolls[|rolls| - 1]))
  }

  lemma {:induction false} StepRolls(labels: Labels, st: State, clock: Instant, s: Timed)
    requires Sound(st, clock) && Monotone(clock, [s])
    ensures StartsFollow(StartOf(st), Rolled(st, s), StartOf(Apply(labels, st, s)))
  {
    hide UpstreamLabel;
  }

  lemma {:induction false} StartsCompose(
    a: Option<Instant>, r: seq<Instant>, b: Option<Instant>, q: seq<Instant>, c: Option<Instant>)
    requires StartsFollow(a, r, b) && StartsFollow(b, q, c)
    ensures StartsFollow(a, r + q, c)
  {
  }

  /** Over any run the rolled boundaries strictly increase: none rolls twice, every start is later
      than the one before, and the last one rolled is the recorded start. */
  lemma {:induction false} EachBoundaryRollsOnce(labels: Labels, st: State, clock: Instant, run: seq<Timed>)
    requires Sound(st, clock) && Monotone(clock, run)
    ensures StartsFollow(StartOf(st), Rolls(labels, st, run), StartOf(Run(labels, st, run)))
    decreases |run|
  {
    if run != [] {
      var s := run[0];
      var d := Apply(labels, st, s);
      ApplySound(labels, st, clock, s);
      StepRolls(labels, st, clock, s);
      EachBoundaryRollsOnce(labels, d, s.at, run[1..]);
      StartsCompose(StartOf(st), Rolled(st, s), StartOf(d), Rolls(labels, d, run[1..]),
                    StartOf(Run(labels, d, run[1..])));
    }
  }

  // ----- Attribution of delayed callbacks -----

  /** The active label after some rollovers, and the label of the cycle before it. */
  function ActiveAfter(tag: string, rolls: seq<Instant>): string {
    if rolls == [] then tag else UpstreamLabel(rolls[|rolls| - 1])
  }

  function PriorAfter(tag: string, rolls: seq<Instant>): string
    requires rolls != []
  {
    ActiveAfter(tag, rolls[..|rolls| - 1])
  }

  /** The state after some rollovers, as seen by an instant t that resolved to `tag` before them. */
  ghost predicate Remembers(c: Cycle, t: Instant, tag: string, rolls: seq<Instant>) {
    && (c.next.Some? ==> t < c.next.value)
    && (c.start.Some? <==> c.prev.Some?)
    && c.period == ActiveAfter(tag, rolls)
    && (rolls == [] ==> c.start.Some? ==> c.start.value <= t)
    && (rolls != [] ==> c.start.Some? && t < c.start.value && c.prev == Some(PriorAfter(tag, rolls)))
  }

  lemma {:induction false} MemoryStep(
    labels: Labels, c: Cycle, clock: Instant, t: Instant, tag: string, rolls: seq<Instant>, s: Timed)
    requires Remembers(c, t, tag, rolls) && t <= clock && Monotone(clock, [s])
    ensures var d := Apply(labels, Some(c), s);
            d.Some? && Remembers(d.value, t, tag, rolls + Rolled(Some(c), s))
  {
    hide UpstreamLabel;
    var more := Rolled(Some(c), s);
    if more == [] {
      assert rolls + more == rolls;
    } else {
      assert (rolls + more)[..|rolls + more| - 1] == rolls;
    }
  }

  lemma {:induction false} Associative(a: seq<Instant>, b: seq<Instant>, c: seq<Instant>)
    ensures a + (b + c) == (a + b) + c
  {
  }

  lemma {:induction false} MemoryKept(
    labels: Labels, c: Cycle, clock: Instant, t: Instant, tag: string, rolls: seq<Instant>, run: seq<Timed>)
    requires Remembers(c, t, tag, rolls) && t <= clock && Monotone(clock, run)
    ensures var end := Run(labels, Some(c), run);
            end.Some? && Remembers(end.value, t, tag, rolls + Rolls(labels, Some(c), run))
    decreases |run|
  {
    hide UpstreamLabel;
    if run == [] {
      assert rolls + [] == rolls;
    } else {
      var s := run[0];
      MemoryStep(labels, c, clock, t, tag, rolls, s);
      var d := Apply(labels, Some(c), s);
      var more, rest := Rolled(Some(c), s), Rolls(labels, d, run[1..]);
      MemoryKept(labels, d.value, s.at, t, tag, rolls + more, run[1..]);
      Associative(rolls, more, rest);
    }
  }

  lemma {:induction false} RememberedLabel(labels: Labels, c: Cycle, t: Instant, tag: string, rolls: seq<Instant>)
    requires Remembers(c, t, tag, rolls)
    ensures Resolve(labels, Some(c), t) == if |rolls| <= 1 then tag else UpstreamLabel(rolls[|rolls| - 2])
  {
    hide UpstreamLabel;
  }

  /** An instant in the current cycle that resolved to a label still resolves to it after any
      further steps with at most one rollover; after more, it lands in the cycle before the
      active one, whatever its own was. */
  lemma {:induction false} AttributionStable(labels: Labels, c: Cycle, clock: Instant, t: Instant, run: seq<Timed>)
    requires Sound(Some(c), clock) && t <= clock && Monotone(clock, run)
    requires c.start.Some? ==> c.start.value <= t
    ensures var first := Settle(Some(c), t);
            var rolls := Rolls(labels, first, run);
            Resolve(labels, Run(labels, first, run), t) ==
              if |rolls| <= 1 then Resolve(labels, Some(c), t) else UpstreamLabel(rolls[|rolls| - 2])
  {
    hide UpstreamLabel, Run, Rolls;
    var first := Settle(Some(c), t).value;
    var rolls := Rolls(labels, Some(first), run);
    assert Resolve(labels, Some(c), t) == first.period;
    MemoryKept(labels, first, clock, t, first.period, [], run);
    assert [] + rolls == rolls;
    RememberedLabel(labels, Run(labels, Some(first), run).value, t, first.period, rolls);
  }

  // ----- No passed boundary is lost -----

  /** A step that replaces boundary b by a later one before b has passed. */
  predicate Supersedes(s: Timed, b: Instant) {
    s.step.Learn? && s.at < b < s.step.resetAt && s.step.resetAt != ZERO_TIME
  }

  ghost predicate Superseded(run: seq<Timed>, b: Instant) { exists i :: 0 <= i < |run| && Supersedes(run[i], b) }

  lemma {:induction false} SupersededSplits(run: seq<Timed>, b: Instant)
    requires run != []
    ensures Superseded(run, b) <==> Supersedes(run[0], b) || Superseded(run[1..], b)
  {
    if Superseded(run[1..], b) {
      var i :| 0 <= i < |run[1..]| && Supersedes(run[1..][i], b);
      assert run[i + 1] == run[1..][i];
    }
    if Superseded(run, b) && !Supersedes(run[0], b) {
      var i :| 0 <= i < |run| && Supersedes(run[i], b);
      assert run[1..][i - 1] == run[i];
    }
  }

  /** The machine will never roll b again: what it waits for, or may learn, lies beyond. */
  predicate Beyond(st: State, clock: Instant, b: Instant) {
    st.Some? && if st.value.next.Some? then b < st.value.next.value else b < clock
  }

  lemma {:induction false} NothingRollsBack(labels: Labels, st: State, clock: Instant, run: seq<Timed>, b: Instant)
    requires Beyond(st, clock, b) && Monotone(clock, run)
    ensures b !in Rolls(labels, st, run)
    decreases |run|
  {
    hide UpstreamLabel;
    if run != [] { NothingRollsBack(labels, Apply(labels, st, run[0]), run[0].at, run[1..], b); }
  }

  lemma {:induction false} NothingSupersedesLater(clock: Instant, run: seq<Timed>, b: Instant)
    requires Monotone(clock, run) && b <= clock
    ensures !Superseded(run, b)
    decreases |run|
  {
    if run != [] {
      NothingSupersedesLater(run[0].at, run[1..], b);
      SupersededSplits(run, b);
    }
  }

  /** The awaited boundary rolls in a run that ends with a read at or after it, exactly when no
      observation put a later boundary in its place before it had passed. */
  lemma {:induction false} NoPassedBoundaryLost(labels: Labels, st: State, clock: Instant, run: seq<Timed>, b: Instant)
    requires st.Some? && st.value.next == Some(b) && Monotone(clock, run)
    requires run != [] && run[|run| - 1].step.Read? && b <= run[|run| - 1].step.now
    ensures b in Rolls(labels, st, run) <==> !Superseded(run, b)
    decreases |run|
  {
    hide UpstreamLabel, Superseded;
    var s := run[0];
    SupersededSplits(run, b);
    var d := Apply(labels, st, s);
    if Rolled(st, s) != [] {
      assert Rolled(st, s)[0] == b;
      NothingSupersedesLater(s.at, run[1..], b);
    } else if Supersedes(s, b) {
      NothingRollsBack(labels, d, s.at, run[1..], b);
    } else {
      assert d == st;
      NoPassedBoundaryLost(labels, d, s.at, run[1..], b);
    }
  }

  /** Why observations must use the current clock: one made with an earlier instant does the same exactly
      if that instant is not before the boundary that has passed; otherwise it overwrites the boundary,
      and that rollover is lost. */
  lemma {:induction false} StaleObservationLosesRollover(
    labels: Labels, c: Cycle, boundary: Instant, at: Instant, later: Instant, clock: Instant)
    requires Sound(Some(c), clock) && c.next == Some(boundary)
    requires at <= clock && boundary <= clock < later && later != ZERO_TIME
    ensures Settle(Observe(labels, Some(c), later, clock), clock) == Some(Roll(c, boundary).(next := Some(later)))
    ensures Settle(Observe(labels, Some(c), later, at), clock) ==
              Some(if at < boundary then c.(next := Some(later)) else Roll(c, boundary).(next := Some(later)))
    ensures Settle(Observe(labels, Some(c), later, at), clock) == Settle(Observe(labels, Some(c), later, clock), clock)
            <==> boundary <= at
  {
    hide UpstreamText;
  }

  /** And once a reader has rolled a boundary over, one that repeats it with an instant before it arms
      it again: it rolls twice and the label of the cycle before it is forgotten. */
  lemma {:induction false} StaleObservationRollsTwice(
    labels: Labels, c: Cycle, boundary: Instant, stale: Instant, clock: Instant)
    requires c.next == Some(boundary) && stale < boundary <= clock && boundary != ZERO_TIME
    ensures var run := [Timed(clock, Read(clock)), Timed(stale, Learn(boundary)), Timed(clock, Read(clock))];
            && Rolls(labels, Some(c), run) == [boundary, boundary]
            && Run(labels, Some(c), run) ==
              Some(Cycle(UpstreamLabel(boundary), None, Some(UpstreamLabel(boundary)), Some(boundary)))
  {
    hide UpstreamLabel;
    var read, learn := Timed(clock, Read(clock)), Timed(stale, Learn(boundary));
    var run := [read, learn, read];
    var rolled := Roll(c, boundary);
    var armed := rolled.(next := Some(boundary));
    assert run[1..] == [learn, read] && [learn, read][1..] == [read] && [read][1..] == [];
    assert Rolls(labels, Some(armed), [read]) == [boundary] + Rolls(labels, Some(Roll(armed, boundary)), []);
    assert Rolls(labels, Some(rolled), [learn, read]) == [] + Rolls(labels, Some(armed), [read]);
    assert Run(labels, Some(armed), [read]) == Some(Roll(armed, boundary));
    assert Run(labels, Some(rolled), [learn, read]) == Run(labels, Some(armed), [read]);
  }

  /** The label of a cycle is the second it starts in, after a fixed prefix. */
  lemma {:induction false} LabelOfSeventhSecond()
    ensures UpstreamLabel(7 * SECOND + SECOND / 2) == "codex-W-7"
  {
  }

  /** The first boundary learned does not change the label: until it passes, all instants have the fallback
      label of the observation. */
  lemma {:induction false} FirstBoundaryKeepsLabel(labels: Labels, boundary: Instant, now: Instant, t: Instant)
    requires now < boundary && boundary != ZERO_TIME && t < boundary
    ensures var st := Observe(labels, None, boundary, now);
            Resolve(labels, st, now) == labels(now) && Resolve(labels, st, t) == labels(now)
    ensures Resolve(labels, Observe(labels, None, boundary, now), boundary) == UpstreamLabel(boundary)
  {
    hide UpstreamText;
  }
}
